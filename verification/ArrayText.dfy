/** Array cells: split at the delimiter, written as a PostgreSQL array literal, and read back
    through the CSV field that carries it. */
module ArrayText {
  import opened OrderedMaps
  import opened JsText
  import opened CsvText

  predicate OccursAt(s: string, part: string, i: nat) {
    i + |part| <= |s| && s[i..i + |part|] == part
  }

  /** The leftmost occurrence. */
  function Find(s: string, part: string): (r: Option<nat>)
    ensures r.Some? ==> OccursAt(s, part, r.value) && forall i :: 0 <= i < r.value ==> !OccursAt(s, part, i)
    ensures r.None? ==> forall i :: 0 <= i <= |s| ==> !OccursAt(s, part, i)
  {
    FindFrom(s, part, 0)
  }

  function FindFrom(s: string, part: string, from: nat): (r: Option<nat>)
    requires from <= |s|
    requires forall i :: 0 <= i < from ==> !OccursAt(s, part, i)
    ensures r.Some? ==> OccursAt(s, part, r.value) && forall i :: 0 <= i < r.value ==> !OccursAt(s, part, i)
    ensures r.None? ==> forall i :: 0 <= i <= |s| ==> !OccursAt(s, part, i)
    decreases |s| - from
  {
    if OccursAt(s, part, from) then Some(from)
    else if from == |s| then None
    else FindFrom(s, part, from + 1)
  }

  /** String.prototype.split at a delimiter that is not empty. */
  function Split(s: string, delimiter: string): (parts: seq<string>)
    requires delimiter != ""
    ensures |parts| >= 1
    decreases |s|
  {
    match Find(s, delimiter)
    case None => [s]
    case Some(i) => [s[..i]] + Split(s[i + |delimiter|..], delimiter)
  }

  lemma JoinFirst(first: string, parts: seq<string>, separator: string)
    requires |parts| >= 1
    ensures Join([first] + parts, separator) == first + separator + Join(parts, separator)
  {
    assert ([first] + parts)[1..] == parts;
  }

  lemma CutApart(s: string, part: string, i: nat)
    requires OccursAt(s, part, i)
    ensures s == s[..i] + part + s[i + |part|..]
  {
  }

  /** Joining the parts restores the text. */
  lemma {:induction false} JoinUndoesSplit(s: string, delimiter: string)
    requires delimiter != ""
    ensures Join(Split(s, delimiter), delimiter) == s
    decreases |s|
  {
    match Find(s, delimiter)
    case None =>
    case Some(i) =>
      var rest := s[i + |delimiter|..];
      JoinUndoesSplit(rest, delimiter);
      JoinFirst(s[..i], Split(rest, delimiter), delimiter);
      CutApart(s, delimiter, i);
  }

  lemma PrefixHasNone(s: string, delimiter: string, i: nat)
    requires delimiter != "" && Find(s, delimiter) == Some(i)
    ensures Find(s[..i], delimiter) == None
  {
    if Find(s[..i], delimiter).Some? {
      var j := Find(s[..i], delimiter).value;
      assert s[j..j + |delimiter|] == s[..i][j..j + |delimiter|];
      assert OccursAt(s, delimiter, j);
    }
  }

  lemma {:induction false} PartsFindNoDelimiter(s: string, delimiter: string, k: nat)
    requires delimiter != "" && k < |Split(s, delimiter)|
    ensures Find(Split(s, delimiter)[k], delimiter) == None
    decreases |s|
  {
    match Find(s, delimiter)
    case None =>
    case Some(i) =>
      if k == 0 {
        PrefixHasNone(s, delimiter, i);
      } else {
        PartsFindNoDelimiter(s[i + |delimiter|..], delimiter, k - 1);
      }
  }

  /** The text stands somewhere in s. */
  ghost predicate Holds(s: string, part: string) {
    exists before, after :: s == before + part + after
  }

  lemma FindsWhatIsHeld(s: string, part: string)
    requires part != ""
    ensures Find(s, part).Some? <==> Holds(s, part)
  {
    match Find(s, part)
    case Some(i) => CutApart(s, part, i);
    case None =>
      forall before: string, after: string ensures s != before + part + after {
        if s == before + part + after {
          assert s[|before|..|before| + |part|] == part;
          assert OccursAt(s, part, |before|);
        }
      }
  }

  /** No part of a split holds the delimiter. */
  lemma PartsHoldNoDelimiter(s: string, delimiter: string, k: nat)
    requires delimiter != "" && k < |Split(s, delimiter)|
    ensures !Holds(Split(s, delimiter)[k], delimiter)
  {
    PartsFindNoDelimiter(s, delimiter, k);
    FindsWhatIsHeld(Split(s, delimiter)[k], delimiter);
  }

  // The writer.

  function EscapeElement(part: string): string {
    ReplaceAll(ReplaceAll(part, '\\', "\\\\"), '"', "\\\"")
  }

  function Quoted(part: string): string {
    "\"" + EscapeElement(part) + "\""
  }

  function QuotedAll(parts: seq<string>): (r: seq<string>)
    ensures |r| == |parts|
  {
    if parts == [] then [] else [Quoted(parts[0])] + QuotedAll(parts[1..])
  }

  function ArrayLiteral(parts: seq<string>): string {
    "{" + Join(QuotedAll(parts), ",") + "}"
  }

  function TransformArray(raw: string, delimiter: string): string
    requires delimiter != ""
  {
    var trimmed := Trim(raw);
    if trimmed == "" then "{}" else ArrayLiteral(TrimAll(Split(trimmed, delimiter)))
  }

  // A reader of one-dimensional array literals, after section 8.15.6 of the PostgreSQL manual.

  predicate IsArraySpace(c: char) {
    c in {' ', '\t', '\n', '\r', '\U{000B}', '\U{000C}'}
  }

  function SkipSpace(text: string): (r: string)
    ensures |r| <= |text|
  {
    if text != "" && IsArraySpace(text[0]) then SkipSpace(text[1..]) else text
  }

  /** The rest of a quoted element after its opening quote: a backslash takes the next character literally. */
  function ReadQuotedElement(text: string): (r: Option<(string, string)>)
    ensures r.Some? ==> |r.value.1| < |text|
  {
    if text == "" then None
    else if text[0] == '"' then Some(("", text[1..]))
    else if text[0] == '\\' then
      if |text| == 1 then None
      else
        match ReadQuotedElement(text[2..])
        case None => None
        case Some((value, rest)) => Some(([text[1]] + value, rest))
    else
      match ReadQuotedElement(text[1..])
      case None => None
      case Some((value, rest)) => Some(([text[0]] + value, rest))
  }

  /** An element without quotes, up to a comma or the closing brace, and whether it had a backslash. */
  function ReadBareElement(text: string): (r: Option<(string, bool, string)>)
    ensures r.Some? ==> |r.value.2| <= |text|
  {
    if text == "" || text[0] in {'"', '{'} then None
    else if text[0] in {',', '}'} then Some(("", false, text))
    else if text[0] == '\\' then
      if |text| == 1 then None
      else
        match ReadBareElement(text[2..])
        case None => None
        case Some((value, escaped, rest)) => Some(([text[1]] + value, true, rest))
    else
      match ReadBareElement(text[1..])
      case None => None
      case Some((value, escaped, rest)) => Some(([text[0]] + value, escaped, rest))
  }

  /** One element; NULL without quotes is the null value. */
  function ReadElement(text: string): (r: Option<(Option<string>, string)>)
    ensures r.Some? ==> |r.value.1| <= |text|
  {
    var start := SkipSpace(text);
    if start != "" && start[0] == '"' then
      match ReadQuotedElement(start[1..])
      case None => None
      case Some((value, rest)) => Some((Some(value), SkipSpace(rest)))
    else
      match ReadBareElement(start)
      case None => None
      case Some((padded, escaped, rest)) =>
        var value := if escaped then padded else TrimRight(padded);
        if value == "" then None
        else if !escaped && ToLower(value) == "null" then Some((None, rest))
        else Some((Some(value), rest))
  }

  function ReadElements(text: string): Option<(seq<Option<string>>, string)>
    decreases |text|
  {
    match ReadElement(text)
    case None => None
    case Some((element, rest)) =>
      if rest == "" then None
      else if rest[0] == '}' then Some(([element], rest[1..]))
      else if rest[0] != ',' then None
      else
        match ReadElements(rest[1..])
        case None => None
        case Some((elements, after)) => Some(([element] + elements, after))
  }

  function ReadArray(literal: string): Option<seq<Option<string>>> {
    var text := SkipSpace(literal);
    if text == "" || text[0] != '{' then None
    else
      var inside := SkipSpace(text[1..]);
      if inside != "" && inside[0] == '}' then
        if SkipSpace(inside[1..]) == "" then Some([]) else None
      else
        match ReadElements(inside)
        case None => None
        case Some((elements, rest)) => if SkipSpace(rest) == "" then Some(elements) else None
  }

  function NoneNull(parts: seq<string>): (r: seq<Option<string>>)
    ensures |r| == |parts| && forall i :: 0 <= i < |parts| ==> r[i] == Some(parts[i])
  {
    seq(|parts|, i requires 0 <= i < |parts| => Some(parts[i]))
  }

  lemma ReplaceFirst(first: char, s: string, c: char, replacement: string)
    ensures ReplaceAll([first] + s, c, replacement)
         == (if first == c then replacement else [first]) + ReplaceAll(s, c, replacement)
  {
    assert ([first] + s)[1..] == s;
  }

  lemma EscapeElementStep(first: char, s: string)
    ensures EscapeElement([first] + s) ==
      (if first == '\\' then "\\\\" else if first == '"' then "\\\"" else [first]) + EscapeElement(s)
  {
    var later := ReplaceAll(s, '\\', "\\\\");
    ReplaceFirst(first, s, '\\', "\\\\");
    if first == '\\' {
      assert "\\\\" + later == ['\\'] + (['\\'] + later);
      ReplaceFirst('\\', ['\\'] + later, '"', "\\\"");
      ReplaceFirst('\\', later, '"', "\\\"");
      assert ['\\'] + (['\\'] + EscapeElement(s)) == "\\\\" + EscapeElement(s);
    } else {
      ReplaceFirst(first, later, '"', "\\\"");
    }
  }

  lemma {:induction false} ElementReadsBack(part: string, rest: string)
    ensures ReadQuotedElement(EscapeElement(part) + "\"" + rest) == Some((part, rest))
  {
    var text := EscapeElement(part) + "\"" + rest;
    if part == "" {
      assert text == "\"" + rest;
      assert text[1..] == rest;
    } else {
      var shorter := EscapeElement(part[1..]) + "\"" + rest;
      assert part == [part[0]] + part[1..];
      EscapeElementStep(part[0], part[1..]);
      ElementReadsBack(part[1..], rest);
      if part[0] in {'\\', '"'} {
        assert text == ['\\', part[0]] + shorter;
        assert text[2..] == shorter;
      } else {
        assert text == [part[0]] + shorter;
        assert text[1..] == shorter;
      }
    }
  }

  lemma QuotedElementReadsBack(part: string, rest: string)
    requires rest != "" && !IsArraySpace(rest[0])
    ensures ReadElement(Quoted(part) + rest) == Some((Some(part), rest))
  {
    var text := Quoted(part) + rest;
    ElementReadsBack(part, rest);
    assert text[1..] == EscapeElement(part) + "\"" + rest;
  }

  lemma {:induction false} ElementsReadBack(parts: seq<string>)
    requires parts != []
    ensures ReadElements(Join(QuotedAll(parts), ",") + "}") == Some((NoneNull(parts), ""))
  {
    var text := Join(QuotedAll(parts), ",") + "}";
    if |parts| == 1 {
      assert QuotedAll(parts) == [Quoted(parts[0])];
      QuotedElementReadsBack(parts[0], "}");
      assert ReadElement(text) == Some((Some(parts[0]), "}")) && "}"[1..] == "";
      assert NoneNull(parts) == [Some(parts[0])];
    } else {
      var more := Join(QuotedAll(parts[1..]), ",") + "}";
      assert QuotedAll(parts)[1..] == QuotedAll(parts[1..]);
      assert text == Quoted(parts[0]) + ("," + more);
      QuotedElementReadsBack(parts[0], "," + more);
      assert ReadElement(text) == Some((Some(parts[0]), "," + more));
      assert ("," + more)[1..] == more;
      ElementsReadBack(parts[1..]);
      assert NoneNull(parts) == [Some(parts[0])] + NoneNull(parts[1..]);
    }
  }

  lemma LiteralReadsBack(parts: seq<string>)
    requires parts != []
    ensures ReadArray(ArrayLiteral(parts)) == Some(NoneNull(parts))
  {
    var literal := ArrayLiteral(parts);
    var inside := Join(QuotedAll(parts), ",") + "}";
    assert SkipSpace(literal) == literal && literal[1..] == inside;
    assert inside[0] == '"' by {
      assert QuotedAll(parts)[0] == Quoted(parts[0]);
    }
    assert SkipSpace(inside) == inside;
    ElementsReadBack(parts);
  }

  lemma EmptyLiteralReadsBack()
    ensures ReadArray("{}") == Some([])
  {
    assert "{}"[1..] == "}" && "}"[1..] == "";
  }

  /** The literal of a cell reads back as the trimmed pieces of its text; a blank cell has none. */
  lemma ArrayReadsBack(raw: string, delimiter: string)
    requires delimiter != ""
    ensures Trim(raw) == "" ==> ReadArray(TransformArray(raw, delimiter)) == Some([])
    ensures Trim(raw) != "" ==>
      ReadArray(TransformArray(raw, delimiter)) == Some(NoneNull(TrimAll(Split(Trim(raw), delimiter))))
  {
    if Trim(raw) == "" {
      EmptyLiteralReadsBack();
    } else {
      LiteralReadsBack(TrimAll(Split(Trim(raw), delimiter)));
    }
  }

  /** Both levels: whatever quotes, backslashes, commas or line breaks the pieces hold, reading the COPY
      line as CSV and the field as an array literal gives exactly the trimmed pieces of the cell's text,
      which are what stands between the delimiters in it. */
  lemma ArrayCellReadsBack(raw: string, delimiter: string, before: seq<Option<string>>, after: seq<Option<string>>,
                           rest: string)
    requires delimiter != ""
    ensures var fields := before + [Some(TransformArray(raw, delimiter))] + after;
      ReadRecord(CopyLine(fields) + rest) == Some((fields, rest))
    ensures ReadArray(TransformArray(raw, delimiter)) ==
      Some(if Trim(raw) == "" then [] else NoneNull(TrimAll(Split(Trim(raw), delimiter))))
    ensures Join(Split(Trim(raw), delimiter), delimiter) == Trim(raw)
    ensures forall part :: part in Split(Trim(raw), delimiter) ==> !Holds(part, delimiter)
  {
    RecordReadsBack(before + [Some(TransformArray(raw, delimiter))] + after, rest);
    ArrayReadsBack(raw, delimiter);
    JoinUndoesSplit(Trim(raw), delimiter);
    var parts := Split(Trim(raw), delimiter);
    forall part | part in parts ensures !Holds(part, delimiter) {
      var k :| 0 <= k < |parts| && parts[k] == part;
      PartsHoldNoDelimiter(Trim(raw), delimiter, k);
    }
  }
}
