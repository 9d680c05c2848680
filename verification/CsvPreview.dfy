/** The browser's preview of a CSV file: its quote-state line splitter undoes the COPY writer. */
module CsvPreview {
  import opened OrderedMaps
  import opened JsText
  import opened CsvText

  /** The fields of a line from a point where `current` is collected already. */
  function Fields(line: string, delimiter: string, current: string, inQuotes: bool): (r: seq<string>)
    ensures |r| >= 1
    decreases |line|
  {
    if line == "" then [current]
    else
      var c := line[0];
      if inQuotes then
        if c != '"' then Fields(line[1..], delimiter, current + [c], true)
        else if |line| > 1 && line[1] == '"' then Fields(line[2..], delimiter, current + "\"", true)
        else Fields(line[1..], delimiter, current, false)
      else if c == '"' then Fields(line[1..], delimiter, current, true)
      else if [c] == delimiter then [current] + Fields(line[1..], delimiter, "", false)
      else Fields(line[1..], delimiter, current + [c], false)
  }

  lemma FieldsStep(done: seq<string>, line: string, i: nat, delimiter: string, current: string, inQuotes: bool)
    requires i < |line|
    ensures var c := line[i];
      done + Fields(line[i..], delimiter, current, inQuotes) ==
        if inQuotes then
          if c != '"' then done + Fields(line[i + 1..], delimiter, current + [c], true)
          else if i + 1 < |line| && line[i + 1] == '"' then
            done + Fields(line[i + 2..], delimiter, current + "\"", true)
          else done + Fields(line[i + 1..], delimiter, current, false)
        else if c == '"' then done + Fields(line[i + 1..], delimiter, current, true)
        else if [c] == delimiter then done + [current] + Fields(line[i + 1..], delimiter, "", false)
        else done + Fields(line[i + 1..], delimiter, current + [c], false)
  {
    var rest := line[i..];
    assert rest[0] == line[i] && rest[1..] == line[i + 1..];
    if i + 1 < |line| {
      assert rest[1] == line[i + 1] && rest[2..] == line[i + 2..];
    }
    assert done + ([current] + Fields(line[i + 1..], delimiter, "", false))
        == done + [current] + Fields(line[i + 1..], delimiter, "", false);
  }

  method SplitCsvLine(line: string, delimiter: string) returns (trimmed: seq<string>)
    ensures trimmed == TrimAll(Fields(line, delimiter, "", false))
  {
    var fields, current, inQuotes, index := [], "", false, 0;
    while index < |line|
      invariant index <= |line|
      invariant fields + Fields(line[index..], delimiter, current, inQuotes) == Fields(line, delimiter, "", false)
    {
      var c := line[index];
      FieldsStep(fields, line, index, delimiter, current, inQuotes);
      if inQuotes {
        if c == '"' {
          if index + 1 < |line| && line[index + 1] == '"' {
            current := current + "\"";
            index := index + 1;
          } else {
            inQuotes := false;
          }
        } else {
          current := current + [c];
        }
      } else if c == '"' {
        inQuotes := true;
      } else if [c] == delimiter {
        fields := fields + [current];
        current := "";
      } else {
        current := current + [c];
      }
      index := index + 1;
    }
    fields := fields + [current];
    trimmed := TrimAll(fields);
  }

  /** The text of a field; NULL reads as ''. */
  function TextOf(field: Option<string>): string {
    match field
    case None => ""
    case Some(value) => value
  }

  function TextsOf(fields: seq<Option<string>>): (r: seq<string>)
    ensures |r| == |fields| && forall i :: 0 <= i < |fields| ==> r[i] == TextOf(fields[i])
  {
    seq(|fields|, i requires 0 <= i < |fields| => TextOf(fields[i]))
  }

  /** A delimiter that a file can be written with. */
  predicate IsDelimiter(delimiter: string) {
    |delimiter| == 1 && delimiter[0] !in {'"', '\n', '\r'}
  }

  /** A way to write a value: in quotes with its quotes doubled, or as it is if it holds no quote and no
      delimiter. */
  predicate Renders(text: string, value: string, delimiter: string)
    requires IsDelimiter(delimiter)
  {
    || text == "\"" + ReplaceAll(value, '"', "\"\"") + "\""
    || (text == value && forall i :: 0 <= i < |value| ==> value[i] !in {'"', delimiter[0]})
  }

  lemma {:induction false} QuotedFields(value: string, rest: string, delimiter: string, current: string)
    requires rest == "" || rest[0] != '"'
    ensures Fields(ReplaceAll(value, '"', "\"\"") + "\"" + rest, delimiter, current, true)
         == Fields(rest, delimiter, current + value, false)
    decreases value
  {
    var text := ReplaceAll(value, '"', "\"\"") + "\"" + rest;
    if value == "" {
      assert text[1..] == rest && current + value == current;
    } else {
      var shorter := ReplaceAll(value[1..], '"', "\"\"") + "\"" + rest;
      QuotedFields(value[1..], rest, delimiter, current + [value[0]]);
      assert current + [value[0]] + value[1..] == current + value;
      if value[0] == '"' {
        assert text == "\"\"" + shorter;
        assert text[2..] == shorter;
      } else {
        assert text == [value[0]] + shorter;
        assert text[1..] == shorter;
      }
    }
  }

  lemma {:induction false} BareFields(value: string, rest: string, delimiter: string, current: string)
    requires IsDelimiter(delimiter) && forall i :: 0 <= i < |value| ==> value[i] !in {'"', delimiter[0]}
    ensures Fields(value + rest, delimiter, current, false) == Fields(rest, delimiter, current + value, false)
    decreases value
  {
    if value == "" {
      assert value + rest == rest && current + value == current;
    } else {
      assert value[0] !in {'"', delimiter[0]};
      forall i | 0 <= i < |value[1..]| ensures value[1..][i] !in {'"', delimiter[0]} {
        assert value[1..][i] == value[i + 1];
      }
      BareFields(value[1..], rest, delimiter, current + [value[0]]);
      assert (value + rest)[1..] == value[1..] + rest;
      assert current + [value[0]] + value[1..] == current + value;
    }
  }

  lemma RenderedField(text: string, value: string, rest: string, delimiter: string)
    requires IsDelimiter(delimiter) && Renders(text, value, delimiter) && (rest == "" || rest[0] != '"')
    ensures Fields(text + rest, delimiter, "", false) == Fields(rest, delimiter, value, false)
  {
    assert "" + value == value;
    if text == "\"" + ReplaceAll(value, '"', "\"\"") + "\"" {
      QuotedFields(value, rest, delimiter, "");
      assert (text + rest)[1..] == ReplaceAll(value, '"', "\"\"") + "\"" + rest;
    } else {
      BareFields(value, rest, delimiter, "");
    }
  }

  lemma NextField(more: string, delimiter: string, value: string)
    requires IsDelimiter(delimiter)
    ensures Fields(delimiter + more, delimiter, value, false) == [value] + Fields(more, delimiter, "", false)
  {
    assert (delimiter + more)[1..] == more;
  }

  /** However the values of a line are written, and whatever its delimiter, splitting it gives them back. */
  lemma {:induction false} RenderedLine(texts: seq<string>, values: seq<string>, delimiter: string)
    requires IsDelimiter(delimiter) && |texts| == |values| >= 1
    requires forall i :: 0 <= i < |texts| ==> Renders(texts[i], values[i], delimiter)
    ensures Fields(Join(texts, delimiter), delimiter, "", false) == values
  {
    var line := Join(texts, delimiter);
    if |texts| == 1 {
      assert line == texts[0] + "";
      RenderedField(texts[0], values[0], "", delimiter);
    } else {
      var more := Join(texts[1..], delimiter);
      assert line == texts[0] + (delimiter + more);
      RenderedField(texts[0], values[0], delimiter + more, delimiter);
      NextField(more, delimiter, values[0]);
      RenderedLine(texts[1..], values[1..], delimiter);
      assert values == [values[0]] + values[1..];
    }
  }

  lemma EscapedRenders(field: Option<string>)
    ensures Renders(EscapeCsvField(field), TextOf(field), ",")
  {
    var value := TextOf(field);
    if field == Some("") {
      assert "\"" + ReplaceAll("", '"', "\"\"") + "\"" == "\"\"";
    }
  }

  lemma {:induction false} EscapedAt(fields: seq<Option<string>>, i: nat)
    requires i < |fields|
    ensures Escaped(fields)[i] == EscapeCsvField(fields[i])
  {
    if i > 0 {
      EscapedAt(fields[1..], i - 1);
    }
  }

  lemma LineFields(fields: seq<Option<string>>)
    requires |fields| >= 1
    ensures Fields(Join(Escaped(fields), ","), ",", "", false) == TextsOf(fields)
  {
    forall i | 0 <= i < |fields| ensures Renders(Escaped(fields)[i], TextsOf(fields)[i], ",") {
      EscapedAt(fields, i);
      EscapedRenders(fields[i]);
    }
    RenderedLine(Escaped(fields), TextsOf(fields), ",");
  }

  /** Splitting a line of the COPY writer gives every field trimmed, NULL as ''. */
  lemma SplitUndoesWriter(fields: seq<Option<string>>)
    requires |fields| >= 1
    ensures TrimAll(Fields(Join(Escaped(fields), ","), ",", "", false)) == TrimAll(TextsOf(fields))
  {
    LineFields(fields);
  }

  // Lines.

  predicate IsBreak(c: char) {
    c in {'\n', '\r'}
  }

  predicate OneLine(s: string) {
    forall i :: 0 <= i < |s| ==> !IsBreak(s[i])
  }

  /** The text up to the first line break, and what follows the break if there is one. */
  function FirstLine(text: string): (r: (string, Option<string>))
    ensures r.1.Some? ==> |r.1.value| < |text|
  {
    if text == "" then ("", None)
    else if text[0] == '\r' && |text| > 1 && text[1] == '\n' then ("", Some(text[2..]))
    else if IsBreak(text[0]) then ("", Some(text[1..]))
    else
      var (line, rest) := FirstLine(text[1..]);
      ([text[0]] + line, rest)
  }

  /** Split at CRLF, LF or CR; empty lines are dropped. */
  function Lines(text: string): seq<string>
    decreases |text|
  {
    var (line, rest) := FirstLine(text);
    (if line == "" then [] else [line]) + (if rest.Some? then Lines(rest.value) else [])
  }

  /** The text of the first n bytes; a character that is cut reads as U+FFFD. */
  function CutAt(text: string, n: nat): string {
    if text == "" || n == 0 then ""
    else if Bytes(text[0]) > n then "\U{FFFD}"
    else [text[0]] + CutAt(text[1..], n - Bytes(text[0]))
  }

  const PREVIEW_BYTES := 65_536

  function PreviewLines(text: string): seq<string> {
    Lines(CutAt(text, PREVIEW_BYTES))
  }

  method PreviewCsv(text: string, delimiter: string) returns (headers: seq<string>, sampleRow: seq<string>)
    ensures headers ==
      if |PreviewLines(text)| > 0 then TrimAll(Fields(PreviewLines(text)[0], delimiter, "", false)) else []
    ensures sampleRow ==
      if |PreviewLines(text)| > 1 then TrimAll(Fields(PreviewLines(text)[1], delimiter, "", false)) else []
  {
    var lines := Lines(CutAt(text, PREVIEW_BYTES));
    headers, sampleRow := [], [];
    if |lines| > 0 {
      headers := SplitCsvLine(lines[0], delimiter);
    }
    if |lines| > 1 {
      sampleRow := SplitCsvLine(lines[1], delimiter);
    }
  }

  lemma CutNext(c: char, text: string, n: nat)
    requires Bytes(c) <= n
    ensures CutAt([c] + text, n) == [c] + CutAt(text, n - Bytes(c))
  {
    assert ([c] + text)[1..] == text;
  }

  /** What fits is kept. */
  lemma {:induction false} CutKeeps(kept: string, rest: string, n: nat)
    requires ByteLength(kept) <= n
    ensures CutAt(kept + rest, n) == kept + CutAt(rest, n - ByteLength(kept))
  {
    if kept == "" {
      assert kept + rest == rest && "" + CutAt(rest, n) == CutAt(rest, n);
    } else {
      var c, more := kept[0], kept[1..];
      CutKeeps(more, rest, n - Bytes(c));
      CutNext(c, more + rest, n);
      assert kept + rest == [c] + (more + rest);
      assert kept == [c] + more;
    }
  }

  /** A line break: LF, CRLF, or a CR that no LF follows. */
  predicate Breaks(ending: string, rest: string) {
    ending in {"\n", "\r\n"} || (ending == "\r" && (rest == "" || rest[0] != '\n'))
  }

  lemma {:induction false} FirstLineIs(line: string, ending: string, rest: string)
    requires OneLine(line) && Breaks(ending, rest)
    ensures FirstLine(line + ending + rest) == (line, Some(rest))
  {
    var text := line + ending + rest;
    if line == "" {
      assert text == ending + rest;
      assert text[|ending|..] == rest;
    } else {
      FirstLineIs(line[1..], ending, rest);
      assert text[1..] == line[1..] + ending + rest;
      assert line == [line[0]] + line[1..];
    }
  }

  lemma {:induction false} LastLineIs(line: string)
    requires OneLine(line)
    ensures FirstLine(line) == (line, None)
  {
    if line != "" {
      LastLineIs(line[1..]);
      assert line == [line[0]] + line[1..];
    }
  }

  /** A text is its first line, unless that is empty, and the lines after any break. */
  lemma LinesAre(line: string, ending: string, rest: string)
    requires OneLine(line)
    ensures Lines(line) == if line == "" then [] else [line]
    ensures Breaks(ending, rest) ==> Lines(line + ending + rest) == (if line == "" then [] else [line]) + Lines(rest)
  {
    LastLineIs(line);
    if Breaks(ending, rest) {
      FirstLineIs(line, ending, rest);
    }
  }

  lemma {:induction false} ReplacedOneLine(s: string)
    requires OneLine(s)
    ensures OneLine(ReplaceAll(s, '"', "\"\""))
  {
    if s != "" {
      ReplacedOneLine(s[1..]);
    }
  }

  lemma {:induction false} WrittenOneLine(fields: seq<Option<string>>)
    requires forall i :: 0 <= i < |fields| ==> OneLine(TextOf(fields[i]))
    ensures OneLine(Join(Escaped(fields), ","))
  {
    if fields != [] {
      ReplacedOneLine(TextOf(fields[0]));
      WrittenOneLine(fields[1..]);
      assert Escaped(fields)[1..] == Escaped(fields[1..]);
    }
  }

  /** A record whose line is not empty and has no line break inside. */
  predicate Previewable(fields: seq<Option<string>>) {
    |fields| >= 1 && fields != [None] && forall i :: 0 <= i < |fields| ==> OneLine(TextOf(fields[i]))
  }

  lemma WrittenLine(fields: seq<Option<string>>, rest: string)
    requires Previewable(fields)
    ensures Lines(CopyLine(fields) + rest) == [Join(Escaped(fields), ",")] + Lines(rest)
  {
    var line := Join(Escaped(fields), ",");
    WrittenOneLine(fields);
    FirstLineIs(line, "\n", rest);
    if |fields| == 1 {
      assert Escaped(fields) == [EscapeCsvField(fields[0])];
    } else {
      assert |line| >= |","|;
    }
  }

  lemma WrittenLines(first: seq<Option<string>>, second: seq<Option<string>>, rest: string)
    requires Previewable(first) && Previewable(second)
    ensures Lines(CopyLine(first) + (CopyLine(second) + rest)) ==
      [Join(Escaped(first), ",")] + ([Join(Escaped(second), ",")] + Lines(rest))
  {
    WrittenLine(first, CopyLine(second) + rest);
    WrittenLine(second, rest);
  }

  /** The preview of a written file whose first two lines fit into the bytes read shows its first two
      records, trimmed. */
  lemma PreviewReadsWrittenFile(rows: seq<seq<Option<string>>>)
    requires |rows| >= 2 && Previewable(rows[0]) && Previewable(rows[1])
    requires ByteLength(CopyLine(rows[0]) + CopyLine(rows[1])) <= PREVIEW_BYTES
    ensures |PreviewLines(CopyBody(rows))| >= 2
    ensures TrimAll(Fields(PreviewLines(CopyBody(rows))[0], ",", "", false)) == TrimAll(TextsOf(rows[0]))
    ensures TrimAll(Fields(PreviewLines(CopyBody(rows))[1], ",", "", false)) == TrimAll(TextsOf(rows[1]))
  {
    var two, rest := CopyLine(rows[0]) + CopyLine(rows[1]), CopyBody(rows[1..][1..]);
    assert CopyBody(rows[1..]) == CopyLine(rows[1]) + rest;
    assert CopyBody(rows) == two + rest;
    CutKeeps(two, rest, PREVIEW_BYTES);
    var cut := CutAt(rest, PREVIEW_BYTES - ByteLength(two));
    assert two + cut == CopyLine(rows[0]) + (CopyLine(rows[1]) + cut);
    WrittenLines(rows[0], rows[1], cut);
    SplitUndoesWriter(rows[0]);
    SplitUndoesWriter(rows[1]);
  }
}
