/** The CSV text that COPY reads: its writer, and a reader after section 2 of RFC 4180. */
module CsvText {
  import opened OrderedMaps
  import opened JsText

  predicate NeedsQuotes(value: string) {
    exists i :: 0 <= i < |value| && value[i] in {'"', ',', '\n', '\r'}
  }

  function EscapeCsvField(field: Option<string>): string {
    match field
    case None => ""
    case Some(value) =>
      if value == "" then "\"\""
      else if NeedsQuotes(value) then "\"" + ReplaceAll(value, '"', "\"\"") + "\""
      else value
  }

  function Escaped(fields: seq<Option<string>>): (r: seq<string>)
    ensures |r| == |fields|
  {
    if fields == [] then [] else [EscapeCsvField(fields[0])] + Escaped(fields[1..])
  }

  function CopyLine(fields: seq<Option<string>>): string {
    Join(Escaped(fields), ",") + "\n"
  }

  function CopyBody(rows: seq<seq<Option<string>>>): string {
    if rows == [] then "" else CopyLine(rows[0]) + CopyBody(rows[1..])
  }

  // The reader: records end in LF, an empty field without quotes is NULL.

  /** The rest of a quoted field after its opening quote, and the text after its closing quote. */
  function ReadQuoted(text: string): Option<(string, string)> {
    if text == "" then None
    else if text[0] != '"' then
      match ReadQuoted(text[1..])
      case None => None
      case Some((value, rest)) => Some(([text[0]] + value, rest))
    else if |text| > 1 && text[1] == '"' then
      match ReadQuoted(text[2..])
      case None => None
      case Some((value, rest)) => Some(("\"" + value, rest))
    else Some(("", text[1..]))
  }

  function ReadBare(text: string): (string, string) {
    if text == "" || text[0] in {'"', ',', '\n', '\r'} then ("", text)
    else
      var (value, rest) := ReadBare(text[1..]);
      ([text[0]] + value, rest)
  }

  function ReadField(text: string): Option<(Option<string>, string)> {
    if text != "" && text[0] == '"' then
      match ReadQuoted(text[1..])
      case None => None
      case Some((value, rest)) => Some((Some(value), rest))
    else
      var (value, rest) := ReadBare(text);
      Some((if value == "" then None else Some(value), rest))
  }

  lemma QuotedConsumes(text: string)
    ensures ReadQuoted(text).Some? ==> |ReadQuoted(text).value.1| < |text|
  {
  }

  lemma BareConsumes(text: string)
    ensures |ReadBare(text).1| <= |text|
  {
  }

  function ReadRecord(text: string): (r: Option<(seq<Option<string>>, string)>)
    ensures r.Some? ==> |r.value.1| < |text|
    decreases |text|
  {
    match ReadField(text)
    case None => None
    case Some((field, rest)) =>
      QuotedConsumes(if text == "" then "" else text[1..]);
      BareConsumes(text);
      if rest == "" then None
      else if rest[0] == '\n' then Some(([field], rest[1..]))
      else if rest[0] != ',' then None
      else
        match ReadRecord(rest[1..])
        case None => None
        case Some((fields, after)) => Some(([field] + fields, after))
  }

  function ReadBody(text: string): Option<seq<seq<Option<string>>>>
    decreases |text|
  {
    if text == "" then Some([])
    else
      match ReadRecord(text)
      case None => None
      case Some((record, rest)) =>
        match ReadBody(rest)
        case None => None
        case Some(records) => Some([record] + records)
  }

  lemma {:induction false} QuotedReadsBack(value: string, rest: string)
    requires rest == "" || rest[0] != '"'
    ensures ReadQuoted(ReplaceAll(value, '"', "\"\"") + "\"" + rest) == Some((value, rest))
  {
    var text := ReplaceAll(value, '"', "\"\"") + "\"" + rest;
    if value == "" {
      assert text == "\"" + rest;
      assert text[1..] == rest;
    } else {
      var shorter := ReplaceAll(value[1..], '"', "\"\"") + "\"" + rest;
      QuotedReadsBack(value[1..], rest);
      if value[0] == '"' {
        assert text == "\"\"" + shorter;
        assert text[2..] == shorter;
      } else {
        assert text == [value[0]] + shorter;
        assert text[1..] == shorter;
      }
      assert value == [value[0]] + value[1..];
    }
  }

  lemma {:induction false} BareReadsBack(value: string, rest: string)
    requires !NeedsQuotes(value) && rest != "" && rest[0] in {',', '\n'}
    ensures ReadBare(value + rest) == (value, rest)
  {
    if value == "" {
      assert value + rest == rest;
    } else {
      assert value[0] !in {'"', ',', '\n', '\r'};
      forall i | 0 <= i < |value[1..]| ensures value[1..][i] !in {'"', ',', '\n', '\r'} {
        assert value[1..][i] == value[i + 1];
      }
      BareReadsBack(value[1..], rest);
      assert (value + rest)[1..] == value[1..] + rest;
      assert value == [value[0]] + value[1..];
    }
  }

  lemma BareFieldReadsBack(value: string, rest: string)
    requires !NeedsQuotes(value) && rest != "" && rest[0] in {',', '\n'}
    ensures ReadField(value + rest) == Some((if value == "" then None else Some(value), rest))
  {
    BareReadsBack(value, rest);
    if value == "" {
      assert value + rest == rest;
    } else {
      assert (value + rest)[0] == value[0] && value[0] !in {'"', ',', '\n', '\r'};
    }
  }

  lemma QuotedFieldReadsBack(value: string, rest: string)
    requires rest == "" || rest[0] != '"'
    ensures ReadField("\"" + ReplaceAll(value, '"', "\"\"") + "\"" + rest) == Some((Some(value), rest))
  {
    var text := "\"" + ReplaceAll(value, '"', "\"\"") + "\"" + rest;
    QuotedReadsBack(value, rest);
    assert text[1..] == ReplaceAll(value, '"', "\"\"") + "\"" + rest;
  }

  lemma FieldReadsBack(field: Option<string>, rest: string)
    requires rest != "" && rest[0] in {',', '\n'}
    ensures ReadField(EscapeCsvField(field) + rest) == Some((field, rest))
  {
    if field == None {
      BareFieldReadsBack("", rest);
    } else if field.value == "" {
      QuotedFieldReadsBack("", rest);
      assert "\"" + ReplaceAll("", '"', "\"\"") + "\"" == "\"\"";
    } else if NeedsQuotes(field.value) {
      QuotedFieldReadsBack(field.value, rest);
    } else {
      BareFieldReadsBack(field.value, rest);
    }
  }

  lemma {:induction false} RecordReadsBack(fields: seq<Option<string>>, rest: string)
    requires |fields| >= 1
    ensures ReadRecord(CopyLine(fields) + rest) == Some((fields, rest))
  {
    var text := CopyLine(fields) + rest;
    if |fields| == 1 {
      assert Escaped(fields) == [EscapeCsvField(fields[0])];
      assert text == EscapeCsvField(fields[0]) + ("\n" + rest);
      FieldReadsBack(fields[0], "\n" + rest);
      assert ("\n" + rest)[1..] == rest;
      assert [fields[0]] == fields;
    } else {
      var more := CopyLine(fields[1..]) + rest;
      assert Escaped(fields)[1..] == Escaped(fields[1..]);
      assert text == EscapeCsvField(fields[0]) + ("," + more);
      FieldReadsBack(fields[0], "," + more);
      assert ("," + more)[1..] == more;
      RecordReadsBack(fields[1..], rest);
      assert fields == [fields[0]] + fields[1..];
    }
  }

  /** Whatever the rows hold, reading the COPY body gives exactly the rows, NULL and '' told apart. */
  lemma {:induction false} CopyBodyReadsBack(rows: seq<seq<Option<string>>>)
    requires forall r :: r in rows ==> |r| >= 1
    ensures ReadBody(CopyBody(rows)) == Some(rows)
  {
    if rows != [] {
      RecordReadsBack(rows[0], CopyBody(rows[1..]));
      CopyBodyReadsBack(rows[1..]);
      assert rows == [rows[0]] + rows[1..];
    }
  }
}
