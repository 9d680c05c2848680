/** Conversion of one CSV cell to the text COPY is given for a column. */
module ValueTransformers {
  import opened OrderedMaps
  import opened JsText
  import DateText
  import ArrayText

  /** The types the information schema names. */
  datatype DataType =
    | Smallint | Integer | Bigint | Numeric | Decimal | Real | DoublePrecision | Boolean
    | Text | CharacterVarying | Character | Citext | Date | TimestampWithoutTimeZone | TimestampWithTimeZone
    | Uuid | Json | Jsonb | Array | Other(name: string)

  datatype Column = Column(
    name: string, dataType: DataType, isNullable: bool, hasDefault: bool,
    isGenerated: bool, isIdentity: bool, maxLength: Option<nat>)

  datatype TransformOptions = TransformOptions(dateFormat: Option<string>, arrayDelimiter: Option<string>)

  /** Conversions that rest on the JavaScript library: Number, Date parsing and JSON. */
  datatype Library = Library(
    integer: string -> Option<string>,
    isTimestamp: string -> bool,
    json: string -> Option<string>)

  datatype Failure = NullNotAllowed | NotInteger | NotNumeric | NotBoolean | TooLong | NotDate(date: DateText.Failure)
    | NotTimestamp | NotUuid | NotJson | NoArrayDelimiter

  datatype TransformResult = Success(value: Option<string>) | Error(failure: Failure)

  function IsNullToken(raw: string): bool {
    ToLower(Trim(raw)) in {"", "null", "n/a", "na"}
  }

  function OrError(value: Option<string>, failure: Failure): (r: TransformResult)
    ensures r != Success(None)
  {
    if value.Some? then Success(value) else Error(failure)
  }

  predicate AllDigits(s: string) {
    s != "" && forall i :: 0 <= i < |s| ==> IsDigit(s[i])
  }

  predicate PointAt(digits: string, i: nat) {
    i < |digits| && digits[i] == '.' && AllDigits(digits[..i]) && AllDigits(digits[i + 1..])
  }

  /** Digits, and optionally a point and digits. */
  predicate IsUnsigned(digits: string) {
    AllDigits(digits) || exists i :: 0 <= i < |digits| && PointAt(digits, i)
  }

  /** With an optional minus sign. */
  predicate IsNumeric(s: string) {
    IsUnsigned(if s != "" && s[0] == '-' then s[1..] else s)
  }

  function TransformNumeric(raw: string): (r: TransformResult)
    ensures r != Success(None)
  {
    var cleaned := ReplaceAll(Trim(raw), ',', "");
    if IsNumeric(cleaned) then Success(Some(cleaned)) else Error(NotNumeric)
  }

  function TransformBoolean(raw: string): (r: TransformResult)
    ensures r != Success(None)
  {
    var normalized := ToLower(Trim(raw));
    if normalized in {"true", "1", "yes", "y"} then Success(Some("true"))
    else if normalized in {"false", "0", "no", "n"} then Success(Some("false"))
    else Error(NotBoolean)
  }

  function TransformText(raw: string, maxLength: Option<nat>): (r: TransformResult)
    ensures r != Success(None)
  {
    if maxLength.Some? && |raw| > maxLength.value then Error(TooLong) else Success(Some(raw))
  }

  predicate IsHex(c: char) {
    IsDigit(c) || 'a' <= Lower(c) <= 'f'
  }

  predicate IsUuid(s: string) {
    |s| == 36 && forall i :: 0 <= i < 36 ==> if i in {8, 13, 18, 23} then s[i] == '-' else IsHex(s[i])
  }

  function TransformUuid(raw: string): (r: TransformResult)
    ensures r != Success(None)
  {
    var trimmed := Trim(raw);
    if IsUuid(trimmed) then Success(Some(ToLower(trimmed))) else Error(NotUuid)
  }

  function TransformInteger(lib: Library, raw: string): (r: TransformResult)
    ensures r != Success(None)
  {
    var trimmed := Trim(raw);
    if trimmed == "" then Error(NotInteger) else OrError(lib.integer(trimmed), NotInteger)
  }

  function TransformTimestamp(lib: Library, raw: string): (r: TransformResult)
    ensures r != Success(None)
  {
    var trimmed := Trim(raw);
    if lib.isTimestamp(trimmed) then Success(Some(trimmed)) else Error(NotTimestamp)
  }

  function TransformDate(raw: string, format: Option<string>): (r: TransformResult)
    ensures r != Success(None)
  {
    match DateText.TransformDate(raw, format)
    case Success(value) => Success(Some(value))
    case Error(failure) => Error(NotDate(failure))
  }

  function TransformArray(raw: string, delimiter: Option<string>): (r: TransformResult)
    ensures r != Success(None)
  {
    if delimiter == None || delimiter.value == "" then Error(NoArrayDelimiter)
    else Success(Some(ArrayText.TransformArray(raw, delimiter.value)))
  }

  /** How the cells of a type are converted. */
  datatype Conversion =
    AsInteger | AsNumeric | AsBoolean | AsText | AsDate | AsTimestamp | AsUuid | AsJson | AsArray | AsIs

  function ConversionOf(dataType: DataType): Conversion {
    match dataType
    case Smallint | Integer | Bigint => AsInteger
    case Numeric | Decimal | Real | DoublePrecision => AsNumeric
    case Boolean => AsBoolean
    case Text | CharacterVarying | Character | Citext => AsText
    case Date => AsDate
    case TimestampWithoutTimeZone | TimestampWithTimeZone => AsTimestamp
    case Uuid => AsUuid
    case Json | Jsonb => AsJson
    case Array => AsArray
    case Other(_) => AsIs
  }

  /** A cell that is no null token. */
  function TransformPresent(lib: Library, raw: string, column: Column, options: TransformOptions): (r: TransformResult)
    ensures r != Success(None)
  {
    match ConversionOf(column.dataType)
    case AsInteger => TransformInteger(lib, raw)
    case AsNumeric => TransformNumeric(raw)
    case AsBoolean => TransformBoolean(raw)
    case AsText => TransformText(raw, column.maxLength)
    case AsDate => TransformDate(raw, options.dateFormat)
    case AsTimestamp => TransformTimestamp(lib, raw)
    case AsUuid => TransformUuid(raw)
    case AsJson => OrError(lib.json(raw), NotJson)
    case AsArray => TransformArray(raw, options.arrayDelimiter)
    case AsIs => Success(Some(raw))
  }

  function TransformValue(lib: Library, raw: string, column: Column, options: TransformOptions): (r: TransformResult)
    ensures r == Success(None) <==> IsNullToken(raw) && (column.isNullable || column.hasDefault)
    ensures IsNullToken(raw) && !column.isNullable && !column.hasDefault ==> r == Error(NullNotAllowed)
  {
    if IsNullToken(raw) then
      if !column.isNullable && !column.hasDefault then Error(NullNotAllowed) else Success(None)
    else TransformPresent(lib, raw, column, options)
  }

  /** The conversion as the row validator is given it. */
  function Transformer(lib: Library, options: TransformOptions): (string, Column) -> TransformResult {
    (raw, column) => TransformValue(lib, raw, column, options)
  }
}
