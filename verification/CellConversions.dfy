/** What becomes of a cell, by the type of its column: exactly which cells convert, and to what. */
module CellConversions {
  import opened OrderedMaps
  import opened JsText
  import opened ValueTransformers
  import ArrayText
  import DateText

  /** The same text but for the case of Latin letters. */
  predicate SameLetters(s: string, lower: string) {
    |s| == |lower| && forall i :: 0 <= i < |s| ==> Lower(s[i]) == lower[i]
  }

  lemma SameLettersIs(s: string, lower: string)
    ensures SameLetters(s, lower) <==> ToLower(s) == lower
  {
    if SameLetters(s, lower) {
      assert ToLower(s) == lower;
    }
  }

  /** A cell is a null token if it is blank, or but for case and outer white space null, n/a or na. */
  lemma NullTokensAre(raw: string)
    ensures IsNullToken(raw) <==>
      AllSpace(raw) || SameLetters(Trim(raw), "null") || SameLetters(Trim(raw), "n/a") || SameLetters(Trim(raw), "na")
  {
    var trimmed := Trim(raw);
    SameLettersIs(trimmed, "null");
    SameLettersIs(trimmed, "n/a");
    SameLettersIs(trimmed, "na");
    BlankExactly(raw);
    assert ToLower(trimmed) == "" <==> trimmed == "";
  }

  lemma BlankExactly(raw: string)
    ensures Trim(raw) == "" <==> AllSpace(raw)
  {
    var before, after := TrimCuts(raw);
    if Trim(raw) != "" {
      assert raw[|before|] == Trim(raw)[0];
    }
  }

  /** A cell that is no null token becomes this value of a column. */
  predicate Becomes(lib: Library, raw: string, column: Column, options: TransformOptions, value: string) {
    !IsNullToken(raw) && TransformValue(lib, raw, column, options) == Success(Some(value))
  }

  /** A cell that is no null token is converted by the type of its column. */
  lemma PresentIs(lib: Library, raw: string, column: Column, options: TransformOptions)
    requires !IsNullToken(raw)
    ensures TransformValue(lib, raw, column, options) == TransformPresent(lib, raw, column, options)
  {
  }

  predicate IsInteger(dataType: DataType) {
    dataType in {Smallint, Integer, Bigint}
  }

  predicate IsFraction(dataType: DataType) {
    dataType in {Numeric, Decimal, Real, DoublePrecision}
  }

  predicate IsText(dataType: DataType) {
    dataType in {Text, CharacterVarying, Character, Citext}
  }

  // By type.

  lemma DateIs(lib: Library, raw: string, column: Column, options: TransformOptions)
    requires column.dataType == Date
    ensures TransformPresent(lib, raw, column, options) == TransformDate(raw, options.dateFormat)
  {
    assert ConversionOf(column.dataType) == AsDate;
  }

  lemma ArrayIs(lib: Library, raw: string, column: Column, options: TransformOptions)
    requires column.dataType == Array
    ensures TransformPresent(lib, raw, column, options) == TransformArray(raw, options.arrayDelimiter)
  {
    assert ConversionOf(column.dataType) == AsArray;
  }

  lemma FractionIs(lib: Library, raw: string, column: Column, options: TransformOptions)
    requires IsFraction(column.dataType)
    ensures TransformPresent(lib, raw, column, options) == TransformNumeric(raw)
  {
    assert ConversionOf(column.dataType) == AsNumeric;
  }

  lemma BooleanIs(lib: Library, raw: string, column: Column, options: TransformOptions)
    requires column.dataType == Boolean
    ensures TransformPresent(lib, raw, column, options) == TransformBoolean(raw)
  {
    assert ConversionOf(column.dataType) == AsBoolean;
  }

  lemma TextIs(lib: Library, raw: string, column: Column, options: TransformOptions)
    requires IsText(column.dataType)
    ensures TransformPresent(lib, raw, column, options) == TransformText(raw, column.maxLength)
  {
    assert ConversionOf(column.dataType) == AsText;
  }

  lemma UuidIs(lib: Library, raw: string, column: Column, options: TransformOptions)
    requires column.dataType == Uuid
    ensures TransformPresent(lib, raw, column, options) == TransformUuid(raw)
  {
    assert ConversionOf(column.dataType) == AsUuid;
  }

  lemma IntegerIs(lib: Library, raw: string, column: Column, options: TransformOptions)
    requires IsInteger(column.dataType)
    ensures TransformPresent(lib, raw, column, options) == TransformInteger(lib, raw)
  {
    assert ConversionOf(column.dataType) == AsInteger;
  }

  lemma TimestampIs(lib: Library, raw: string, column: Column, options: TransformOptions)
    requires column.dataType in {TimestampWithoutTimeZone, TimestampWithTimeZone}
    ensures TransformPresent(lib, raw, column, options) == TransformTimestamp(lib, raw)
  {
    assert ConversionOf(column.dataType) == AsTimestamp;
  }

  lemma JsonOrOtherIs(lib: Library, raw: string, column: Column, options: TransformOptions)
    ensures column.dataType in {Json, Jsonb} ==>
      TransformPresent(lib, raw, column, options) == OrError(lib.json(raw), NotJson)
    ensures column.dataType.Other? ==> TransformPresent(lib, raw, column, options) == Success(Some(raw))
  {
  }

  // Dates.

  /** A date column takes exactly the cells the configured format takes, as the format gives them. */
  lemma DateCells(lib: Library, raw: string, column: Column, options: TransformOptions, value: string)
    requires column.dataType == Date && !IsNullToken(raw)
    ensures Becomes(lib, raw, column, options, value) <==>
      DateText.TransformDate(raw, options.dateFormat) == DateText.Success(value)
  {
    PresentIs(lib, raw, column, options);
    DateIs(lib, raw, column, options);
  }

  /** With the format DD/MM/YYYY: day, month and year between slashes become the ISO date of that day. */
  lemma SlashedDayFirst(lib: Library, raw: string, column: Column, arrayDelimiter: Option<string>,
                        date: DateText.Date)
    requires column.dataType == Date && !IsNullToken(raw) && DateText.Storable(date)
    requires Trim(raw) == DateText.Day(date) + "/" + DateText.Month(date) + "/" + DateText.Year(date)
    ensures Becomes(lib, raw, column, TransformOptions(Some("DD/MM/YYYY"), arrayDelimiter), DateText.IsoText(date))
  {
    DateText.DayMonthSlashAccepts(raw, DateText.IsoText(date));
    DateCells(lib, raw, column, TransformOptions(Some("DD/MM/YYYY"), arrayDelimiter), DateText.IsoText(date));
  }

  // Arrays.

  /** An array column takes every cell if a delimiter is configured, and none otherwise. */
  lemma ArrayCells(lib: Library, raw: string, column: Column, options: TransformOptions)
    requires column.dataType == Array && !IsNullToken(raw)
    ensures var delimiter := options.arrayDelimiter;
      if delimiter.Some? && delimiter.value != "" then
        exists value ::
          && Becomes(lib, raw, column, options, value)
          && ArrayText.ReadArray(value)
               == Some(ArrayText.NoneNull(TrimAll(ArrayText.Split(Trim(raw), delimiter.value))))
      else TransformValue(lib, raw, column, options) == Error(NoArrayDelimiter)
  {
    PresentIs(lib, raw, column, options);
    ArrayIs(lib, raw, column, options);
    var delimiter := options.arrayDelimiter;
    if delimiter.Some? && delimiter.value != "" {
      TrimmedIsNotBlank(raw);
      ArrayText.ArrayReadsBack(raw, delimiter.value);
      assert Becomes(lib, raw, column, options, ArrayText.TransformArray(raw, delimiter.value));
    }
  }

  // Numbers.

  /** Digits, as a whole number or a fraction, with an optional minus sign. */
  predicate Plain(sign: string, whole: string, fraction: string) {
    sign in {"", "-"} && AllDigits(whole) && (fraction == "" || (fraction[0] == '.' && AllDigits(fraction[1..])))
  }

  lemma UnsignedIsPlain(digits: string, sign: string) returns (whole: string, fraction: string)
    requires IsUnsigned(digits) && sign in {"", "-"}
    ensures Plain(sign, whole, fraction) && digits == whole + fraction
  {
    if AllDigits(digits) {
      whole, fraction := digits, "";
    } else {
      var i :| 0 <= i < |digits| && PointAt(digits, i);
      whole, fraction := digits[..i], digits[i..];
      assert fraction[1..] == digits[i + 1..];
    }
  }

  lemma NumericIsPlain(s: string) returns (sign: string, whole: string, fraction: string)
    requires IsNumeric(s)
    ensures Plain(sign, whole, fraction) && s == sign + whole + fraction
  {
    sign := if s != "" && s[0] == '-' then "-" else "";
    var digits := s[|sign|..];
    assert IsUnsigned(digits);
    whole, fraction := UnsignedIsPlain(digits, sign);
    Rejoins(s, sign, digits, whole, fraction);
  }

  lemma Rejoins(s: string, sign: string, digits: string, whole: string, fraction: string)
    requires |sign| <= |s| && s[..|sign|] == sign && s[|sign|..] == digits && digits == whole + fraction
    ensures s == sign + whole + fraction
  {
    assert sign + (whole + fraction) == sign + whole + fraction;
  }

  lemma PlainIsNumeric(sign: string, whole: string, fraction: string)
    requires Plain(sign, whole, fraction)
    ensures IsNumeric(sign + whole + fraction)
  {
    var s, digits := sign + whole + fraction, whole + fraction;
    assert whole[0] != '-' && IsDigit(whole[0]);
    assert (if s != "" && s[0] == '-' then s[1..] else s) == digits;
    if fraction == "" {
      assert digits == whole;
    } else {
      var i := |whole|;
      assert digits[i] == '.' && digits[..i] == whole && digits[i + 1..] == fraction[1..];
      assert PointAt(digits, i);
    }
  }

  /** Commas are dropped, wherever they stand. */
  function WithoutCommas(s: string): (r: string)
    ensures forall i :: 0 <= i < |r| ==> r[i] != ','
  {
    if s == "" then "" else (if s[0] == ',' then "" else [s[0]]) + WithoutCommas(s[1..])
  }

  lemma {:induction false} ReplacedAreDropped(s: string)
    ensures ReplaceAll(s, ',', "") == WithoutCommas(s)
  {
    if s != "" {
      ReplacedAreDropped(s[1..]);
    }
  }

  /** A numeric column takes exactly the cells that are a plain number once outer white space and commas are
      dropped, and stores that number. */
  lemma NumericCells(lib: Library, raw: string, column: Column, options: TransformOptions, value: string)
    requires IsFraction(column.dataType) && !IsNullToken(raw)
    ensures Becomes(lib, raw, column, options, value) <==>
      && value == WithoutCommas(Trim(raw))
      && exists sign, whole, fraction :: Plain(sign, whole, fraction) && value == sign + whole + fraction
  {
    PresentIs(lib, raw, column, options);
    FractionIs(lib, raw, column, options);
    ReplacedAreDropped(Trim(raw));
    if IsNumeric(value) {
      var sign, whole, fraction := NumericIsPlain(value);
    }
    forall sign, whole, fraction | Plain(sign, whole, fraction) ensures IsNumeric(sign + whole + fraction) {
      PlainIsNumeric(sign, whole, fraction);
    }
  }

  // The others.

  lemma BooleanCells(lib: Library, raw: string, column: Column, options: TransformOptions, value: string)
    requires column.dataType == Boolean && !IsNullToken(raw)
    ensures Becomes(lib, raw, column, options, value) <==>
      var t := Trim(raw);
      || (value == "true" && (SameLetters(t, "true") || t == "1" || SameLetters(t, "yes") || SameLetters(t, "y")))
      || (value == "false" && (SameLetters(t, "false") || t == "0" || SameLetters(t, "no") || SameLetters(t, "n")))
  {
    PresentIs(lib, raw, column, options);
    BooleanIs(lib, raw, column, options);
    var t := Trim(raw);
    SameLettersIs(t, "true");
    SameLettersIs(t, "yes");
    SameLettersIs(t, "y");
    SameLettersIs(t, "false");
    SameLettersIs(t, "no");
    SameLettersIs(t, "n");
    DigitsStay(t);
    assert "true"[0] == 't' && "false"[0] == 'f';
  }

  /** A digit is no letter. */
  lemma DigitsStay(t: string)
    ensures ToLower(t) == "1" <==> t == "1"
    ensures ToLower(t) == "0" <==> t == "0"
  {
    if ToLower(t) == "1" || ToLower(t) == "0" {
      assert |t| == 1 && ToLower(t)[0] == Lower(t[0]);
    }
  }

  /** Text is stored as it is, unless it is too long for its column. */
  lemma TextCells(lib: Library, raw: string, column: Column, options: TransformOptions, value: string)
    requires IsText(column.dataType) && !IsNullToken(raw)
    ensures Becomes(lib, raw, column, options, value) <==>
      value == raw && (column.maxLength.Some? ==> |raw| <= column.maxLength.value)
  {
    PresentIs(lib, raw, column, options);
    TextIs(lib, raw, column, options);
  }

  /** Five groups of hexadecimal digits of either case, 8, 4, 4, 4 and 12 long, between hyphens. */
  predicate Grouped(s: string) {
    && |s| == 36 && s[8] == '-' && s[13] == '-' && s[18] == '-' && s[23] == '-'
    && Hexadecimal(s[..8]) && Hexadecimal(s[9..13]) && Hexadecimal(s[14..18]) && Hexadecimal(s[19..23])
    && Hexadecimal(s[24..])
  }

  predicate Hexadecimal(s: string) {
    forall i :: 0 <= i < |s| ==> s[i] in "0123456789abcdefABCDEF"
  }

  lemma HexIs(c: char)
    ensures IsHex(c) <==> c in "0123456789abcdefABCDEF"
  {
    var all := "0123456789abcdefABCDEF";
    if '0' <= c <= '9' {
      assert all[(c - '0') as int] == c;
    } else if 'a' <= c <= 'f' {
      assert all[10 + (c - 'a') as int] == c;
    } else if 'A' <= c <= 'F' {
      assert all[16 + (c - 'A') as int] == c;
    }
  }

  lemma HexSlice(s: string, from: nat, to: nat)
    requires from <= to <= |s|
    ensures Hexadecimal(s[from..to]) <==> forall i :: from <= i < to ==> IsHex(s[i])
  {
    forall i | from <= i < to
      ensures s[from..to][i - from] == s[i] && (IsHex(s[i]) <==> s[i] in "0123456789abcdefABCDEF")
    {
      HexIs(s[i]);
    }
    if forall i :: from <= i < to ==> IsHex(s[i]) {
      forall i | 0 <= i < to - from ensures s[from..to][i] in "0123456789abcdefABCDEF" {
        assert s[from..to][i] == s[from + i];
      }
    }
  }

  lemma UuidIsGrouped(s: string)
    ensures IsUuid(s) <==> Grouped(s)
  {
    if |s| == 36 {
      assert s[..8] == s[0..8] && s[24..] == s[24..36];
      HexSlice(s, 0, 8);
      HexSlice(s, 9, 13);
      HexSlice(s, 14, 18);
      HexSlice(s, 19, 23);
      HexSlice(s, 24, 36);
    }
  }

  /** A UUID is stored in lower case. */
  lemma UuidCells(lib: Library, raw: string, column: Column, options: TransformOptions, value: string)
    requires column.dataType == Uuid && !IsNullToken(raw)
    ensures Becomes(lib, raw, column, options, value) <==> Grouped(Trim(raw)) && SameLetters(Trim(raw), value)
  {
    PresentIs(lib, raw, column, options);
    UuidIs(lib, raw, column, options);
    UuidIsGrouped(Trim(raw));
    SameLettersIs(Trim(raw), value);
  }

  lemma TrimmedIsNotBlank(raw: string)
    requires !IsNullToken(raw)
    ensures Trim(raw) != ""
  {
    if Trim(raw) == "" {
      BlankExactly(raw);
      NullTokensAre(raw);
    }
  }

  /** Integers and timestamps are what the library makes of the trimmed cell. */
  lemma IntegerCells(lib: Library, raw: string, column: Column, options: TransformOptions, value: string)
    requires IsInteger(column.dataType) && !IsNullToken(raw)
    ensures Becomes(lib, raw, column, options, value) <==> lib.integer(Trim(raw)) == Some(value)
  {
    PresentIs(lib, raw, column, options);
    IntegerIs(lib, raw, column, options);
    TrimmedIsNotBlank(raw);
  }

  lemma TimestampCells(lib: Library, raw: string, column: Column, options: TransformOptions, value: string)
    requires column.dataType in {TimestampWithoutTimeZone, TimestampWithTimeZone} && !IsNullToken(raw)
    ensures Becomes(lib, raw, column, options, value) <==> lib.isTimestamp(Trim(raw)) && value == Trim(raw)
  {
    PresentIs(lib, raw, column, options);
    TimestampIs(lib, raw, column, options);
  }

  /** JSON is what the library makes of the cell as it is, and a cell of any other type is stored as it is. */
  lemma JsonAndOtherCells(lib: Library, raw: string, column: Column, options: TransformOptions, value: string)
    requires !IsNullToken(raw)
    ensures column.dataType in {Json, Jsonb} ==>
      (Becomes(lib, raw, column, options, value) <==> lib.json(raw) == Some(value))
    ensures column.dataType.Other? ==> (Becomes(lib, raw, column, options, value) <==> value == raw)
  {
    PresentIs(lib, raw, column, options);
    JsonOrOtherIs(lib, raw, column, options);
  }

  /** A cell that does not convert fails for the reason of its column's type. */
  lemma FailuresAreTold(lib: Library, raw: string, column: Column, options: TransformOptions)
    requires !IsNullToken(raw) && TransformValue(lib, raw, column, options).Error?
    ensures var failure := TransformValue(lib, raw, column, options).failure;
      && (failure == NotInteger <==> IsInteger(column.dataType))
      && (failure == NotNumeric <==> IsFraction(column.dataType))
      && (failure == NotBoolean <==> column.dataType == Boolean)
      && (failure == TooLong <==> IsText(column.dataType))
      && (failure.NotDate? <==> column.dataType == Date)
      && (failure == NotTimestamp <==> column.dataType in {TimestampWithoutTimeZone, TimestampWithTimeZone})
      && (failure == NotUuid <==> column.dataType == Uuid)
      && (failure == NotJson <==> column.dataType in {Json, Jsonb})
      && (failure == NoArrayDelimiter <==> column.dataType == Array)
  {
    PresentIs(lib, raw, column, options);
    PresentFails(lib, raw, column, options);
  }

  lemma PresentFails(lib: Library, raw: string, column: Column, options: TransformOptions)
    ensures TransformPresent(lib, raw, column, options).Error? ==>
      FailureFits(ConversionOf(column.dataType), TransformPresent(lib, raw, column, options).failure)
  {
  }

  predicate FailureFits(conversion: Conversion, failure: Failure) {
    match failure
    case NullNotAllowed => false
    case NotInteger => conversion == AsInteger
    case NotNumeric => conversion == AsNumeric
    case NotBoolean => conversion == AsBoolean
    case TooLong => conversion == AsText
    case NotDate(_) => conversion == AsDate
    case NotTimestamp => conversion == AsTimestamp
    case NotUuid => conversion == AsUuid
    case NotJson => conversion == AsJson
    case NoArrayDelimiter => conversion == AsArray
  }
}
