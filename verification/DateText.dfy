/** Date cells: four layouts in, one ISO layout out. */
module DateText {
  import opened OrderedMaps
  import opened JsText
  import opened CalendarDates

  datatype Layout = DayMonthDash | DayMonthSlash | MonthDaySlash | IsoDash

  function LayoutOf(format: string): Option<Layout> {
    if format == "DD-MM-YYYY" then Some(DayMonthDash)
    else if format == "DD/MM/YYYY" then Some(DayMonthSlash)
    else if format == "MM/DD/YYYY" then Some(MonthDaySlash)
    else if format == "YYYY-MM-DD" then Some(IsoDash)
    else None
  }

  /** Exactly this many digits, as a number. */
  function Number(s: string): (r: Option<nat>)
    ensures r.Some? <==> s != "" && forall i :: 0 <= i < |s| ==> IsDigit(s[i])
    decreases |s|
  {
    if s == "" || !IsDigit(s[|s| - 1]) then None
    else if |s| == 1 then Some(DigitOf(s[0]))
    else
      match Number(s[..|s| - 1])
      case None => None
      case Some(n) => Some(10 * n + DigitOf(s[|s| - 1]))
  }

  datatype Groups = Groups(year: string, month: string, day: string)

  /** The named groups of the layout's pattern, before they are checked to be digits. */
  function Cut(layout: Layout, text: string): Option<Groups> {
    if |text| != 10 then None
    else
      match layout
      case IsoDash =>
        if text[4] == '-' && text[7] == '-' then Some(Groups(text[..4], text[5..7], text[8..])) else None
      case DayMonthDash =>
        if text[2] == '-' && text[5] == '-' then Some(Groups(text[6..], text[3..5], text[..2])) else None
      case DayMonthSlash =>
        if text[2] == '/' && text[5] == '/' then Some(Groups(text[6..], text[3..5], text[..2])) else None
      case MonthDaySlash =>
        if text[2] == '/' && text[5] == '/' then Some(Groups(text[6..], text[..2], text[3..5])) else None
  }

  datatype Date = Date(year: nat, month: nat, day: nat)

  function Match(layout: Layout, text: string): Option<Date> {
    match Cut(layout, text)
    case None => None
    case Some(g) =>
      if Number(g.year).Some? && Number(g.month).Some? && Number(g.day).Some? then
        Some(Date(Number(g.year).value, Number(g.month).value, Number(g.day).value))
      else None
  }

  function Digit(n: nat): char
    requires n < 10
  {
    '0' + n as char
  }

  /** String(n). */
  function Decimal(n: nat): (r: string)
    ensures r != ""
  {
    if n < 10 then [Digit(n)] else Decimal(n / 10) + [Digit(n % 10)]
  }

  function PadStart(s: string, width: nat): string
    decreases width - |s|
  {
    if |s| >= width then s else PadStart("0" + s, width)
  }

  /** Year, month and day of a date, four and two digits wide. */
  function Year(date: Date): string { PadStart(Decimal(date.year), 4) }

  function Month(date: Date): string { PadStart(Decimal(date.month), 2) }

  function Day(date: Date): string { PadStart(Decimal(date.day), 2) }

  function IsoText(date: Date): string {
    Year(date) + "-" + Month(date) + "-" + Day(date)
  }

  datatype Failure = UnsupportedFormat | NotOfFormat | NotADate

  datatype Result = Success(value: string) | Error(failure: Failure)

  function Checked(date: Option<Date>): Result {
    if date == None then Error(NotOfFormat)
    else if SurvivesUtc(date.value.year, date.value.month, date.value.day) then Success(IsoText(date.value))
    else Error(NotADate)
  }

  function TransformLayout(raw: string, layout: Layout): Result {
    Checked(Match(layout, Trim(raw)))
  }

  function TransformDate(raw: string, format: Option<string>): Result {
    match if format == None then Some(IsoDash) else LayoutOf(format.value)
    case None => Error(UnsupportedFormat)
    case Some(layout) => TransformLayout(raw, layout)
  }

  // What it accepts and gives back.

  /** A date the way a layout writes it. */
  function Show(layout: Layout, date: Date): string {
    var y, m, d := Year(date), Month(date), Day(date);
    match layout
    case IsoDash => y + "-" + m + "-" + d
    case DayMonthDash => d + "-" + m + "-" + y
    case DayMonthSlash => d + "/" + m + "/" + y
    case MonthDaySlash => m + "/" + d + "/" + y
  }

  predicate Storable(date: Date) {
    100 <= date.year <= 9999 && IsCalendarDate(date.year, date.month, date.day)
  }

  predicate AllDigits(s: string) {
    forall i :: 0 <= i < |s| ==> IsDigit(s[i])
  }

  function PowerOfTen(n: nat): nat {
    if n == 0 then 1 else 10 * PowerOfTen(n - 1)
  }

  lemma {:induction false} PadAppended(s: string, c: char, width: nat)
    ensures PadStart(s + [c], width + 1) == PadStart(s, width) + [c]
    decreases width - |s|
  {
    if |s| < width {
      assert "0" + (s + [c]) == ("0" + s) + [c];
      PadAppended("0" + s, c, width);
    }
  }

  /** Digits come back from their number, leading zeros and all. */
  lemma {:induction false} DigitsComeBack(s: string)
    requires s != "" && AllDigits(s)
    ensures Number(s).Some? && Number(s).value < PowerOfTen(|s|) && PadStart(Decimal(Number(s).value), |s|) == s
  {
    var c := s[|s| - 1];
    var t := s[..|s| - 1];
    assert s == t + [c] && Digit(DigitOf(c)) == c;
    if t == "" {
    } else {
      DigitsComeBack(t);
      var n := Number(t).value;
      assert Number(s).value == 10 * n + DigitOf(c);
      assert (10 * n + DigitOf(c)) / 10 == n && (10 * n + DigitOf(c)) % 10 == DigitOf(c);
      if n == 0 {
        assert Decimal(DigitOf(c)) == "" + [c];
        PadAppended("", c, |t|);
        assert "0" + "" == Decimal(0);
      } else {
        PadAppended(Decimal(n), c, |t|);
      }
    }
  }

  lemma NumberAppended(s: string, c: char)
    requires Number(s).Some? && IsDigit(c)
    ensures Number(s + [c]) == Some(10 * Number(s).value + DigitOf(c))
  {
    assert (s + [c])[..|s|] == s;
  }

  /** Padding a number digit by digit. */
  lemma PadDecimal(n: nat, width: nat)
    requires width >= 1
    ensures PadStart(Decimal(n), width + 1) == PadStart(Decimal(n / 10), width) + [Digit(n % 10)]
  {
    if n < 10 {
      PadAppended("", Digit(n), width);
      assert "0" + "" == Decimal(0) && "" + [Digit(n)] == Decimal(n);
    } else {
      PadAppended(Decimal(n / 10), Digit(n % 10), width);
    }
  }

  lemma {:induction false} NumbersComeBack(n: nat, width: nat)
    requires width >= 1 && n < PowerOfTen(width)
    ensures |PadStart(Decimal(n), width)| == width && AllDigits(PadStart(Decimal(n), width))
    ensures Number(PadStart(Decimal(n), width)) == Some(n)
  {
    if width > 1 {
      NumbersComeBack(n / 10, width - 1);
      PadDecimal(n, width - 1);
      NumberAppended(PadStart(Decimal(n / 10), width - 1), Digit(n % 10));
    }
  }

  predicate Written(date: Date) {
    date.year < 10000 && date.month < 100 && date.day < 100
  }

  lemma ShowParts(date: Date)
    requires Written(date)
    ensures var y, m, d := Year(date), Month(date), Day(date);
      && |y| == 4 && |m| == 2 && |d| == 2
      && Number(y) == Some(date.year) && Number(m) == Some(date.month) && Number(d) == Some(date.day)
  {
    assert PowerOfTen(2) == 100 && PowerOfTen(4) == 10000;
    NumbersComeBack(date.year, 4);
    NumbersComeBack(date.month, 2);
    NumbersComeBack(date.day, 2);
  }

  /** A pattern matches exactly the texts its layout writes. */
  lemma MatchReadsShow(layout: Layout, date: Date)
    requires Written(date)
    ensures Match(layout, Show(layout, date)) == Some(date)
  {
    ShowParts(date);
    var y, m, d := Year(date), Month(date), Day(date);
    var text := Show(layout, date);
    match layout
    case IsoDash => assert text[..4] == y && text[5..7] == m && text[8..] == d;
    case DayMonthDash => assert text[..2] == d && text[3..5] == m && text[6..] == y;
    case DayMonthSlash => assert text[..2] == d && text[3..5] == m && text[6..] == y;
    case MonthDaySlash => assert text[..2] == m && text[3..5] == d && text[6..] == y;
  }

  lemma CutApart(layout: Layout, text: string)
    requires Cut(layout, text).Some?
    ensures var g := Cut(layout, text).value;
      && |g.year| == 4 && |g.month| == 2 && |g.day| == 2
      && text == match layout
         case IsoDash => g.year + "-" + g.month + "-" + g.day
         case DayMonthDash => g.day + "-" + g.month + "-" + g.year
         case DayMonthSlash => g.day + "/" + g.month + "/" + g.year
         case MonthDaySlash => g.month + "/" + g.day + "/" + g.year
  {
  }

  lemma ShowWritesMatch(layout: Layout, text: string)
    requires Match(layout, text).Some?
    ensures Written(Match(layout, text).value) && text == Show(layout, Match(layout, text).value)
  {
    var g := Cut(layout, text).value;
    CutApart(layout, text);
    assert PowerOfTen(2) == 100 && PowerOfTen(4) == 10000;
    DigitsComeBack(g.year);
    DigitsComeBack(g.month);
    DigitsComeBack(g.day);
  }

  lemma CheckedIs(date: Date)
    requires Written(date)
    ensures Checked(Some(date)) == if Storable(date) then Success(Show(IsoDash, date)) else Error(NotADate)
  {
    UtcCheckIsExact(date.year, date.month, date.day);
  }

  /** A cell is accepted exactly if, trimmed, it writes a calendar date with year 100..9999 in the
      configured layout, and the result is that date in the ISO layout. */
  lemma DatesAcceptedExactly(raw: string, layout: Layout, value: string)
    ensures TransformLayout(raw, layout) == Success(value)
      <==> exists date :: Storable(date) && Trim(raw) == Show(layout, date) && value == Show(IsoDash, date)
  {
    var found := Match(layout, Trim(raw));
    if found.Some? {
      ShowWritesMatch(layout, Trim(raw));
      CheckedIs(found.value);
    }
    forall date | Storable(date) && Trim(raw) == Show(layout, date) ensures found == Some(date) {
      MatchReadsShow(layout, date);
    }
  }

  lemma DigitsAreTrimmed(first: string, middle: string, last: string, separator: string)
    requires first != "" && last != "" && IsDigit(first[0]) && IsDigit(last[|last| - 1])
    ensures IsTrimmed(first + separator + middle + separator + last)
  {
  }

  lemma ShownIsTrimmed(layout: Layout, date: Date)
    requires Written(date)
    ensures IsTrimmed(Show(layout, date))
  {
    ShowParts(date);
    var y, m, d := Year(date), Month(date), Day(date);
    match layout
    case IsoDash => DigitsAreTrimmed(y, m, d, "-");
    case DayMonthDash => DigitsAreTrimmed(d, m, y, "-");
    case DayMonthSlash => DigitsAreTrimmed(d, m, y, "/");
    case MonthDaySlash => DigitsAreTrimmed(m, d, y, "/");
  }

  lemma ShownIsAccepted(date: Date, layout: Layout)
    requires Storable(date)
    ensures TransformLayout(Show(layout, date), layout) == Success(Show(IsoDash, date))
  {
    ShownIsTrimmed(layout, date);
    TrimmedStays(Show(layout, date));
    MatchReadsShow(layout, date);
    CheckedIs(date);
  }

  // The configured format, by its name.

  /** They are digits, and read back. */
  lemma PartsReadBack(date: Date)
    requires Storable(date)
    ensures |Year(date)| == 4 && |Month(date)| == 2 && |Day(date)| == 2
    ensures Number(Year(date)) == Some(date.year)
    ensures Number(Month(date)) == Some(date.month) && Number(Day(date)) == Some(date.day)
  {
    ShowParts(date);
  }

  lemma LayoutNames()
    ensures LayoutOf("DD-MM-YYYY") == Some(DayMonthDash) && LayoutOf("DD/MM/YYYY") == Some(DayMonthSlash)
    ensures LayoutOf("MM/DD/YYYY") == Some(MonthDaySlash) && LayoutOf("YYYY-MM-DD") == Some(IsoDash)
  {
    assert "DD-MM-YYYY"[2] == '-' && "DD/MM/YYYY"[2] == '/' && "MM/DD/YYYY"[2] == '/' && "YYYY-MM-DD"[2] == 'Y';
    assert "DD/MM/YYYY"[0] == 'D' && "MM/DD/YYYY"[0] == 'M';
  }

  lemma FormatNamed(raw: string, format: string, layout: Layout)
    requires LayoutOf(format) == Some(layout)
    ensures TransformDate(raw, Some(format)) == TransformLayout(raw, layout)
  {
  }

  lemma ShownTexts()
    ensures forall date :: Show(DayMonthDash, date) == Day(date) + "-" + Month(date) + "-" + Year(date)
    ensures forall date :: Show(DayMonthSlash, date) == Day(date) + "/" + Month(date) + "/" + Year(date)
    ensures forall date :: Show(MonthDaySlash, date) == Month(date) + "/" + Day(date) + "/" + Year(date)
    ensures forall date :: Show(IsoDash, date) == Year(date) + "-" + Month(date) + "-" + Day(date)
  {
  }

  /** DD-MM-YYYY accepts exactly the storable dates written day, month, year with dashes. */
  lemma DayMonthDashAccepts(raw: string, value: string)
    ensures TransformDate(raw, Some("DD-MM-YYYY")) == Success(value) <==>
      exists date :: Storable(date) && Trim(raw) == Day(date) + "-" + Month(date) + "-" + Year(date)
                && value == IsoText(date)
  {
    LayoutNames();
    FormatNamed(raw, "DD-MM-YYYY", DayMonthDash);
    ShownTexts();
    DatesAcceptedExactly(raw, DayMonthDash, value);
  }

  /** DD/MM/YYYY: day, month, year with slashes. */
  lemma DayMonthSlashAccepts(raw: string, value: string)
    ensures TransformDate(raw, Some("DD/MM/YYYY")) == Success(value) <==>
      exists date :: Storable(date) && Trim(raw) == Day(date) + "/" + Month(date) + "/" + Year(date)
                && value == IsoText(date)
  {
    LayoutNames();
    FormatNamed(raw, "DD/MM/YYYY", DayMonthSlash);
    ShownTexts();
    DatesAcceptedExactly(raw, DayMonthSlash, value);
  }

  /** MM/DD/YYYY: month, day, year with slashes. */
  lemma MonthDaySlashAccepts(raw: string, value: string)
    ensures TransformDate(raw, Some("MM/DD/YYYY")) == Success(value) <==>
      exists date :: Storable(date) && Trim(raw) == Month(date) + "/" + Day(date) + "/" + Year(date)
                && value == IsoText(date)
  {
    LayoutNames();
    FormatNamed(raw, "MM/DD/YYYY", MonthDaySlash);
    ShownTexts();
    DatesAcceptedExactly(raw, MonthDaySlash, value);
  }

  /** YYYY-MM-DD: year, month, day with dashes. */
  lemma IsoDashAccepts(raw: string, value: string)
    ensures TransformDate(raw, Some("YYYY-MM-DD")) == Success(value) <==>
      exists date :: Storable(date) && Trim(raw) == Year(date) + "-" + Month(date) + "-" + Day(date)
                && value == IsoText(date)
  {
    LayoutNames();
    FormatNamed(raw, "YYYY-MM-DD", IsoDash);
    ShownTexts();
    DatesAcceptedExactly(raw, IsoDash, value);
  }

  /** And so without a configured format. */
  lemma DefaultAccepts(raw: string, value: string)
    ensures TransformDate(raw, None) == Success(value) <==>
      exists date :: Storable(date) && Trim(raw) == Year(date) + "-" + Month(date) + "-" + Day(date)
                && value == IsoText(date)
  {
    ShownTexts();
    DatesAcceptedExactly(raw, IsoDash, value);
  }

  /** No other format name is supported, whatever the cell. */
  lemma OtherFormatsAreRefused(raw: string, format: string)
    ensures TransformDate(raw, Some(format)) == Error(UnsupportedFormat) <==>
      format !in {"DD-MM-YYYY", "DD/MM/YYYY", "MM/DD/YYYY", "YYYY-MM-DD"}
  {
  }

  /** The same storable date gives the same text under all four formats, and under none. */
  lemma FormatsAgree(date: Date)
    requires Storable(date)
    ensures TransformDate(Day(date) + "-" + Month(date) + "-" + Year(date), Some("DD-MM-YYYY"))
         == Success(IsoText(date))
    ensures TransformDate(Day(date) + "/" + Month(date) + "/" + Year(date), Some("DD/MM/YYYY"))
         == Success(IsoText(date))
    ensures TransformDate(Month(date) + "/" + Day(date) + "/" + Year(date), Some("MM/DD/YYYY"))
         == Success(IsoText(date))
    ensures TransformDate(IsoText(date), Some("YYYY-MM-DD")) == Success(IsoText(date))
    ensures TransformDate(IsoText(date), None) == Success(IsoText(date))
  {
    LayoutNames();
    FormatNamed(Day(date) + "-" + Month(date) + "-" + Year(date), "DD-MM-YYYY", DayMonthDash);
    FormatNamed(Day(date) + "/" + Month(date) + "/" + Year(date), "DD/MM/YYYY", DayMonthSlash);
    FormatNamed(Month(date) + "/" + Day(date) + "/" + Year(date), "MM/DD/YYYY", MonthDaySlash);
    FormatNamed(IsoText(date), "YYYY-MM-DD", IsoDash);
    ShownTexts();
    ShownIsAccepted(date, DayMonthDash);
    ShownIsAccepted(date, DayMonthSlash);
    ShownIsAccepted(date, MonthDaySlash);
    ShownIsAccepted(date, IsoDash);
  }

  /** A cell that has the layout's digits and separators but writes no storable date is refused as no date,
      any other refused cell as not of the format. */
  lemma RefusalsAreTold(raw: string, layout: Layout)
    ensures TransformLayout(raw, layout) == Error(NotADate) <==>
      exists date :: Written(date) && !Storable(date) && Trim(raw) == Show(layout, date)
    ensures TransformLayout(raw, layout) == Error(NotOfFormat) <==>
      forall date :: Written(date) ==> Trim(raw) != Show(layout, date)
  {
    var found := Match(layout, Trim(raw));
    if found.Some? {
      ShowWritesMatch(layout, Trim(raw));
      CheckedIs(found.value);
    }
    forall date | Written(date) && Trim(raw) == Show(layout, date) ensures found == Some(date) {
      MatchReadsShow(layout, date);
    }
  }

  lemma LayoutResultsAreFixedPoints(raw: string, layout: Layout)
    ensures TransformLayout(raw, layout).Success? ==>
      TransformLayout(TransformLayout(raw, layout).value, IsoDash) == TransformLayout(raw, layout)
  {
    if TransformLayout(raw, layout).Success? {
      var value := TransformLayout(raw, layout).value;
      DatesAcceptedExactly(raw, layout, value);
      var date :| Storable(date) && Trim(raw) == Show(layout, date) && value == Show(IsoDash, date);
      ShownIsAccepted(date, IsoDash);
    }
  }

  /** A result is a fixed point: read again in the default layout it gives itself. */
  lemma ResultsAreFixedPoints(raw: string, format: Option<string>)
    ensures TransformDate(raw, format).Success? ==>
      TransformDate(TransformDate(raw, format).value, None) == TransformDate(raw, format)
  {
    if format == None {
      LayoutResultsAreFixedPoints(raw, IsoDash);
    } else if LayoutOf(format.value).Some? {
      LayoutResultsAreFixedPoints(raw, LayoutOf(format.value).value);
    }
  }
}
