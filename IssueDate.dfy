/** The expiry-date rule `ValidateIssueDate`: the input is `MM/YY` or
    `MM/YYYY` with a two-digit month `01`-`12`, and the month it names lies
    strictly after the current month.  The current month is a parameter
    (`now`) instead of a reading of the UTC clock. */
module IssueDate {
  import opened Digits

  datatype Option<T> = None | Some(value: T)

  /** A calendar month: `month` counts from 1 (January) to 12 (December). */
  datatype YearMonth = YearMonth(year: int, month: int)

  /** The months a .NET date can hold: years 1 to 9999. */
  predicate ValidDate(ym: YearMonth) {
    1 <= ym.month <= 12 && 1 <= ym.year <= 9999
  }

  /** Months elapsed since January of year 0; orders months in time. */
  function MonthIndex(ym: YearMonth): (i: int) {
    ym.year * 12 + (ym.month - 1)
  }

  predicate StrictlyAfter(a: YearMonth, b: YearMonth) {
    MonthIndex(a) > MonthIndex(b)
  }

  /** The month `k` months after `ym` (before it when `k` is negative). */
  function AddMonths(ym: YearMonth, k: int): (r: YearMonth)
    requires 1 <= ym.month <= 12
    ensures 1 <= r.month <= 12
    ensures MonthIndex(r) == MonthIndex(ym) + k
    ensures k > 0 ==> StrictlyAfter(r, ym)
  {
    var i := MonthIndex(ym) + k;
    YearMonth(i / 12, i % 12 + 1)
  }

  /** The two date patterns the rule accepts: `MM/yy` and `MM/yyyy`. */
  datatype YearStyle = TwoDigitYear | FourDigitYear

  /** The year a two-digit `yy` field stands for. */
  function CenturyYear(yy: nat): (y: int)
    requires yy < 100
    ensures 2000 <= y <= 2099 && y % 100 == yy
  {
    2000 + yy
  }

  /** The months each pattern can write so that it reads back unchanged. */
  predicate Expressible(ym: YearMonth, style: YearStyle) {
    ValidDate(ym) && (style == TwoDigitYear ==> 2000 <= ym.year <= 2099)
  }

  /** `ym` written in the given pattern, with leading zeros. */
  function Format(ym: YearMonth, style: YearStyle): (s: string)
    requires ValidDate(ym)
    ensures |s| == (if style == TwoDigitYear then 5 else 7)
    ensures s[2] == '/' && AllDigits(s[..2]) && AllDigits(s[3..])
  {
    var year := match style
      case TwoDigitYear => Render(ym.year % 100, 2)
      case FourDigitYear => Render(ym.year, 4);
    var s := Render(ym.month, 2) + "/" + year;
    assert s[..2] == Render(ym.month, 2) && s[3..] == year;
    s
  }

  /** Reads `MM/YY` or `MM/YYYY`; `None` for any other shape, for a month
      outside `01`-`12` and for the year `0000`. */
  function ParseExpiry(s: string): (r: Option<YearMonth>)
    ensures r.Some? ==> ValidDate(r.value)
    ensures r.Some? && |s| == 5 ==> 2000 <= r.value.year <= 2099
    ensures r.Some? ==> (|s| == 5 || |s| == 7) && s[2] == '/'
  {
    if |s| != 5 && |s| != 7 then None
    else if !(AllDigits(s[..2]) && s[2] == '/' && AllDigits(s[3..])) then None
    else
      var month := Value(s[..2]);
      var digits := Value(s[3..]);
      var year := if |s| == 5 then CenturyYear(digits) else digits;
      if 1 <= month <= 12 && 1 <= year then Some(YearMonth(year, month)) else None
  }

  predicate ValidateIssueDate(date: string, now: YearMonth) {
    match ParseExpiry(date)
    case None => false
    case Some(expiry) => StrictlyAfter(expiry, now)
  }

  /** Reference reading of the rule: the date is some month after `now`
      written in one of the two patterns. */
  ghost predicate IsFutureExpiry(s: string, now: YearMonth) {
    exists ym: YearMonth, style: YearStyle ::
      Expressible(ym, style) && s == Format(ym, style) && StrictlyAfter(ym, now)
  }

  /** The month field of a formatted date reads back as the month. */
  lemma MonthFieldReadsBack(ym: YearMonth, style: YearStyle)
    requires ValidDate(ym)
    ensures AllDigits(Format(ym, style)[..2]) && Value(Format(ym, style)[..2]) == ym.month
  {
    assert Pow10(2) == 100;
    ValueOfRender(ym.month, 2);
    assert Format(ym, style)[..2] == Render(ym.month, 2);
  }

  /** The year field of a formatted date reads back as the year (its last two
      digits for `MM/yy`). */
  lemma YearFieldReadsBack(ym: YearMonth, style: YearStyle)
    requires ValidDate(ym)
    ensures AllDigits(Format(ym, style)[3..])
    ensures style == TwoDigitYear ==> Value(Format(ym, style)[3..]) == ym.year % 100
    ensures style == FourDigitYear ==> Value(Format(ym, style)[3..]) == ym.year
  {
    var s := Format(ym, style);
    match style
    case TwoDigitYear =>
      assert Pow10(2) == 100;
      ValueOfRender(ym.year % 100, 2);
      assert s[3..] == Render(ym.year % 100, 2);
    case FourDigitYear =>
      assert Pow10(4) == 10000;
      ValueOfRender(ym.year, 4);
      assert s[3..] == Render(ym.year, 4);
  }

  /** Reading back a formatted month gives the month. */
  lemma ParseFormat(ym: YearMonth, style: YearStyle)
    requires Expressible(ym, style)
    ensures ParseExpiry(Format(ym, style)) == Some(ym)
  {
    MonthFieldReadsBack(ym, style);
    YearFieldReadsBack(ym, style);
    var s := Format(ym, style);
    var digits := Value(s[3..]);
    if style == TwoDigitYear {
      assert |s| == 5 && CenturyYear(digits) == ym.year;
    } else {
      assert |s| == 7 && digits == ym.year;
    }
  }

  /** Every string the parser reads is the canonical writing of what it read. */
  lemma FormatParse(s: string)
    requires ParseExpiry(s).Some?
    ensures s == Format(ParseExpiry(s).value, if |s| == 5 then TwoDigitYear else FourDigitYear)
  {
    var ym := ParseExpiry(s).value;
    RenderOfValue(s[..2]);
    RenderOfValue(s[3..]);
    var f := Format(ym, if |s| == 5 then TwoDigitYear else FourDigitYear);
    assert f[..2] == s[..2];
    assert f[3..] == s[3..];
    assert s == s[..2] + [s[2]] + s[3..];
    assert f == f[..2] + [f[2]] + f[3..];
  }

  /** A formatted month is accepted exactly when it lies after `now`. */
  lemma ValidateFormatted(ym: YearMonth, style: YearStyle, now: YearMonth)
    requires Expressible(ym, style)
    ensures ValidateIssueDate(Format(ym, style), now) <==> StrictlyAfter(ym, now)
  {
    ParseFormat(ym, style);
  }

  /** `ValidateIssueDate` accepts exactly the months after `now` written as
      `MM/yy` or `MM/yyyy`; everything else, malformed or not, is refused. */
  lemma ValidateIssueDateIff(s: string, now: YearMonth)
    ensures ValidateIssueDate(s, now) <==> IsFutureExpiry(s, now)
  {
    if ValidateIssueDate(s, now) {
      var style := if |s| == 5 then TwoDigitYear else FourDigitYear;
      FormatParse(s);
      assert Expressible(ParseExpiry(s).value, style);
    }
    if IsFutureExpiry(s, now) {
      var ym: YearMonth, style: YearStyle :| Expressible(ym, style) && s == Format(ym, style) && StrictlyAfter(ym, now);
      ValidateFormatted(ym, style, now);
    }
  }

  /** Six months after `now` is accepted in both patterns
      (ValidateIssueDate_ShouldReturnTrue_ForValidFutureDate). */
  lemma SixMonthsAheadAccepted(now: YearMonth)
    requires ValidDate(now) && AddMonths(now, 6).year <= 9999
    ensures ValidateIssueDate(Format(AddMonths(now, 6), FourDigitYear), now)
    ensures 2000 <= AddMonths(now, 6).year <= 2099 ==>
      ValidateIssueDate(Format(AddMonths(now, 6), TwoDigitYear), now)
  {
    var later := AddMonths(now, 6);
    ValidateFormatted(later, FourDigitYear, now);
    if 2000 <= later.year <= 2099 {
      ValidateFormatted(later, TwoDigitYear, now);
    }
  }

  /** The month before `now` is refused (ValidateIssueDate_ShouldReturnFalse_ForPastDate). */
  lemma LastMonthRejected(now: YearMonth)
    requires ValidDate(now) && now.year <= 2099
    requires 2000 <= AddMonths(now, -1).year
    ensures !ValidateIssueDate(Format(AddMonths(now, -1), TwoDigitYear), now)
  {
    ValidateFormatted(AddMonths(now, -1), TwoDigitYear, now);
  }

  /** The current month itself is refused
      (ValidateIssueDate_ShouldReturnFalse_ForCurrentMonthAndYear). */
  lemma CurrentMonthRejected(now: YearMonth)
    requires ValidDate(now) && 2000 <= now.year <= 2099
    ensures !ValidateIssueDate(Format(now, TwoDigitYear), now)
    ensures !ValidateIssueDate(Format(now, FourDigitYear), now)
  {
    ValidateFormatted(now, TwoDigitYear, now);
    ValidateFormatted(now, FourDigitYear, now);
  }

  /** The malformed inputs of ValidateIssueDate_ShouldReturnFalse_ForInvalidFormat
      are refused whatever the current month. */
  lemma MalformedDateExamples(now: YearMonth)
    ensures !ValidateIssueDate("13/25", now)
    ensures !ValidateIssueDate("00/25", now)
    ensures !ValidateIssueDate("1/25", now)
    ensures !ValidateIssueDate("12/2", now)
    ensures !ValidateIssueDate("12-2025", now)
    ensures !ValidateIssueDate("12/20255", now)
    ensures !ValidateIssueDate("abc", now)
    ensures !ValidateIssueDate("", now)
  {
    ValueOfTwo("13");
    ValueOfTwo("00");
  }
}
