// `parse_projection_month`: the `YYYY-MM` text of a month becomes the first
// day of that month. The source appends `-01` and hands the text to chrono's
// `%Y-%m-%d` parser; the scanner below follows that parser for fields
// without a sign: before each numeric field white space is skipped, then the
// field takes at least one and at most its width of digits, greedily;
// literals must match exactly, and no input may be left over.

module Calendar {
  import opened Common
  import opened Text

  /** A numeric field as the scanner takes it: 1 to `width` decimal digits. */
  predicate IsField(t: string, width: nat)
  {
    1 <= |t| <= width && AllDigits(t)
  }

  /** How many leading digits a field of at most `width` digits consumes. */
  function LeadingDigits(s: string, width: nat): (k: nat)
    ensures k <= width && k <= |s| && AllDigits(s[..k])
    ensures k < width && k < |s| ==> !IsDigit(s[k])
  {
    if width == 0 || s == [] || !IsDigit(s[0]) then 0
    else
      var k := 1 + LeadingDigits(s[1..], width - 1);
      assert s[..k] == [s[0]] + s[1..][..k - 1];
      k
  }

  /** A field followed by a non-digit (or by nothing) is consumed whole. */
  lemma {:induction false} LeadingDigitsOfField(t: string, rest: string, width: nat)
    requires AllDigits(t) && |t| <= width
    requires rest == [] || !IsDigit(rest[0])
    ensures LeadingDigits(t + rest, width) == |t|
  {
    if t != [] {
      assert (t + rest)[1..] == t[1..] + rest;
      LeadingDigitsOfField(t[1..], rest, width - 1);
    } else {
      assert t + rest == rest;
    }
  }

  /** How much white space the scanner skips before a number. */
  function SpaceRun(s: string): (w: nat)
    ensures w <= |s| && AllWhitespace(s[..w])
    ensures w < |s| ==> !IsWhitespace(s[w])
  {
    if s != [] && IsWhitespace(s[0]) then
      var w := 1 + SpaceRun(s[1..]);
      assert s[..w] == [s[0]] + s[1..][..w - 1];
      w
    else 0
  }

  /** White space in front of a non-space is skipped whole. */
  lemma {:induction false} SpaceRunOfPad(p: string, rest: string)
    requires AllWhitespace(p)
    requires rest == [] || !IsWhitespace(rest[0])
    ensures SpaceRun(p + rest) == |p|
  {
    if p != [] {
      assert (p + rest)[1..] == p[1..] + rest;
      SpaceRunOfPad(p[1..], rest);
    } else {
      assert p + rest == rest;
    }
  }

  /** A numeric field cut off the front of the text: the white space skipped
      before it, its digits, and what follows. */
  datatype Cut = Cut(pad: string, field: string, rest: string)

  /** A field of at most `width` digits, after optional white space, and the
      `-` after it, cut off the front of `s`; None when the field is empty or
      no `-` follows. */
  function CutField(s: string, width: nat): (r: Option<Cut>)
    ensures r.Some? ==> s == r.value.pad + r.value.field + "-" + r.value.rest
                        && AllWhitespace(r.value.pad) && IsField(r.value.field, width)
  {
    var w := SpaceRun(s);
    var t := s[w..];
    var k := LeadingDigits(t, width);
    if k == 0 || k >= |t| || t[k] != '-' then None
    else
      assert s == s[..w] + t[..k] + "-" + t[k + 1..];
      Some(Cut(s[..w], t[..k], t[k + 1..]))
  }

  /** The last field: optional white space, then 1 to `width` digits that
      reach the end of the text. */
  function LastField(s: string, width: nat): (r: Option<Cut>)
    ensures r.Some? ==> s == r.value.pad + r.value.field && r.value.rest == []
                        && AllWhitespace(r.value.pad) && IsField(r.value.field, width)
  {
    var w := SpaceRun(s);
    var t := s[w..];
    var k := LeadingDigits(t, width);
    if k == 0 || k != |t| then None
    else
      assert t[..k] == t;
      Some(Cut(s[..w], t, []))
  }

  lemma CutFieldExact(p: string, f: string, rest: string, width: nat)
    requires AllWhitespace(p) && IsField(f, width)
    ensures CutField(p + f + "-" + rest, width) == Some(Cut(p, f, rest))
  {
    var s := p + f + "-" + rest;
    assert s == p + (f + "-" + rest);
    SpaceRunOfPad(p, f + "-" + rest);
    var t := s[|p|..];
    assert t == f + ("-" + rest);
    LeadingDigitsOfField(f, "-" + rest, width);
    assert t[..|f|] == f && t[|f|] == '-' && t[|f| + 1..] == rest;
    assert s[..|p|] == p;
  }

  lemma LastFieldExact(p: string, f: string, width: nat)
    requires AllWhitespace(p) && IsField(f, width)
    ensures LastField(p + f, width) == Some(Cut(p, f, []))
  {
    var s := p + f;
    SpaceRunOfPad(p, f);
    assert s[|p|..] == f && s[..|p|] == p;
    LeadingDigitsOfField(f, [], width);
    assert f + [] == f;
  }

  /** The three fields of `%Y-%m-%d` as the scanner cuts them, each with the
      white space skipped before it. */
  datatype Fields = Fields(yearPad: string, year: string, monthPad: string, month: string,
                           dayPad: string, day: string)

  predicate WellFormed(f: Fields)
  {
    AllWhitespace(f.yearPad) && IsField(f.year, 4)
    && AllWhitespace(f.monthPad) && IsField(f.month, 2)
    && AllWhitespace(f.dayPad) && IsField(f.day, 2)
  }

  /** The text the fields were cut from. */
  function Join(f: Fields): string
  {
    f.yearPad + f.year + "-" + (f.monthPad + f.month + "-" + (f.dayPad + f.day))
  }

  /** The fields of `%Y-%m-%d` as the scanner cuts them, or None when the
      text does not have that shape. */
  function SplitYmd(s: string): (r: Option<Fields>)
    ensures r.Some? ==> WellFormed(r.value) && s == Join(r.value)
  {
    match CutField(s, 4)
    case None => None
    case Some(Cut(yp, yt, s2)) =>
      match CutField(s2, 2)
      case None => None
      case Some(Cut(mp, mt, s3)) =>
        match LastField(s3, 2)
        case None => None
        case Some(Cut(dp, dt, _)) => Some(Fields(yp, yt, mp, mt, dp, dt))
  }

  /** Conversely, well-formed fields joined by `-` are cut back apart. */
  lemma SplitYmdExact(f: Fields)
    requires WellFormed(f)
    ensures SplitYmd(Join(f)) == Some(f)
  {
    var s3 := f.dayPad + f.day;
    var s2 := f.monthPad + f.month + "-" + s3;
    CutFieldExact(f.yearPad, f.year, s2, 4);
    CutFieldExact(f.monthPad, f.month, s3, 2);
    LastFieldExact(f.dayPad, f.day, 2);
  }

  predicate IsLeapYear(y: int)
  {
    y % 4 == 0 && (y % 100 != 0 || y % 400 == 0)
  }

  function DaysInMonth(y: int, m: int): (n: int)
    requires 1 <= m <= 12
    ensures 28 <= n <= 31
  {
    if m == 2 then (if IsLeapYear(y) then 29 else 28)
    else if m == 4 || m == 6 || m == 9 || m == 11 then 30
    else 31
  }

  predicate ValidDate(d: Date)
  {
    1 <= d.month <= 12 && 1 <= d.day <= DaysInMonth(d.year, d.month)
  }

  /** The date the fields name, before chrono checks it against the
      calendar. */
  function DateOf(f: Fields): Date
    requires WellFormed(f)
  {
    Date(DigitsValue(f.year), DigitsValue(f.month), DigitsValue(f.day))
  }

  /** `NaiveDate::parse_from_str(s, "%Y-%m-%d")`: accepted exactly when the
      fields are there and name a day of the calendar; anything else is
      BAD_REQUEST. */
  function ParseYmd(s: string): (r: Result<Date>)
    ensures r.Ok? <==> SplitYmd(s).Some? && ValidDate(DateOf(SplitYmd(s).value))
    ensures r.Ok? ==> r.value == DateOf(SplitYmd(s).value)
    ensures r.Err? ==> r.status == BadRequest
  {
    match SplitYmd(s)
    case None => Err(BadRequest)
    case Some(f) =>
      var y, m, d := DigitsValue(f.year), DigitsValue(f.month), DigitsValue(f.day);
      if !(1 <= m <= 12) then Err(BadRequest)
      else if !(1 <= d <= DaysInMonth(y, m)) then Err(BadRequest)
      else Ok(Date(y, m, d))
  }

  /** The month part of a projection month: one or two digits naming 1..12. */
  predicate IsMonthField(t: string)
  {
    IsField(t, 2) && 1 <= DigitsValue(t) <= 12
  }

  /** `parse_projection_month`: the text with `-01` appended, parsed as a
      full date. A result is always the first day of a month. */
  function ParseProjectionMonth(month: string): (r: Result<Date>)
    ensures r.Ok? ==> r.value.day == 1 && 1 <= r.value.month <= 12
    ensures r.Err? ==> r.status == BadRequest
  {
    var stamped := month + "-01";
    var r := ParseYmd(stamped);
    if r.Ok? then
      StampedSplit(month);
      DigitsValueOne();
      r
    else r
  }

  lemma DigitsValueOne()
    ensures DigitsValue("01") == 1 && DigitsValue("1") == 1
  {
    assert "01"[..1] == "0" && "0"[..0] == "" && "1"[..0] == "";
  }

  /** Only text `Y-M` is accepted, where Y is a year of one to four digits
      and M a month of one or two digits naming 1..12, each optionally
      preceded by white space; it gives day 1 of month M of year Y. */
  lemma ParseProjectionMonthShape(month: string)
    requires ParseProjectionMonth(month).Ok?
    ensures exists p, y, q, m :: month == p + y + "-" + q + m
                                 && AllWhitespace(p) && IsField(y, 4)
                                 && AllWhitespace(q) && IsMonthField(m)
                                 && ParseProjectionMonth(month).value == Date(DigitsValue(y), DigitsValue(m), 1)
  {
    StampedSplit(month);
    DigitsValueOne();
    var f := SplitYmd(month + "-01").value;
    assert month == f.yearPad + f.year + "-" + f.monthPad + f.month;
  }

  /** An accepted month has a year of at most four digits, so it can always
      be listed again as `YYYY-MM`. */
  lemma ParseProjectionMonthYear(month: string)
    requires ParseProjectionMonth(month).Ok?
    ensures 0 <= ParseProjectionMonth(month).value.year <= 9999
  {
    StampedSplit(month);
    var y := SplitYmd(month + "-01").value.year;
    DigitsValueBound(y);
    Pow10Monotone(|y|, 4);
    assert Pow10(4) == 10000;
  }

  /** What the scanner cuts out of `month + "-01"`: the day field is the
      appended `01` with no white space before it, so the other two fields
      make up `month`. */
  lemma StampedSplit(month: string)
    requires SplitYmd(month + "-01").Some?
    ensures var f := SplitYmd(month + "-01").value;
            f.dayPad == [] && f.day == "01"
            && month == f.yearPad + f.year + "-" + f.monthPad + f.month
  {
    var t := month + "-01";
    var f := SplitYmd(t).value;
    JoinEnds(f);
    assert t[|t| - 3..] == "-01";
    DayTail(t, f.dayPad, f.day);
    assert month == t[..|t| - 3];
  }

  /** A text ending in `-01` whose last field is `pad + day` has `01` as that
      field, with no white space before it. */
  lemma DayTail(t: string, pad: string, day: string)
    requires AllWhitespace(pad) && IsField(day, 2)
    requires |t| >= 3 && t[|t| - 3..] == "-01"
    requires var tail := pad + day;
             |t| > |tail| && t[|t| - |tail|..] == tail && t[|t| - |tail| - 1] == '-'
    ensures pad == [] && day == "01"
  {
    var n, tail := |t|, pad + day;
    assert t[n - 1] == '1' && t[n - 2] == '0' && t[n - 3] == '-';
    assert forall i :: n - |tail| <= i < n ==> IsWhitespace(t[i]) || IsDigit(t[i]) by {
      forall i | n - |tail| <= i < n
        ensures IsWhitespace(t[i]) || IsDigit(t[i])
      {
        assert t[i] == tail[i - (n - |tail|)];
      }
    }
    assert |tail| == 2;
    assert pad == [];
    assert day == t[n - 2..];
  }

  /** Where the day field sits in the joined text: after the last `-`, with
      the year and month fields in front. */
  lemma JoinEnds(f: Fields)
    ensures var t, tail := Join(f), f.dayPad + f.day;
            |t| > |tail|
            && t[|t| - |tail|..] == tail && t[|t| - |tail| - 1] == '-'
            && t[..|t| - |tail| - 1] == f.yearPad + f.year + "-" + f.monthPad + f.month
  {
    var tail := f.dayPad + f.day;
    var u := f.monthPad + f.month + "-" + tail;
    var front := f.yearPad + f.year + "-";
    var t := Join(f);
    assert t == front + u;
    assert t[|t| - |u|..] == u && t[..|t| - |u|] == front;
    assert u[|u| - |tail|..] == tail && u[|u| - |tail| - 1] == '-';
    assert u[..|u| - |tail| - 1] == f.monthPad + f.month;
    assert t[..|t| - |tail| - 1] == front + (f.monthPad + f.month);
  }

  /** Every `Y-M` text of the accepted shape parses to the first day of month
      M of year Y; with ParseProjectionMonthShape this makes the accepted
      texts exactly those of that shape. */
  lemma ParseProjectionMonthAccepts(p: string, y: string, q: string, m: string)
    requires AllWhitespace(p) && IsField(y, 4) && AllWhitespace(q) && IsMonthField(m)
    ensures ParseProjectionMonth(p + y + "-" + q + m) == Ok(Date(DigitsValue(y), DigitsValue(m), 1))
  {
    var month := p + y + "-" + q + m;
    var f := Fields(p, y, q, m, [], "01");
    assert month + "-01" == Join(f);
    ParseYmdFirstOfMonth(f);
    ParseProjectionMonthIsStamped(month);
  }

  lemma ParseProjectionMonthAcceptsUnpadded(y: string, m: string)
    requires IsField(y, 4) && IsMonthField(m)
    ensures ParseProjectionMonth(y + "-" + m) == Ok(Date(DigitsValue(y), DigitsValue(m), 1))
  {
    var none: string := [];
    var f := Fields(none, y, none, m, none, "01");
    assert none + y == y && none + m == m && none + "01" == "01";
    assert y + "-" + m + "-01" == y + "-" + (m + "-" + "01");
    assert y + "-" + m + "-01" == Join(f);
    ParseYmdFirstOfMonth(f);
    ParseProjectionMonthIsStamped(y + "-" + m);
  }

  lemma ParseProjectionMonthIsStamped(month: string)
    ensures ParseProjectionMonth(month) == ParseYmd(month + "-01")
  {
  }

  lemma ParseYmdFirstOfMonth(f: Fields)
    requires WellFormed(f) && IsMonthField(f.month) && f.day == "01"
    ensures ParseYmd(Join(f)) == Ok(Date(DigitsValue(f.year), DigitsValue(f.month), 1))
  {
    SplitYmdExact(f);
    DigitsValueOne();
  }

  /** The year number `to_char` prints. The calendar of the database has no
      year 0: the proleptic year 0 that `%Y` accepts is stored as 1 BC, and
      `YYYY` prints the number of a BC year without its era, so `0001`. */
  function ListedYear(y: int): (n: int)
    ensures y >= 1 ==> n == y
    ensures y == 0 ==> n == 1
  {
    if y == 0 then 1 else y
  }

  /** The month a listed month text names. */
  function ListedMonth(d: Date): Date
  {
    Date(ListedYear(d.year), d.month, 1)
  }

  /** `to_char(month, 'YYYY-MM')`, the text the assignment rows are listed
      with, for years of at most four digits: the listed year on four
      digits, `-`, and the month on two. */
  function FormatMonth(d: Date): (s: string)
    requires 0 <= d.year <= 9999 && 1 <= d.month <= 12
    ensures |s| == 7 && s[4] == '-'
    ensures AllDigits(s[..4]) && DigitsValue(s[..4]) == ListedYear(d.year)
    ensures AllDigits(s[5..]) && DigitsValue(s[5..]) == d.month
  {
    var y := ListedYear(d.year);
    assert Pow10(2) == 100 && Pow10(4) == 10000;
    PaddedWidth(y, 4);
    PaddedWidth(d.month, 2);
    DashJoin(PadLeft(y, 4), PadLeft(d.month, 2));
    PadLeft(y, 4) + "-" + PadLeft(d.month, 2)
  }

  /** A number below `10^width` is padded to exactly `width` digits. */
  lemma PaddedWidth(n: nat, width: nat)
    requires width >= 1 && n < Pow10(width)
    ensures |PadLeft(n, width)| == width
  {
    LengthFromBound(NatToString(n), width);
  }

  lemma DashJoin(a: string, b: string)
    requires |a| == 4 && |b| == 2
    ensures var s := a + "-" + b; |s| == 7 && s[4] == '-' && s[..4] == a && s[5..] == b
  {
  }

  /** A canonical decimal below `10^k` has at most `k` digits. */
  lemma {:induction false} LengthFromBound(s: string, k: nat)
    requires k >= 1 && AllDigits(s) && |s| >= 1 && (|s| > 1 ==> s[0] != '0')
    requires DigitsValue(s) < Pow10(k)
    ensures |s| <= k
  {
    if |s| > k {
      LeadingDigitBound(s);
      Pow10Monotone(k, |s| - 1);
    }
  }

  lemma {:induction false} Pow10Monotone(a: nat, b: nat)
    requires a <= b
    ensures Pow10(a) <= Pow10(b)
    decreases b
  {
    if a < b { Pow10Monotone(a, b - 1); }
  }

  /** A canonical decimal of `n >= 2` digits is at least `10^(n-1)`. */
  lemma {:induction false} LeadingDigitBound(s: string)
    requires AllDigits(s) && |s| >= 1 && s[0] != '0'
    ensures DigitsValue(s) >= Pow10(|s| - 1)
    decreases |s|
  {
    if |s| > 1 {
      var front := s[..|s| - 1];
      assert front[0] == s[0];
      LeadingDigitBound(front);
    } else {
      assert s[..0] == [];
    }
  }

  /** The listed month text parses back to the month it was made from, with
      the listed year: the month itself from year 1 on. */
  lemma FormatMonthRoundTrip(d: Date)
    requires 0 <= d.year <= 9999 && 1 <= d.month <= 12
    ensures ParseProjectionMonth(FormatMonth(d)) == Ok(ListedMonth(d))
    ensures 1 <= d.year ==> ParseProjectionMonth(FormatMonth(d)) == Ok(Date(d.year, d.month, 1))
  {
    ListedTextParses(FormatMonth(d), ListedYear(d.year), d.month);
  }

  lemma ListedTextParses(s: string, y: int, m: int)
    requires |s| == 7 && s[4] == '-' && 1 <= m <= 12
    requires AllDigits(s[..4]) && DigitsValue(s[..4]) == y
    requires AllDigits(s[5..]) && DigitsValue(s[5..]) == m
    ensures ParseProjectionMonth(s) == Ok(Date(y, m, 1))
  {
    assert s == s[..4] + "-" + s[5..];
    ParseProjectionMonthAcceptsUnpadded(s[..4], s[5..]);
  }

  /** Year 0 is listed as year 1: `0000-01` is accepted, and the row it
      creates is listed as `0001-01`, which names another month. */
  lemma FormatMonthYearZero(m: int)
    requires 1 <= m <= 12
    ensures FormatMonth(Date(0, m, 1)) == FormatMonth(Date(1, m, 1))
    ensures ParseProjectionMonth(FormatMonth(Date(0, m, 1))) == Ok(Date(1, m, 1))
  {
    FormatMonthRoundTrip(Date(1, m, 1));
  }

  /** The unit test: `2026-02` is 1 February 2026 ... */
  lemma ParseProjectionMonthExample()
    ensures ParseProjectionMonth("2026-02") == Ok(Date(2026, 2, 1))
  {
    assert "2026-02" == "2026" + "-" + "02";
    assert DigitsValue("2026") == 2026 by {
      assert "2026"[..3] == "202" && "202"[..2] == "20" && "20"[..1] == "2" && "2"[..0] == "";
    }
    assert DigitsValue("02") == 2 by {
      assert "02"[..1] == "0" && "0"[..0] == "";
    }
    ParseProjectionMonthAcceptsUnpadded("2026", "02");
  }

  /** ... and `2026/02`, with the wrong separator, is refused. */
  lemma ParseProjectionMonthRejectsSlash()
    ensures ParseProjectionMonth("2026/02").Err?
  {
    var bad := "2026/02" + "-01";
    assert [] + bad == bad;
    SpaceRunOfPad([], bad);
    assert bad == "2026" + bad[4..];
    LeadingDigitsOfField("2026", bad[4..], 4);
    assert SplitYmd(bad).None?;
  }

  /** chrono skips white space before each number, so a space before the
      month is accepted. */
  lemma ParseProjectionMonthSkipsSpace()
    ensures ParseProjectionMonth("2026- 2") == Ok(Date(2026, 2, 1))
  {
    assert "2026- 2" == [] + "2026" + "-" + " " + "2";
    assert DigitsValue("2026") == 2026 by {
      assert "2026"[..3] == "202" && "202"[..2] == "20" && "20"[..1] == "2" && "2"[..0] == "";
    }
    assert DigitsValue("2") == 2 by {
      assert "2"[..0] == "";
    }
    ParseProjectionMonthAccepts([], "2026", " ", "2");
  }

  /** A month outside 1..12 is refused. */
  lemma ParseProjectionMonthRejectsMonth13()
    ensures ParseProjectionMonth("2026-13").Err?
  {
    var f := Fields([], "2026", [], "13", [], "01");
    MonthThirteenFields();
    ParseYmdRejectsInvalid(f);
    assert "2026-13" + "-01" == "2026-13-01";
    ParseProjectionMonthIsStamped("2026-13");
  }

  lemma MonthThirteenFields()
    ensures var f := Fields([], "2026", [], "13", [], "01");
            WellFormed(f) && Join(f) == "2026-13-01" && DigitsValue(f.month) == 13
  {
    assert DigitsValue("13") == 13 by {
      assert "13"[..1] == "1" && "1"[..0] == "";
    }
  }

  /** Fields that name no day of the calendar are refused. */
  lemma ParseYmdRejectsInvalid(f: Fields)
    requires WellFormed(f) && !ValidDate(DateOf(f))
    ensures ParseYmd(Join(f)).Err?
  {
    SplitYmdExact(f);
  }
}
