// The view-model derivations of the single-page client: month navigation,
// the active budget, the budget table built from the API's answers, its
// grouping by supercategory, the figures above it, and the amount posted
// when an assignment is edited. Amounts are integers (cents).

module Web {
  import opened Common
  import opened Text
  import opened Tables
  import opened Store
  import opened Projection
  import Calendar

  // ------------------------------------------------------------ months

  datatype YearMonth = YearMonth(year: int, month: int)

  /** The position of the first '-', or the length when there is none. */
  function DashAt(s: string): (i: nat)
    ensures i <= |s| && (i < |s| ==> s[i] == '-')
    ensures forall j :: 0 <= j < i ==> s[j] != '-'
  {
    if s == [] || s[0] == '-' then 0 else 1 + DashAt(s[1..])
  }

  /** `month.split('-').map(Number)` for the first two parts, when both are
      non-empty runs of decimal digits. */
  function ParseMonthText(s: string): (r: Option<YearMonth>)
    ensures r.Some? <==> exists y, m, rest :: s == y + "-" + m + rest && MonthParts(y, m, rest)
    ensures forall y, m, rest :: s == y + "-" + m + rest && MonthParts(y, m, rest) ==>
              r == Some(YearMonth(DigitsValue(y), DigitsValue(m)))
  {
    MonthPartsUnique(s);
    var i := DashAt(s);
    if i == |s| then None
    else
      var yearText := s[..i];
      var rest := s[i + 1..];
      var monthText := rest[..DashAt(rest)];
      if yearText != [] && monthText != [] && AllDigits(yearText) && AllDigits(monthText)
      then
        var tail := rest[DashAt(rest)..];
        assert s == yearText + "-" + monthText + tail by {
          assert rest == monthText + tail;
          assert s == yearText + "-" + rest;
        }
        assert MonthParts(yearText, monthText, tail);
        Some(YearMonth(DigitsValue(yearText), DigitsValue(monthText)))
      else None
  }

  /** The first two `-`-separated parts of a month text: two non-empty
      digit runs, and whatever follows from a further `-` on. */
  predicate MonthParts(y: string, m: string, rest: string)
  {
    y != [] && m != [] && AllDigits(y) && AllDigits(m) && (rest == [] || rest[0] == '-')
  }

  /** A text splits into month parts in at most one way, and that is the way
      `ParseMonthText` cuts it. */
  lemma MonthPartsUnique(s: string)
    ensures forall y, m, rest :: s == y + "-" + m + rest && MonthParts(y, m, rest) ==>
              var i := DashAt(s);
              && i < |s| && y == s[..i]
              && var after := s[i + 1..]; m == after[..DashAt(after)] && rest == after[DashAt(after)..]
  {
    forall y, m, rest | s == y + "-" + m + rest && MonthParts(y, m, rest)
      ensures var i := DashAt(s);
              && i < |s| && y == s[..i]
              && var after := s[i + 1..]; m == after[..DashAt(after)] && rest == after[DashAt(after)..]
    {
      assert s == y + "-" + (m + rest);
      DashAtDigits(y, m + rest);
      var after := s[|y| + 1..];
      assert after == m + rest;
      DashAtRun(m, rest);
    }
  }

  lemma {:induction false} DashAtRun(d: string, t: string)
    requires AllDigits(d) && (t == [] || t[0] == '-')
    ensures DashAt(d + t) == |d|
  {
    if d != [] {
      assert (d + t)[1..] == d[1..] + t;
      DashAtRun(d[1..], t);
    } else {
      assert d + t == t;
    }
  }

  /** `${getFullYear()}-${String(getMonth() + 1).padStart(2, '0')}`: the
      year's digits without padding, a dash, and the month on two digits. */
  function MonthText(ym: YearMonth): (s: string)
    requires ym.year >= 0 && 1 <= ym.month <= 12
    ensures |s| >= 4 && s[|s| - 3] == '-'
    ensures AllDigits(s[..|s| - 3]) && DigitsValue(s[..|s| - 3]) == ym.year
    ensures (|s| > 4 ==> s[0] != '0')
    ensures AllDigits(s[|s| - 2..]) && DigitsValue(s[|s| - 2..]) == ym.month
  {
    var y := NatToString(ym.year);
    var m := PadLeft(ym.month, 2);
    assert |m| == 2 by {
      assert Pow10(2) == 100;
      Calendar.LengthFromBound(NatToString(ym.month), 2);
    }
    var s := y + "-" + m;
    assert s[..|s| - 3] == y && s[|s| - 2..] == m;
    s
  }

  /** `new Date(y, m - 1 + direction, 1)`: a month index out of range rolls
      into the neighbouring years, and a year from 0 to 99 is read as 1900
      to 1999. */
  function ShiftMonth(ym: YearMonth, direction: int): (r: YearMonth)
    requires direction == -1 || direction == 1
    ensures 1 <= r.month <= 12
    ensures ym.year >= 0 && ym.month >= 0 ==> r.year >= 99
  {
    var fullYear := if 0 <= ym.year <= 99 then 1900 + ym.year else ym.year;
    var index := fullYear * 12 + (ym.month - 1 + direction);
    YearMonth(index / 12, index % 12 + 1)
  }

  /** `monthShift`; None for text that is not two digit runs around a dash. */
  function MonthShift(month: string, direction: int): (r: Option<string>)
    requires direction == -1 || direction == 1
    ensures r.Some? <==> ParseMonthText(month).Some?
    ensures r.Some? ==> r.value == MonthText(ShiftMonth(ParseMonthText(month).value, direction))
    ensures r.Some? ==> ParseMonthText(r.value) == Some(ShiftMonth(ParseMonthText(month).value, direction))
  {
    var parsed := ParseMonthText(month);
    if parsed.None? then None
    else
      var shifted := ShiftMonth(parsed.value, direction);
      MonthTextRoundTrip(shifted);
      Some(MonthText(shifted))
  }

  lemma {:induction false} DashAtDigits(d: string, t: string)
    requires AllDigits(d)
    ensures DashAt(d + "-" + t) == |d|
    ensures DashAt(d) == |d|
  {
    if d != [] {
      assert (d + "-" + t)[1..] == d[1..] + "-" + t;
      DashAtDigits(d[1..], t);
    }
  }

  /** The text of a month reads back as that month. */
  lemma MonthTextRoundTrip(ym: YearMonth)
    requires ym.year >= 0 && 1 <= ym.month <= 12
    ensures ParseMonthText(MonthText(ym)) == Some(ym)
  {
    var y := NatToString(ym.year);
    var m := PadLeft(ym.month, 2);
    var s := MonthText(ym);
    DashAtDigits(y, m);
    DashAtDigits(m, []);
    assert s[..|y|] == y;
    assert s[|y| + 1..] == m;
    assert m[..DashAt(m)] == m;
    DigitsValueBound(NatToString(ym.month));
  }

  /** Going forward past December lands in January of the next year, and
      back past January in December of the year before. */
  lemma MonthShiftRollsOver(year: int)
    requires year >= 100
    ensures ShiftMonth(YearMonth(year, 12), 1) == YearMonth(year + 1, 1)
    ensures ShiftMonth(YearMonth(year, 1), -1) == YearMonth(year - 1, 12)
  {
  }

  /** Within a year only the month moves. */
  lemma MonthShiftWithinYear(ym: YearMonth)
    requires ym.year >= 100 && 1 <= ym.month < 12
    ensures ShiftMonth(ym, 1) == YearMonth(ym.year, ym.month + 1)
    ensures ShiftMonth(ShiftMonth(ym, 1), -1) == ym
  {
  }

  /** From year 100 on, a step forward and a step back return to the same
      month, and so does a step back then forward except from January 100. */
  lemma {:induction false} MonthShiftRoundTrip(ym: YearMonth)
    requires ym.year >= 100 && 1 <= ym.month <= 12
    ensures ShiftMonth(ShiftMonth(ym, 1), -1) == ym
    ensures ym != YearMonth(100, 1) ==> ShiftMonth(ShiftMonth(ym, -1), 1) == ym
  {
    var index := ym.year * 12 + ym.month - 1;
    assert index / 12 == ym.year && index % 12 == ym.month - 1;
    var f := ShiftMonth(ym, 1);
    assert f.year * 12 + f.month - 1 == index + 1;
    if ym != YearMonth(100, 1) {
      var b := ShiftMonth(ym, -1);
      assert b.year * 12 + b.month - 1 == index - 1;
    }
  }

  /** The text form of the round trip, for months written as `monthShift`
      writes them. */
  lemma {:induction false} MonthShiftTextRoundTrip(ym: YearMonth)
    requires ym.year >= 100 && 1 <= ym.month <= 12
    ensures var forward := MonthShift(MonthText(ym), 1);
            forward.Some? && MonthShift(forward.value, -1) == Some(MonthText(ym))
  {
    MonthTextRoundTrip(ym);
    MonthShiftRoundTrip(ym);
    var f := ShiftMonth(ym, 1);
    MonthTextRoundTrip(f);
  }

  /** What `monthShift` answers follows from how it reads its input and how
      it writes the shifted month. */
  lemma MonthShiftOf(month: string, direction: int, ym: YearMonth, text: string)
    requires direction == -1 || direction == 1
    requires ParseMonthText(month) == Some(ym)
    requires MonthText(ShiftMonth(ym, direction)) == text
    ensures MonthShift(month, direction) == Some(text)
  {
  }

  lemma DigitsHundred()
    ensures DigitsValue("100") == 100
  {
    assert "100"[..2] == "10" && "10"[..1] == "1";
  }

  lemma DigitsLeadingZeroOne()
    ensures DigitsValue("01") == 1
  {
    assert "01"[..1] == "0";
  }

  lemma ParseHundredJanuary()
    ensures ParseMonthText("100-01") == Some(YearMonth(100, 1))
  {
    DashAtDigits("100", "01");
    DashAtDigits("01", []);
    assert "100-01"[..3] == "100" && "100-01"[4..] == "01" && "01"[..2] == "01";
    DigitsHundred();
    DigitsLeadingZeroOne();
  }

  lemma ParseNinetyNineDecember()
    ensures ParseMonthText("99-12") == Some(YearMonth(99, 12))
  {
    DashAtDigits("99", "12");
    DashAtDigits("12", []);
    assert "99-12"[..2] == "99" && "99-12"[3..] == "12" && "12"[..2] == "12";
    DigitsNinetyNine();
    DigitsTwelve();
  }

  lemma DigitsNinetyNine()
    ensures DigitsValue("99") == 99
  {
    assert "99"[..1] == "9";
  }

  lemma DigitsTwelve()
    ensures DigitsValue("12") == 12
  {
    assert "12"[..1] == "1";
  }

  lemma TextNinetyNineDecember()
    ensures MonthText(YearMonth(99, 12)) == "99-12"
  {
    assert NatToString(99) == "99" by { assert NatToString(9) == "9"; }
    assert PadLeft(12, 2) == "12" by { assert NatToString(12) == "12" by { assert NatToString(1) == "1"; } }
  }

  lemma DecimalTwoThousand()
    ensures NatToString(2000) == "2000"
  {
    assert NatToString(2) == "2";
    assert NatToString(20) == "20";
    assert NatToString(200) == "200";
  }

  lemma PaddedJanuary()
    ensures PadLeft(1, 2) == "01"
  {
    assert NatToString(1) == "1";
  }

  lemma TextTwoThousandJanuary()
    ensures MonthText(YearMonth(2000, 1)) == "2000-01"
  {
    DecimalTwoThousand();
    PaddedJanuary();
  }

  /** As written, the step back from January of year 100 gives `99-12`, and
      the step forward from there reads 99 as 1999. */
  lemma MonthShiftCenturyExample()
    ensures MonthShift("100-01", -1) == Some("99-12")
    ensures MonthShift("99-12", 1) == Some("2000-01")
  {
    BackFromHundred();
    ForwardFromNinetyNine();
  }

  lemma BackFromHundred()
    ensures MonthShift("100-01", -1) == Some("99-12")
  {
    ParseHundredJanuary();
    assert ShiftMonth(YearMonth(100, 1), -1) == YearMonth(99, 12);
    TextNinetyNineDecember();
    MonthShiftOf("100-01", -1, YearMonth(100, 1), "99-12");
  }

  lemma ForwardFromNinetyNine()
    ensures MonthShift("99-12", 1) == Some("2000-01")
  {
    ParseNinetyNineDecember();
    assert ShiftMonth(YearMonth(99, 12), 1) == YearMonth(2000, 1);
    TextTwoThousandJanuary();
    MonthShiftOf("99-12", 1, YearMonth(99, 12), "2000-01");
  }

  /** The step as the client evidently means it: the year taken as written
      (as `setFullYear` would), so that every step can be undone. */
  function ShiftMonthFixed(ym: YearMonth, direction: int): (r: YearMonth)
    requires direction == -1 || direction == 1
    ensures 1 <= r.month <= 12
  {
    var index := ym.year * 12 + (ym.month - 1 + direction);
    YearMonth(index / 12, index % 12 + 1)
  }

  lemma {:induction false} ShiftMonthFixedRoundTrip(ym: YearMonth, direction: int)
    requires 1 <= ym.month <= 12 && (direction == -1 || direction == 1)
    ensures ShiftMonthFixed(ShiftMonthFixed(ym, direction), -direction) == ym
  {
    var index := ym.year * 12 + ym.month - 1;
    assert index / 12 == ym.year && index % 12 == ym.month - 1;
    var s := ShiftMonthFixed(ym, direction);
    assert s.year * 12 + s.month - 1 == index + direction;
  }

  // ------------------------------------------------------------ budgets

  datatype WebBudget = WebBudget(id: Id, name: string, currency: string, isDefault: bool)

  /** The index of the first default budget. */
  function FirstDefault(budgets: seq<WebBudget>): (r: Option<nat>)
    ensures r.Some? ==> r.value < |budgets| && budgets[r.value].isDefault
                        && forall j :: 0 <= j < r.value ==> !budgets[j].isDefault
    ensures r.None? ==> forall j :: 0 <= j < |budgets| ==> !budgets[j].isDefault
  {
    if budgets == [] then None
    else if budgets[0].isDefault then Some(0)
    else
      var r := FirstDefault(budgets[1..]);
      if r.None? then None else Some(r.value + 1)
  }

  /** `activeBudget`: the first default budget, else the first budget. */
  function ActiveBudget(budgets: seq<WebBudget>): (r: Option<WebBudget>)
    ensures r.None? <==> budgets == []
    ensures (exists i :: 0 <= i < |budgets| && budgets[i].isDefault) ==>
              r.Some? && r.value.isDefault
              && exists i :: 0 <= i < |budgets| && budgets[i] == r.value && forall j :: 0 <= j < i ==> !budgets[j].isDefault
    ensures (forall i :: 0 <= i < |budgets| ==> !budgets[i].isDefault) && budgets != [] ==> r == Some(budgets[0])
  {
    var d := FirstDefault(budgets);
    if d.Some? then Some(budgets[d.value])
    else if budgets == [] then None
    else Some(budgets[0])
  }

  // ------------------------------------------------------------ budget rows

  datatype WebCategory = WebCategory(id: Id, name: string, budget: Id, supercategory: Id)
  datatype Named = Named(id: Id, name: string)
  datatype BudgetRow = BudgetRow(categoryId: Id, categoryName: string, supercategoryId: Id, supercategoryName: string,
                                 assignedAmount: int, activity: int, available: int)

  /** `new Map(projections.map(...)).get(id)`: the last entry wins. */
  function LastProjection(projections: seq<CategoryProjection>, id: Id): (r: Option<CategoryProjection>)
    ensures r.None? <==> forall i :: 0 <= i < |projections| ==> projections[i].category != id
    ensures r.Some? ==> exists i :: 0 <= i < |projections| && projections[i] == r.value && r.value.category == id
                                    && forall j :: i < j < |projections| ==> projections[j].category != id
  {
    if projections == [] then None
    else if projections[|projections| - 1].category == id then Some(projections[|projections| - 1])
    else LastProjection(projections[..|projections| - 1], id)
  }

  /** `new Map(supercategories.map(...)).get(id)`: the last entry wins. */
  function LastName(named: seq<Named>, id: Id): (r: Option<string>)
    ensures r.None? <==> forall i :: 0 <= i < |named| ==> named[i].id != id
    ensures r.Some? ==> exists i :: 0 <= i < |named| && named[i].id == id && named[i].name == r.value
                                    && forall j :: i < j < |named| ==> named[j].id != id
  {
    if named == [] then None
    else if named[|named| - 1].id == id then Some(named[|named| - 1].name)
    else LastName(named[..|named| - 1], id)
  }

  const Uncategorized := "Uncategorized"

  /** A missing or empty supercategory name reads `Uncategorized`. */
  function SupercategoryName(supercategories: seq<Named>, id: Id): (r: string)
    ensures r != []
    ensures var n := LastName(supercategories, id);
            && (n.Some? && n.value != [] ==> r == n.value)
            && (n.None? || n.value == [] ==> r == Uncategorized)
  {
    var n := LastName(supercategories, id);
    if n.Some? && n.value != "" then n.value else Uncategorized
  }

  predicate InBudget(c: WebCategory, active: Option<WebBudget>)
  {
    active.None? || c.budget == active.value.id
  }

  /** The categories shown: those of the active budget, or all of them. */
  function KeptCategories(categories: seq<WebCategory>, active: Option<WebBudget>): (r: seq<WebCategory>)
    ensures |r| <= |categories|
    ensures forall k :: 0 <= k < |r| ==> r[k] in categories && InBudget(r[k], active)
    ensures forall i :: 0 <= i < |categories| && InBudget(categories[i], active) ==> categories[i] in r
  {
    if categories == [] then []
    else
      var c := categories[|categories| - 1];
      KeptCategories(categories[..|categories| - 1], active) + (if InBudget(c, active) then [c] else [])
  }

  function RowFor(c: WebCategory, projections: seq<CategoryProjection>, supercategories: seq<Named>): BudgetRow
  {
    var p := LastProjection(projections, c.id);
    BudgetRow(c.id, c.name, c.supercategory, SupercategoryName(supercategories, c.supercategory),
              if p.Some? then p.value.assignedAmount else 0,
              if p.Some? then p.value.activity else 0,
              if p.Some? then p.value.available else 0)
  }

  /** `budgetRows`: one row per shown category, in category order, with the
      figures of that category's projection, or zeros without one. */
  function BudgetRows(categories: seq<WebCategory>, projections: seq<CategoryProjection>, supercategories: seq<Named>,
                      active: Option<WebBudget>): (r: seq<BudgetRow>)
    ensures var kept := KeptCategories(categories, active);
            && |r| == |kept|
            && forall k :: 0 <= k < |r| ==>
                 && r[k].categoryId == kept[k].id && r[k].categoryName == kept[k].name
                 && r[k].supercategoryId == kept[k].supercategory
                 && r[k].supercategoryName == SupercategoryName(supercategories, kept[k].supercategory)
                 && (LastProjection(projections, kept[k].id).None? ==> r[k].assignedAmount == 0 && r[k].activity == 0 && r[k].available == 0)
                 && (LastProjection(projections, kept[k].id).Some? ==>
                       var p := LastProjection(projections, kept[k].id).value;
                       r[k].assignedAmount == p.assignedAmount && r[k].activity == p.activity && r[k].available == p.available)
  {
    var kept := KeptCategories(categories, active);
    seq(|kept|, k requires 0 <= k < |kept| => RowFor(kept[k], projections, supercategories))
  }

  /** The shown categories keep the order of the list: filtering a
      concatenation filters each part. */
  lemma {:induction false} KeptCategoriesAppend(a: seq<WebCategory>, b: seq<WebCategory>, active: Option<WebBudget>)
    ensures KeptCategories(a + b, active) == KeptCategories(a, active) + KeptCategories(b, active)
    decreases |b|
  {
    if b != [] {
      var front := b[..|b| - 1];
      assert (a + b)[..|a + b| - 1] == a + front;
      KeptCategoriesAppend(a, front, active);
    } else {
      assert a + b == a;
    }
  }

  /** Without an active budget every category gets a row. */
  lemma {:induction false} NoActiveBudgetKeepsAll(categories: seq<WebCategory>)
    ensures KeptCategories(categories, None) == categories
  {
    if categories != [] {
      NoActiveBudgetKeepsAll(categories[..|categories| - 1]);
    }
  }

  /** When the projections balance (as the month projection's rows do), so
      does every budget row, those without a projection included. */
  lemma {:induction false} BudgetRowsBalance(categories: seq<WebCategory>, projections: seq<CategoryProjection>,
                                             supercategories: seq<Named>, active: Option<WebBudget>)
    requires forall i :: 0 <= i < |projections| ==> projections[i].available == projections[i].assignedAmount - projections[i].activity
    ensures var rows := BudgetRows(categories, projections, supercategories, active);
            forall k :: 0 <= k < |rows| ==> rows[k].available == rows[k].assignedAmount - rows[k].activity
  {
    var kept := KeptCategories(categories, active);
    var rows := BudgetRows(categories, projections, supercategories, active);
    forall k | 0 <= k < |rows| ensures rows[k].available == rows[k].assignedAmount - rows[k].activity {
      var p := LastProjection(projections, kept[k].id);
      if p.Some? {
        var i :| 0 <= i < |projections| && projections[i] == p.value && p.value.category == kept[k].id
                 && forall j :: i < j < |projections| ==> projections[j].category != kept[k].id;
        assert rows[k] == RowFor(kept[k], projections, supercategories);
      }
    }
  }

  // ------------------------------------------------------------ grouping

  datatype Group = Group(id: Id, name: string, rows: seq<BudgetRow>)

  /** The supercategory ids of `rows` in order of first appearance. */
  function FirstAppearance(rows: seq<BudgetRow>): (ids: seq<Id>)
    ensures forall i, j :: 0 <= i < j < |ids| ==> ids[i] != ids[j]
    ensures forall x :: x in ids <==> exists i :: 0 <= i < |rows| && rows[i].supercategoryId == x
  {
    if rows == [] then []
    else
      var front := FirstAppearance(rows[..|rows| - 1]);
      var x := rows[|rows| - 1].supercategoryId;
      assert forall i :: 0 <= i < |rows| - 1 ==> rows[..|rows| - 1][i] == rows[i];
      if x in front then front else front + [x]
  }

  /** The rows of one supercategory, in order. */
  function RowsOf(rows: seq<BudgetRow>, id: Id): (r: seq<BudgetRow>)
    ensures forall k :: 0 <= k < |r| ==> r[k] in rows && r[k].supercategoryId == id
  {
    if rows == [] then []
    else
      var x := rows[|rows| - 1];
      RowsOf(rows[..|rows| - 1], id) + (if x.supercategoryId == id then [x] else [])
  }

  /** The supercategory name carried by the first row of that supercategory. */
  function FirstName(rows: seq<BudgetRow>, id: Id): string
  {
    if rows == [] then ""
    else
      var front := rows[..|rows| - 1];
      var x := rows[|rows| - 1];
      if id in FirstAppearance(front) then FirstName(front, id)
      else if x.supercategoryId == id then x.supercategoryName
      else ""
  }

  /** The index of the group with that id (the `Map` lookup). */
  function GroupIndex(groups: seq<Group>, id: Id): (r: Option<nat>)
    ensures r.Some? ==> r.value < |groups| && groups[r.value].id == id
    ensures r.None? ==> forall k :: 0 <= k < |groups| ==> groups[k].id != id
  {
    if groups == [] then None
    else if groups[0].id == id then Some(0)
    else
      var r := GroupIndex(groups[1..], id);
      if r.None? then None else Some(r.value + 1)
  }

  /** `groups` are the groups of `rows`: one per supercategory in order of
      first appearance, named after its first row, holding its rows. */
  predicate GroupsOf(rows: seq<BudgetRow>, groups: seq<Group>)
  {
    var ids := FirstAppearance(rows);
    && |groups| == |ids|
    && forall k :: 0 <= k < |groups| ==> groups[k] == Group(ids[k], FirstName(rows, ids[k]), RowsOf(rows, ids[k]))
  }

  /** What one more row changes in the grouping functions. */
  lemma {:induction false} GroupStep(rows: seq<BudgetRow>, x: BudgetRow)
    ensures FirstAppearance(rows + [x]) == if x.supercategoryId in FirstAppearance(rows) then FirstAppearance(rows)
                                             else FirstAppearance(rows) + [x.supercategoryId]
    ensures forall id :: RowsOf(rows + [x], id) == RowsOf(rows, id) + (if x.supercategoryId == id then [x] else [])
    ensures forall id :: id in FirstAppearance(rows) ==> FirstName(rows + [x], id) == FirstName(rows, id)
    ensures x.supercategoryId !in FirstAppearance(rows) ==> FirstName(rows + [x], x.supercategoryId) == x.supercategoryName
  {
    assert (rows + [x])[..|rows|] == rows;
  }

  lemma {:induction false} AppendGroup(rows: seq<BudgetRow>, x: BudgetRow, groups: seq<Group>)
    requires GroupsOf(rows, groups) && x.supercategoryId !in FirstAppearance(rows)
    requires RowsOf(rows, x.supercategoryId) == []
    ensures GroupsOf(rows + [x], groups + [Group(x.supercategoryId, x.supercategoryName, [x])])
  {
    GroupStep(rows, x);
    var ids := FirstAppearance(rows);
    var ids' := FirstAppearance(rows + [x]);
    var groups' := groups + [Group(x.supercategoryId, x.supercategoryName, [x])];
    forall k | 0 <= k < |groups'|
      ensures groups'[k] == Group(ids'[k], FirstName(rows + [x], ids'[k]), RowsOf(rows + [x], ids'[k]))
    {
      if k < |groups| {
        assert ids'[k] == ids[k] && ids[k] in ids;
        assert RowsOf(rows + [x], ids[k]) == RowsOf(rows, ids[k]) + (if x.supercategoryId == ids[k] then [x] else []);
      } else {
        assert RowsOf(rows + [x], x.supercategoryId) == RowsOf(rows, x.supercategoryId) + [x];
      }
    }
  }

  lemma {:induction false} ExtendGroup(rows: seq<BudgetRow>, x: BudgetRow, groups: seq<Group>, at: nat)
    requires GroupsOf(rows, groups) && at < |groups| && groups[at].id == x.supercategoryId
    ensures GroupsOf(rows + [x], groups[at := groups[at].(rows := groups[at].rows + [x])])
  {
    GroupStep(rows, x);
    var ids := FirstAppearance(rows);
    assert ids[at] == x.supercategoryId;
    var groups' := groups[at := groups[at].(rows := groups[at].rows + [x])];
    forall k | 0 <= k < |groups'|
      ensures groups'[k] == Group(ids[k], FirstName(rows + [x], ids[k]), RowsOf(rows + [x], ids[k]))
    {
      assert ids[k] in ids;
      assert RowsOf(rows + [x], ids[k]) == RowsOf(rows, ids[k]) + (if x.supercategoryId == ids[k] then [x] else []);
      assert FirstName(rows + [x], ids[k]) == FirstName(rows, ids[k]);
      if k != at {
        assert ids[k] != ids[at];
      }
    }
  }

  /** `groupedRows`: a group per supercategory in order of first appearance,
      named after its first row and holding its rows in order. */
  method GroupedRows(rows: seq<BudgetRow>) returns (groups: seq<Group>)
    ensures GroupsOf(rows, groups)
  {
    groups := [];
    var i := 0;
    while i < |rows|
      invariant 0 <= i <= |rows|
      invariant GroupsOf(rows[..i], groups)
    {
      var row := rows[i];
      assert rows[..i + 1] == rows[..i] + [row];
      var at := GroupIndex(groups, row.supercategoryId);
      GroupStep(rows[..i], row);
      if at.None? {
        NoRowsOfAbsent(rows[..i], row.supercategoryId);
        AppendGroup(rows[..i], row, groups);
        groups := groups + [Group(row.supercategoryId, row.supercategoryName, [row])];
      } else {
        var g := groups[at.value];
        ExtendGroup(rows[..i], row, groups, at.value);
        groups := groups[at.value := g.(rows := g.rows + [row])];
      }
      i := i + 1;
    }
    assert rows[..i] == rows;
  }

  lemma {:induction false} NoRowsOfAbsent(rows: seq<BudgetRow>, id: Id)
    requires id !in FirstAppearance(rows)
    ensures RowsOf(rows, id) == []
  {
    if rows != [] {
      var front := rows[..|rows| - 1];
      assert forall x :: x in FirstAppearance(front) ==> x in FirstAppearance(rows) by {
        forall x | x in FirstAppearance(front) ensures x in FirstAppearance(rows) {
          var i :| 0 <= i < |front| && front[i].supercategoryId == x;
          assert rows[i].supercategoryId == x;
        }
      }
      NoRowsOfAbsent(front, id);
    }
  }

  /** The rows of the groups for `ids`, one group after the other. */
  function Flatten(rows: seq<BudgetRow>, ids: seq<Id>): seq<BudgetRow>
  {
    if ids == [] then [] else Flatten(rows, ids[..|ids| - 1]) + RowsOf(rows, ids[|ids| - 1])
  }

  /** A row of another supercategory leaves the other groups as they were. */
  lemma {:induction false} FlattenOther(rows: seq<BudgetRow>, x: BudgetRow, ids: seq<Id>)
    requires x.supercategoryId !in ids
    ensures Flatten(rows + [x], ids) == Flatten(rows, ids)
  {
    assert (rows + [x])[..|rows|] == rows;
    if ids != [] {
      FlattenOther(rows, x, ids[..|ids| - 1]);
    }
  }

  /** A row of a listed supercategory lands in exactly one group. */
  lemma {:induction false} FlattenAdd(rows: seq<BudgetRow>, x: BudgetRow, ids: seq<Id>)
    requires x.supercategoryId in ids
    requires forall i, j :: 0 <= i < j < |ids| ==> ids[i] != ids[j]
    ensures multiset(Flatten(rows + [x], ids)) == multiset(Flatten(rows, ids)) + multiset{x}
  {
    assert (rows + [x])[..|rows|] == rows;
    var front := ids[..|ids| - 1];
    var last := ids[|ids| - 1];
    if last == x.supercategoryId {
      assert x.supercategoryId !in front by {
        forall k | 0 <= k < |front| ensures front[k] != x.supercategoryId {
          assert front[k] == ids[k];
        }
      }
      FlattenOther(rows, x, front);
    } else {
      assert x.supercategoryId in front by {
        var k :| 0 <= k < |ids| && ids[k] == x.supercategoryId;
        assert k < |ids| - 1 && front[k] == ids[k];
      }
      FlattenAdd(rows, x, front);
    }
  }

  /** Grouping loses and duplicates nothing: the groups' rows, put back
      together, are the rows. */
  lemma {:induction false} GroupingKeepsEveryRow(rows: seq<BudgetRow>)
    ensures multiset(Flatten(rows, FirstAppearance(rows))) == multiset(rows)
  {
    if rows != [] {
      var front := rows[..|rows| - 1];
      var x := rows[|rows| - 1];
      assert rows == front + [x];
      GroupingKeepsEveryRow(front);
      var ids := FirstAppearance(front);
      if x.supercategoryId in ids {
        FlattenAdd(front, x, ids);
      } else {
        FlattenNewGroup(front, x);
      }
    }
  }

  /** A row of a supercategory not seen before opens a group of its own at
      the end. */
  lemma FlattenNewGroup(front: seq<BudgetRow>, x: BudgetRow)
    requires x.supercategoryId !in FirstAppearance(front)
    ensures Flatten(front + [x], FirstAppearance(front + [x])) == Flatten(front, FirstAppearance(front)) + [x]
  {
    var rows := front + [x];
    var ids := FirstAppearance(front);
    var id := x.supercategoryId;
    assert rows[..|rows| - 1] == front;
    assert FirstAppearance(rows) == ids + [id];
    assert (ids + [id])[..|ids|] == ids;
    NoRowsOfAbsent(front, id);
    assert RowsOf(rows, id) == [x];
    FlattenOther(front, x, ids);
  }

  // ------------------------------------------------------------ figures

  /** `budgetRows.reduce((sum, row) => sum + row.assigned, 0)`. */
  function SumAssigned(rows: seq<BudgetRow>): int
  {
    if rows == [] then 0 else SumAssigned(rows[..|rows| - 1]) + rows[|rows| - 1].assignedAmount
  }

  /** A sum of non-negative amounts is non-negative, and a sum of zeros is
      zero. */
  lemma {:induction false} SumAssignedBounds(rows: seq<BudgetRow>)
    ensures (forall k :: 0 <= k < |rows| ==> rows[k].assignedAmount >= 0) ==> SumAssigned(rows) >= 0
    ensures (forall k :: 0 <= k < |rows| ==> rows[k].assignedAmount == 0) ==> SumAssigned(rows) == 0
  {
    if rows != [] {
      SumAssignedBounds(rows[..|rows| - 1]);
    }
  }

  /** `readyToAssign`: what the dashboard has available minus everything
      assigned in the table. */
  function ReadyToAssign(available: int, rows: seq<BudgetRow>): (r: int)
    ensures (forall k :: 0 <= k < |rows| ==> rows[k].assignedAmount >= 0) ==> r <= available
    ensures (forall k :: 0 <= k < |rows| ==> rows[k].assignedAmount == 0) ==> r == available
  {
    SumAssignedBounds(rows);
    available - SumAssigned(rows)
  }

  /** Assigning `delta` more to one row leaves `delta` less ready to assign. */
  lemma {:induction false} ReadyAfterAssign(available: int, rows: seq<BudgetRow>, k: nat, delta: int)
    requires k < |rows|
    ensures ReadyToAssign(available, rows[k := rows[k].(assignedAmount := rows[k].assignedAmount + delta)])
            == ReadyToAssign(available, rows) - delta
  {
    SumAfterAssign(rows, k, delta);
  }

  lemma {:induction false} SumAfterAssign(rows: seq<BudgetRow>, k: nat, delta: int)
    requires k < |rows|
    ensures SumAssigned(rows[k := rows[k].(assignedAmount := rows[k].assignedAmount + delta)]) == SumAssigned(rows) + delta
  {
    var after := rows[k := rows[k].(assignedAmount := rows[k].assignedAmount + delta)];
    var n := |rows| - 1;
    if k < n {
      assert after[..n] == rows[..n][k := rows[k].(assignedAmount := rows[k].assignedAmount + delta)];
      SumAfterAssign(rows[..n], k, delta);
    } else {
      assert after[..n] == rows[..n];
    }
  }

  /** `overspentRows`: the rows with a negative available amount. */
  function OverspentRows(rows: seq<BudgetRow>): (r: seq<BudgetRow>)
    ensures forall k :: 0 <= k < |r| ==> r[k] in rows && r[k].available < 0
    ensures forall i :: 0 <= i < |rows| && rows[i].available < 0 ==> rows[i] in r
  {
    if rows == [] then []
    else
      var x := rows[|rows| - 1];
      OverspentRows(rows[..|rows| - 1]) + (if x.available < 0 then [x] else [])
  }

  /** Overspent rows keep the table's order. */
  lemma {:induction false} OverspentKeepsOrder(a: seq<BudgetRow>, b: seq<BudgetRow>)
    ensures OverspentRows(a + b) == OverspentRows(a) + OverspentRows(b)
    decreases |b|
  {
    if b == [] {
      assert a + b == a;
    } else {
      var b' := b[..|b| - 1];
      assert (a + b)[..|a + b| - 1] == a + b';
      assert (a + b)[|a + b| - 1] == b[|b| - 1];
      OverspentKeepsOrder(a, b');
    }
  }

  // ------------------------------------------------------------ saving an assignment

  datatype SaveOutcome = Skipped | Unchanged | Posted(budget: Id, category: Id, month: string, amount: int)

  function FindRow(rows: seq<BudgetRow>, categoryId: Id): (r: Option<nat>)
    ensures r.Some? ==> r.value < |rows| && rows[r.value].categoryId == categoryId
                        && forall j :: 0 <= j < r.value ==> rows[j].categoryId != categoryId
    ensures r.None? ==> forall j :: 0 <= j < |rows| ==> rows[j].categoryId != categoryId
  {
    if rows == [] then None
    else if rows[0].categoryId == categoryId then Some(0)
    else
      var r := FindRow(rows[1..], categoryId);
      if r.None? then None else Some(r.value + 1)
  }

  /** `saveAssignment`: nothing without a session, an active budget or a
      row for the category; nothing when the target is already assigned;
      otherwise the difference is posted as a new assignment. */
  function SaveAssignment(signedIn: bool, active: Option<WebBudget>, rows: seq<BudgetRow>, month: string,
                          categoryId: Id, target: int): (o: SaveOutcome)
    ensures o.Skipped? <==> !signedIn || active.None? || FindRow(rows, categoryId).None?
    ensures o.Unchanged? <==> !o.Skipped? && rows[FindRow(rows, categoryId).value].assignedAmount == target
    ensures o.Posted? ==> && active.Some? && o.budget == active.value.id && o.category == categoryId && o.month == month
                          && o.amount != 0
                          && rows[FindRow(rows, categoryId).value].assignedAmount + o.amount == target
  {
    if !signedIn || active.None? then Skipped
    else
      var at := FindRow(rows, categoryId);
      if at.None? then Skipped
      else
        var delta := target - rows[at.value].assignedAmount;
        if delta == 0 then Unchanged else Posted(active.value.id, categoryId, month, delta)
  }

  /** The posted difference reaches the target: when the row showed the
      month's assigned sum, the new assignment row brings that sum to the
      target. */
  lemma {:induction false} SavedAssignmentReachesTarget(signedIn: bool, active: Option<WebBudget>, rows: seq<BudgetRow>,
                                                        month: string, categoryId: Id, target: int,
                                                        assignments: seq<Row<AssignmentData>>, period: Date, id: Id, owner: Id)
    requires SaveAssignment(signedIn, active, rows, month, categoryId, target).Posted?
    requires rows[FindRow(rows, categoryId).value].assignedAmount == Assigned(assignments, categoryId, period)
    ensures var o := SaveAssignment(signedIn, active, rows, month, categoryId, target);
            Assigned(assignments + [Row(id, owner, AssignmentData(o.budget, o.category, period, o.amount), None)], categoryId, period)
            == target
  {
    var o := SaveAssignment(signedIn, active, rows, month, categoryId, target);
    AssignmentAdds(assignments, Row(id, owner, AssignmentData(o.budget, o.category, period, o.amount), None), categoryId, period);
  }
}
