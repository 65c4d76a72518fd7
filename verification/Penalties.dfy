/**
 Penalty exposure, computed once in Python and once as an SQL expression, and its totals:
 the whole exposure and the exposure by department, each rounded to cents.
 */
module Penalties {
  import opened Common

  datatype Calculation = DailyAmount | PercentageOfBase

  /** Days are counted from some fixed date. */
  datatype Rule = Rule(
    kind: Calculation, dailyAmount: Option<real>, percentage: Option<real>, baseValue: Option<real>,
    start: int, end: Option<int>)

  datatype Error = DailyAmountRequired | PercentageRequired

  // ---- the two computations ----

  function EffectiveEnd(r: Rule, asOf: int): int {
    if r.end.Some? then Min(asOf, r.end.value) else asOf
  }

  function Days(r: Rule, asOf: int): nat {
    Max(0, EffectiveEnd(r, asOf) - r.start)
  }

  function Exposure(r: Rule, asOf: int): Result<real, Error> {
    if r.kind == DailyAmount then
      if r.dailyAmount.None? then Err(DailyAmountRequired) else Ok(r.dailyAmount.value * Days(r, asOf) as real)
    else if r.percentage.None? || r.baseValue.None? then Err(PercentageRequired)
    else Ok((r.percentage.value / 100.0) * r.baseValue.value * Days(r, asOf) as real)
  }

  function Coalesce(x: Option<real>): real {
    if x.None? then 0.0 else x.value
  }

  /** The SQL expression, which replaces missing values. */
  function Amount(r: Rule, asOf: int): real {
    var end := Min(if r.end.None? then asOf else r.end.value, asOf);
    var days := Max(end - r.start, 0);
    if r.kind == DailyAmount then Coalesce(r.dailyAmount) * days as real
    else Coalesce(r.percentage) / 100.0 * Coalesce(r.baseValue) * days as real
  }

  /** Whether the create schema accepts the rule. */
  predicate Accepted(r: Rule) {
    && (r.end.Some? ==> r.end.value >= r.start)
    && if r.kind == DailyAmount then
         r.dailyAmount.Some? && r.dailyAmount.value > 0.0 && r.percentage.None? && r.baseValue.None?
       else
         r.percentage.Some? && r.percentage.value > 0.0 && r.baseValue.Some? && r.baseValue.value > 0.0
  }

  lemma ZeroTimes(a: real, b: real)
    ensures a == 0.0 || b == 0.0 ==> a / 100.0 * b == 0.0
  {
  }

  lemma ZeroDays(a: real, b: real)
    requires a == 0.0
    ensures a * b == 0.0
  {
  }

  /**
   For every rule in the table, accepted by the schema or not: where Python computes an
   amount the SQL expression is that amount, and where Python raises it is zero.
   */
  lemma SqlAgrees(r: Rule, asOf: int)
    ensures Amount(r, asOf) == match Exposure(r, asOf) { case Ok(x) => x case Err(_) => 0.0 }
    ensures Accepted(r) ==> Exposure(r, asOf).Ok?
  {
    if r.kind == PercentageOfBase {
      ZeroTimes(Coalesce(r.percentage), Coalesce(r.baseValue));
      if r.percentage.None? || r.baseValue.None? {
        ZeroDays(Coalesce(r.percentage) / 100.0 * Coalesce(r.baseValue), Days(r, asOf) as real);
      }
    } else if r.dailyAmount.None? {
      ZeroDays(0.0, Days(r, asOf) as real);
    }
  }

  // ---- what an exposure is ----

  /** The amount a rule accrues for each day in force. */
  function Rate(r: Rule): real {
    if r.kind == DailyAmount then Coalesce(r.dailyAmount) else Coalesce(r.percentage) / 100.0 * Coalesce(r.baseValue)
  }

  predicate InForce(r: Rule, day: int) {
    r.start <= day && (r.end.Some? ==> day < r.end.value)
  }

  /** The reference: the rate added up over the days in force before a date. */
  function Accrued(r: Rule, from: int, to: int): real
    decreases to - from
  {
    if to <= from then 0.0
    else Accrued(r, from, to - 1) + (if InForce(r, to - 1) then Rate(r) else 0.0)
  }

  lemma RateTimesDays(r: Rule, asOf: int)
    ensures Amount(r, asOf) == Rate(r) * Days(r, asOf) as real
  {
  }

  lemma OneMore(rate: real, n: nat)
    ensures rate * (n + 1) as real == rate * n as real + rate
  {
    assert (n + 1) as real == n as real + 1.0;
  }

  /** The exposure is the rate of each day in force, added up. */
  lemma {:induction false} AddsUpDaily(r: Rule, asOf: int)
    ensures Amount(r, asOf) == Accrued(r, r.start, asOf)
    decreases asOf - r.start
  {
    RateTimesDays(r, asOf);
    if asOf <= r.start {
      assert Days(r, asOf) == 0;
    } else {
      AddsUpDaily(r, asOf - 1);
      RateTimesDays(r, asOf - 1);
      if InForce(r, asOf - 1) {
        assert Days(r, asOf) == Days(r, asOf - 1) + 1;
        OneMore(Rate(r), Days(r, asOf - 1));
      } else {
        assert Days(r, asOf) == Days(r, asOf - 1);
      }
    }
  }

  lemma Scaled(rate: real, m: nat, n: nat)
    requires rate >= 0.0 && m <= n
    ensures 0.0 <= rate * m as real <= rate * n as real
  {
    var k := n - m;
    assert n as real == m as real + k as real;
    assert rate * n as real == rate * m as real + rate * k as real;
  }

  lemma RatePositive(r: Rule)
    requires Accepted(r)
    ensures Rate(r) > 0.0
  {
    if r.kind == PercentageOfBase {
      var p := r.percentage.value / 100.0;
      assert p > 0.0;
    }
  }

  /** The exposure of an accepted rule never falls, and stays where it is from the end on. */
  lemma Monotone(r: Rule, a: int, b: int)
    requires Accepted(r) && a <= b
    ensures 0.0 <= Amount(r, a) <= Amount(r, b)
    ensures r.end.Some? && a >= r.end.value ==> Amount(r, a) == Amount(r, b)
  {
    RatePositive(r);
    RateTimesDays(r, a);
    RateTimesDays(r, b);
    Scaled(Rate(r), Days(r, a), Days(r, b));
  }

  lemma SumOfDays(rate: real, m: nat, n: nat)
    ensures rate * (m + n) as real == rate * m as real + rate * n as real
  {
    assert (m + n) as real == m as real + n as real;
  }

  /** Cutting a rule at a date into two rules changes no exposure. */
  lemma SplitAt(r: Rule, cut: int, asOf: int)
    requires r.start <= cut && (r.end.Some? ==> cut <= r.end.value)
    ensures Amount(r, asOf) == Amount(r.(end := Some(cut)), asOf) + Amount(r.(start := cut), asOf)
  {
    var first, second := r.(end := Some(cut)), r.(start := cut);
    RateTimesDays(r, asOf);
    RateTimesDays(first, asOf);
    RateTimesDays(second, asOf);
    assert Days(r, asOf) == Days(first, asOf) + Days(second, asOf);
    SumOfDays(Rate(r), Days(first, asOf), Days(second, asOf));
  }

  // ---- what a rule asks for ----

  /** How many of the days before a date a rule is in force. */
  function DaysInForce(r: Rule, from: int, to: int): nat
    decreases to - from
  {
    if to <= from then 0 else DaysInForce(r, from, to - 1) + if InForce(r, to - 1) then 1 else 0
  }

  lemma {:induction false} DaysCounted(r: Rule, asOf: int)
    ensures Days(r, asOf) == DaysInForce(r, r.start, asOf)
    decreases asOf - r.start
  {
    if asOf > r.start {
      DaysCounted(r, asOf - 1);
    }
  }

  /**
   A rule owes, for every day in force, its daily amount, or its percentage of its base: a
   hundredth of the base for each per cent.
   */
  lemma OwedForDaysInForce(r: Rule, asOf: int)
    requires if r.kind == DailyAmount then r.dailyAmount.Some? else r.percentage.Some? && r.baseValue.Some?
    ensures Exposure(r, asOf) == Ok(Amount(r, asOf))
    ensures var n := DaysInForce(r, r.start, asOf) as real;
      && (r.kind == DailyAmount ==> Amount(r, asOf) == r.dailyAmount.value * n)
      && (r.kind == PercentageOfBase ==> 100.0 * Amount(r, asOf) == r.percentage.value * r.baseValue.value * n)
  {
    SqlAgrees(r, asOf);
    DaysCounted(r, asOf);
    RateTimesDays(r, asOf);
    if r.kind == PercentageOfBase {
      Hundredths(r.percentage.value, r.baseValue.value, Days(r, asOf) as real);
    }
  }

  lemma Hundredths(p: real, b: real, n: real)
    ensures 100.0 * (p / 100.0 * b * n) == p * b * n
  {
    var q := p / 100.0;
    assert 100.0 * q == p;
    assert 100.0 * (q * b * n) == (100.0 * q) * b * n;
  }

  // ---- totals ----

  function Sum(amounts: seq<real>): real {
    if |amounts| == 0 then 0.0 else Sum(Front(amounts)) + Last(amounts)
  }

  /** A rule with the department its obligation is assigned to, if any. */
  datatype Row = Row(department: Option<Id>, rule: Rule)

  function Total(rows: seq<Row>, asOf: int): real {
    if |rows| == 0 then 0.0
    else Total(Front(rows), asOf) + if Last(rows).rule.start <= asOf then Amount(Last(rows).rule, asOf) else 0.0
  }

  /** The same sum over all rules. */
  function TotalOfAll(rows: seq<Row>, asOf: int): real {
    if |rows| == 0 then 0.0 else TotalOfAll(Front(rows), asOf) + Amount(Last(rows).rule, asOf)
  }

  /** Leaving out the rules that start later changes no total. */
  lemma {:induction false} LaterRulesDoNotCount(rows: seq<Row>, asOf: int)
    ensures Total(rows, asOf) == TotalOfAll(rows, asOf)
  {
    if |rows| > 0 {
      LaterRulesDoNotCount(Front(rows), asOf);
      RateTimesDays(Last(rows).rule, asOf);
    }
  }

  /** The rules of each department that started, added up. */
  function ByDepartment(rows: seq<Row>, asOf: int): map<Option<Id>, real> {
    if |rows| == 0 then map[]
    else
      var groups, row := ByDepartment(Front(rows), asOf), Last(rows);
      if row.rule.start > asOf then groups
      else groups[row.department := Amount(row.rule, asOf) + if row.department in groups then groups[row.department] else 0.0]
  }

  /** The rules of one department. */
  function OfDepartment(rows: seq<Row>, d: Option<Id>): seq<Row> {
    if |rows| == 0 then []
    else OfDepartment(Front(rows), d) + if Last(rows).department == d then [Last(rows)] else []
  }

  /** Some rule of the department has started. */
  predicate HasStarted(rows: seq<Row>, d: Option<Id>, asOf: int) {
    exists i :: 0 <= i < |rows| && rows[i].department == d && rows[i].rule.start <= asOf
  }

  lemma StartedExtends(rows: seq<Row>, d: Option<Id>, asOf: int)
    requires |rows| > 0
    ensures HasStarted(rows, d, asOf) <==>
      HasStarted(Front(rows), d, asOf) || (Last(rows).department == d && Last(rows).rule.start <= asOf)
  {
    var p := Front(rows);
    if HasStarted(p, d, asOf) {
      var i :| 0 <= i < |p| && p[i].department == d && p[i].rule.start <= asOf;
      assert rows[i] == p[i];
    }
    if i :| 0 <= i < |rows| - 1 && rows[i].department == d && rows[i].rule.start <= asOf {
      assert p[i] == rows[i];
    }
    assert rows[|rows| - 1] == Last(rows);
  }

  lemma TotalExtends(rows: seq<Row>, row: Row, asOf: int)
    ensures TotalOfAll(rows + [row], asOf) == TotalOfAll(rows, asOf) + Amount(row.rule, asOf)
  {
    assert Front(rows + [row]) == rows;
  }

  /**
   The report has a line for a department exactly if one of its rules has started, and the
   line holds what all rules of that department, and no others, come to.
   */
  lemma {:induction false} DepartmentExactly(rows: seq<Row>, asOf: int, d: Option<Id>)
    ensures d in ByDepartment(rows, asOf) <==> HasStarted(rows, d, asOf)
    ensures d in ByDepartment(rows, asOf) ==> ByDepartment(rows, asOf)[d] == TotalOfAll(OfDepartment(rows, d), asOf)
    ensures d !in ByDepartment(rows, asOf) ==> TotalOfAll(OfDepartment(rows, d), asOf) == 0.0
  {
    if |rows| > 0 {
      var row := Last(rows);
      DepartmentExactly(Front(rows), asOf, d);
      StartedExtends(rows, d, asOf);
      TotalExtends(OfDepartment(Front(rows), d), row, asOf);
      if row.department == d {
        RateTimesDays(row.rule, asOf);
      } else {
        assert OfDepartment(Front(rows), d) + [] == OfDepartment(Front(rows), d);
      }
    }
  }

  /** The filter keeps exactly the rows of the department, each as often as it is there. */
  lemma {:induction false} OfDepartmentExactly(rows: seq<Row>, d: Option<Id>, row: Row)
    ensures multiset(OfDepartment(rows, d))[row] == if row.department == d then multiset(rows)[row] else 0
  {
    if |rows| > 0 {
      OfDepartmentExactly(Front(rows), d, row);
      assert rows == Front(rows) + [Last(rows)];
    }
  }

  /** The amounts of the groups in the order the report lists them. */
  function Listed(groups: map<Option<Id>, real>, order: seq<Option<Id>>): seq<real> {
    if |order| == 0 then []
    else Listed(groups, Front(order)) + [if Last(order) in groups then groups[Last(order)] else 0.0]
  }

  /** Raising one group by an amount raises the sum of a listing by it if the group is listed. */
  lemma {:induction false} ListedUpdate(groups: map<Option<Id>, real>, order: seq<Option<Id>>, d: Option<Id>, x: real)
    requires Distinct(order)
    ensures Sum(Listed(groups[d := x + if d in groups then groups[d] else 0.0], order)) ==
      Sum(Listed(groups, order)) + if d in order then x else 0.0
  {
    if |order| > 0 {
      ListedUpdate(groups, Front(order), d, x);
    }
  }

  /** Every rule is in exactly one department's amount. */
  lemma {:induction false} DepartmentsMakeTotal(rows: seq<Row>, asOf: int, order: seq<Option<Id>>)
    requires Distinct(order) && forall d :: d in ByDepartment(rows, asOf) ==> d in order
    ensures Sum(Listed(ByDepartment(rows, asOf), order)) == Total(rows, asOf)
  {
    if |rows| == 0 {
      NothingListed(order);
    } else {
      var before, row := ByDepartment(Front(rows), asOf), Last(rows);
      forall d | d in before
        ensures d in ByDepartment(rows, asOf)
      {
      }
      DepartmentsMakeTotal(Front(rows), asOf, order);
      if row.rule.start <= asOf {
        ListedUpdate(before, order, row.department, Amount(row.rule, asOf));
        assert row.department in ByDepartment(rows, asOf);
      }
    }
  }

  lemma {:induction false} NothingListed(order: seq<Option<Id>>)
    ensures Sum(Listed(map[], order)) == 0.0
  {
    if |order| > 0 {
      NothingListed(Front(order));
    }
  }

  // ---- rounding ----

  /** Decimal.quantize to cents: to the nearest, ties to the even cent. */
  function Quantize(x: real): real {
    Cents(x) as real / 100.0
  }

  function Cents(x: real): int {
    var low := (x * 100.0).Floor;
    var rest := x * 100.0 - low as real;
    if rest < 0.5 || (rest == 0.5 && low % 2 == 0) then low else low + 1
  }

  /** Rounding goes to the nearest cent, and from the middle between two to the even one. */
  lemma NearestCent(x: real)
    ensures -0.5 <= x * 100.0 - Cents(x) as real <= 0.5
    ensures x * 100.0 - Cents(x) as real == 0.5 || x * 100.0 - Cents(x) as real == -0.5 ==> Cents(x) % 2 == 0
    ensures Quantize(x) * 100.0 == Cents(x) as real
  {
    var low := (x * 100.0).Floor;
    assert low as real <= x * 100.0 < low as real + 1.0;
    assert (low + 1) as real == low as real + 1.0;
  }

  /** Rounding moves a value by half a cent at most. */
  lemma Rounded(x: real)
    ensures -0.005 <= Quantize(x) - x <= 0.005
  {
    var low := (x * 100.0).Floor;
    assert low as real <= x * 100.0 < low as real + 1.0;
  }

  /** It moves an exact number of cents not at all. */
  lemma RoundedCents(x: real, n: int)
    requires x * 100.0 == n as real
    ensures Quantize(x) == x
  {
    assert (x * 100.0).Floor == n;
  }

  function RoundedAll(amounts: seq<real>): seq<real> {
    if |amounts| == 0 then [] else RoundedAll(Front(amounts)) + [Quantize(Last(amounts))]
  }

  lemma {:induction false} SumOfRounded(amounts: seq<real>)
    ensures |RoundedAll(amounts)| == |amounts|
    ensures -0.005 * |amounts| as real <= Sum(RoundedAll(amounts)) - Sum(amounts) <= 0.005 * |amounts| as real
  {
    if |amounts| > 0 {
      SumOfRounded(Front(amounts));
      Rounded(Last(amounts));
    }
  }

  lemma {:induction false} ListedLength(groups: map<Option<Id>, real>, order: seq<Option<Id>>)
    ensures |Listed(groups, order)| == |order|
  {
    if |order| > 0 {
      ListedLength(groups, Front(order));
    }
  }

  /**
   The rounded department amounts of the report add up to the rounded total within half a
   cent for each department and one more for the total.
   */
  lemma ReportAddsUp(rows: seq<Row>, asOf: int, order: seq<Option<Id>>)
    requires Distinct(order) && forall d :: d in ByDepartment(rows, asOf) ==> d in order
    ensures var difference := Sum(RoundedAll(Listed(ByDepartment(rows, asOf), order))) - Quantize(Total(rows, asOf));
      -0.005 * (|order| + 1) as real <= difference <= 0.005 * (|order| + 1) as real
  {
    var amounts := Listed(ByDepartment(rows, asOf), order);
    DepartmentsMakeTotal(rows, asOf, order);
    ListedLength(ByDepartment(rows, asOf), order);
    SumOfRounded(amounts);
    Rounded(Total(rows, asOf));
  }

  predicate WholeCents(x: real) {
    x == Quantize(x)
  }

  lemma SumOfCents(x: real, y: real)
    requires WholeCents(x) && WholeCents(y)
    ensures WholeCents(x + y)
  {
    var n := Cents(x) + Cents(y);
    assert (x + y) * 100.0 == n as real;
    RoundedCents(x + y, n);
  }

  lemma {:induction false} CentsAddUp(amounts: seq<real>)
    requires forall i :: 0 <= i < |amounts| ==> WholeCents(amounts[i])
    ensures WholeCents(Sum(amounts)) && Sum(RoundedAll(amounts)) == Sum(amounts)
  {
    if |amounts| == 0 {
      RoundedCents(0.0, 0);
    } else {
      CentsAddUp(Front(amounts));
      assert Last(amounts) == amounts[|amounts| - 1];
      SumOfCents(Sum(Front(amounts)), Last(amounts));
    }
  }

  /** The report adds up to the cent if no department's amount has a fraction of a cent. */
  lemma WholeCentsAddUpExactly(rows: seq<Row>, asOf: int, order: seq<Option<Id>>)
    requires Distinct(order) && forall d :: d in ByDepartment(rows, asOf) ==> d in order
    requires var amounts := Listed(ByDepartment(rows, asOf), order);
      forall i :: 0 <= i < |amounts| ==> WholeCents(amounts[i])
    ensures Sum(RoundedAll(Listed(ByDepartment(rows, asOf), order))) == Quantize(Total(rows, asOf))
  {
    DepartmentsMakeTotal(rows, asOf, order);
    CentsAddUp(Listed(ByDepartment(rows, asOf), order));
  }
}
