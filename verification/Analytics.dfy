/**
 The monthly activity chart: the database counts obligations active at the start of the
 period and, per month, those created and those closed; a loop carries the active count
 along. The chart is compared with counting the active obligations directly.
 */
module MonthlyActivity {
  import opened Common

  datatype Calendar = Calendar(year: nat, month: nat, day: nat)

  type Date = d: Calendar | 1 <= d.year <= 9999 && 1 <= d.month <= 12 && 1 <= d.day <= 31 witness Calendar(1, 1, 1)

  /** An obligation with the dates of its changes to a terminal status. */
  datatype Obligation = Obligation(created: Date, closings: seq<Date>)

  datatype Point = Point(month: Date, created: nat, completed: nat, activeAtEnd: nat)

  function Index(d: Calendar): int {
    d.year * 12 + d.month - 1
  }

  predicate NotAfter(a: Date, b: Date) {
    Index(a) < Index(b) || (Index(a) == Index(b) && a.day <= b.day)
  }

  function MonthStart(d: Date): Date {
    d.(day := 1)
  }

  /** A month outside the years a date can have is an error. */
  function ShiftMonth(d: Date, months: int): Option<Date> {
    var index := Index(d) + months;
    if 1 <= index / 12 <= 9999 then Some(Calendar(index / 12, index % 12 + 1, 1)) else None
  }

  /** Shifting moves the month index by exactly the months asked for, to the first of the month. */
  lemma ShiftExact(d: Date, months: int)
    ensures ShiftMonth(d, months).Some? <==> 12 <= Index(d) + months <= 119999
    ensures ShiftMonth(d, months).Some? ==>
      Index(ShiftMonth(d, months).value) == Index(d) + months && ShiftMonth(d, months).value.day == 1
  {
  }

  /** Two months with the same index start on the same date. */
  lemma IndexInjective(a: Date, b: Date)
    requires Index(a) == Index(b)
    ensures a.year == b.year && a.month == b.month
  {
  }

  // ---- the queries ----

  predicate InPeriod(d: Date, from: Date, to: Date) {
    NotAfter(from, d) && NotAfter(d, to)
  }

  /** The earliest closing of the history. */
  function Terminal(closings: seq<Date>): Option<Date> {
    if |closings| == 0 then None
    else match Terminal(Front(closings))
         case None => Some(Last(closings))
         case Some(d) => if NotAfter(d, Last(closings)) then Some(d) else Some(Last(closings))
  }

  function Get(table: map<Date, nat>, month: Date): nat {
    if month in table then table[month] else 0
  }

  /** Counts the dates of the period grouped by month; months without any have no row. */
  function GroupByMonth(dates: seq<Option<Date>>, from: Date, to: Date): map<Date, nat> {
    if |dates| == 0 then map[]
    else
      var table, d := GroupByMonth(Front(dates), from, to), Last(dates);
      if d.Some? && InPeriod(d.value, from, to) then table[MonthStart(d.value) := Get(table, MonthStart(d.value)) + 1]
      else table
  }

  function CreatedDates(rows: seq<Obligation>): seq<Option<Date>> {
    if |rows| == 0 then [] else CreatedDates(Front(rows)) + [Some(Last(rows).created)]
  }

  function TerminalDates(rows: seq<Obligation>): seq<Option<Date>> {
    if |rows| == 0 then [] else TerminalDates(Front(rows)) + [Terminal(Last(rows).closings)]
  }

  predicate ActiveAtStart(o: Obligation, from: Date) {
    !NotAfter(from, o.created) && (Terminal(o.closings).None? || NotAfter(from, Terminal(o.closings).value))
  }

  function InitialActive(rows: seq<Obligation>, from: Date): nat {
    if |rows| == 0 then 0 else InitialActive(Front(rows), from) + One(ActiveAtStart(Last(rows), from))
  }

  function One(b: bool): nat {
    if b then 1 else 0
  }

  // ---- the loop ----

  /** What the queries hand to the loop. */
  datatype Counts = Counts(initial: nat, created: map<Date, nat>, terminal: map<Date, nat>)

  /** The running sum without the clamp, after `n` months. */
  function Running(c: Counts, from: Date, n: nat): int {
    if n == 0 then c.initial
    else Running(c, from, n - 1) + Change(c, ShiftMonth(from, n - 1))
  }

  function Change(c: Counts, month: Option<Date>): int {
    if month.None? then 0 else Get(c.created, month.value) - Get(c.terminal, month.value)
  }

  /** The least of zero and the running sums up to `n`. */
  function Lowest(c: Counts, from: Date, n: nat): int {
    if n == 0 then 0 else Min(Lowest(c, from, n - 1), Running(c, from, n))
  }

  /** The chart's point for the month `k` months after the first. */
  predicate PointExact(c: Counts, from: Date, k: nat, p: Point) {
    && ShiftMonth(from, k) == Some(p.month)
    && p.created == Get(c.created, p.month) && p.completed == Get(c.terminal, p.month)
    && p.activeAtEnd == Running(c, from, k + 1) - Lowest(c, from, k + 1)
  }

  /** One turn of the loop keeps the clamped count on its formula. */
  lemma Clamped(c: Counts, from: Date, n: nat, month: Date)
    requires ShiftMonth(from, n) == Some(month)
    ensures Max(0, Running(c, from, n) - Lowest(c, from, n) + Get(c.created, month) - Get(c.terminal, month)) ==
      Running(c, from, n + 1) - Lowest(c, from, n + 1)
  {
  }

  /** The first of a month is what shifting the first month by their distance gives. */
  lemma MonthReached(from: Date, n: nat, current: Date)
    requires current.day == 1 && Index(current) == Index(from) + n
    ensures ShiftMonth(from, n) == Some(current)
    ensures ShiftMonth(current, 1).None? <==> Index(current) == 119999
    ensures ShiftMonth(current, 1).Some? ==>
      ShiftMonth(current, 1).value.day == 1 && Index(ShiftMonth(current, 1).value) == Index(current) + 1
  {
    ShiftExact(from, n);
    ShiftExact(current, 1);
    IndexInjective(current, ShiftMonth(from, n).value);
  }

  /**
   The loop of the chart. For arbitrary inputs the count of each month is the running sum
   raised by how far the sums have fallen below zero so far. It fails only in the last
   month a date can have, when it steps beyond it.
   */
  method MonthlyPoints(from: Date, to: Date, c: Counts) returns (points: Option<seq<Point>>)
    requires NotAfter(from, to)
    ensures points.None? <==> Index(to) == 119999
    ensures points.Some? ==>
      && |points.value| == Index(to) - Index(from) + 1
      && forall k :: 0 <= k < |points.value| ==> PointExact(c, from, k, points.value[k])
  {
    var listed: seq<Point> := [];
    var active: nat := c.initial;
    var current := MonthStart(from);
    var final := MonthStart(to);
    while NotAfter(current, final)
      invariant current.day == 1 && Index(current) == Index(from) + |listed| <= Index(to) + 1
      invariant active == Running(c, from, |listed|) - Lowest(c, from, |listed|)
      invariant forall k :: 0 <= k < |listed| ==> PointExact(c, from, k, listed[k])
      decreases Index(to) + 1 - Index(current)
    {
      MonthReached(from, |listed|, current);
      Clamped(c, from, |listed|, current);
      var made, closed := Get(c.created, current), Get(c.terminal, current);
      active := Max(0, active + made - closed);
      listed := listed + [Point(current, made, closed, active)];
      var next := ShiftMonth(current, 1);
      if next.None? {
        return None;
      }
      current := next.value;
    }
    points := Some(listed);
  }

  // ---- counting directly ----

  /** Created, or closed, by the end of the month with index `last`, capped at the period's end. */
  predicate Within(d: Date, to: Date, last: int) {
    NotAfter(d, to) && Index(d) <= last
  }

  predicate ActiveAt(o: Obligation, to: Date, last: int) {
    Within(o.created, to, last) && forall i :: 0 <= i < |o.closings| ==> !Within(o.closings[i], to, last)
  }

  function DirectCount(rows: seq<Obligation>, to: Date, last: int): nat {
    if |rows| == 0 then 0 else DirectCount(Front(rows), to, last) + One(ActiveAt(Last(rows), to, last))
  }

  /** Records that contradict themselves: closed before the period, created in it. */
  predicate ClosedEarly(o: Obligation, from: Date, to: Date, last: int) {
    && NotAfter(from, o.created) && Within(o.created, to, last)
    && Terminal(o.closings).Some? && !NotAfter(from, Terminal(o.closings).value)
  }

  /** Closed in the period, but not created by the end of the month. */
  predicate NotYetCreated(o: Obligation, from: Date, to: Date, last: int) {
    && !Within(o.created, to, last)
    && Terminal(o.closings).Some? && NotAfter(from, Terminal(o.closings).value) && Within(Terminal(o.closings).value, to, last)
  }

  function Early(rows: seq<Obligation>, from: Date, to: Date, last: int): nat {
    if |rows| == 0 then 0 else Early(Front(rows), from, to, last) + One(ClosedEarly(Last(rows), from, to, last))
  }

  function Late(rows: seq<Obligation>, from: Date, to: Date, last: int): nat {
    if |rows| == 0 then 0 else Late(Front(rows), from, to, last) + One(NotYetCreated(Last(rows), from, to, last))
  }

  /** How many dates of the period lie in months up to `last`. */
  function CountUpTo(dates: seq<Option<Date>>, from: Date, to: Date, last: int): nat {
    if |dates| == 0 then 0
    else
      CountUpTo(Front(dates), from, to, last) +
      One(Last(dates).Some? && InPeriod(Last(dates).value, from, to) && Index(Last(dates).value) <= last)
  }

  /** A month's group is the difference of the counts up to it and up to the month before. */
  lemma {:induction false} GroupExact(dates: seq<Option<Date>>, from: Date, to: Date, month: Date)
    requires month.day == 1
    ensures Get(GroupByMonth(dates, from, to), month) ==
      CountUpTo(dates, from, to, Index(month)) - CountUpTo(dates, from, to, Index(month) - 1)
  {
    if |dates| > 0 {
      GroupExact(Front(dates), from, to, month);
      if Last(dates).Some? && Index(Last(dates).value) == Index(month) {
        IndexInjective(Last(dates).value, month);
      }
    }
  }

  lemma {:induction false} NothingBefore(dates: seq<Option<Date>>, from: Date, to: Date)
    ensures CountUpTo(dates, from, to, Index(from) - 1) == 0
  {
    if |dates| > 0 {
      NothingBefore(Front(dates), from, to);
    }
  }

  /** The three queries of the chart. */
  function MonthlyCounts(rows: seq<Obligation>, from: Date, to: Date): Counts {
    Counts(InitialActive(rows, from), GroupByMonth(CreatedDates(rows), from, to), GroupByMonth(TerminalDates(rows), from, to))
  }

  /** The running sum is the initial count plus what was created minus what was closed. */
  lemma {:induction false} RunningCounts(rows: seq<Obligation>, from: Date, to: Date, n: nat)
    requires Index(from) + n <= 120000
    ensures Running(MonthlyCounts(rows, from, to), from, n) == InitialActive(rows, from)
      + CountUpTo(CreatedDates(rows), from, to, Index(from) + n - 1) - CountUpTo(TerminalDates(rows), from, to, Index(from) + n - 1)
  {
    if n == 0 {
      NothingBefore(CreatedDates(rows), from, to);
      NothingBefore(TerminalDates(rows), from, to);
    } else {
      RunningCounts(rows, from, to, n - 1);
      ShiftExact(from, n - 1);
      var month := ShiftMonth(from, n - 1).value;
      GroupExact(CreatedDates(rows), from, to, month);
      GroupExact(TerminalDates(rows), from, to, month);
    }
  }

  /** The first closing is within a month's end exactly if some closing is. */
  lemma {:induction false} TerminalFirst(closings: seq<Date>, to: Date, last: int)
    ensures (Terminal(closings).Some? && Within(Terminal(closings).value, to, last)) <==>
      exists i :: 0 <= i < |closings| && Within(closings[i], to, last)
  {
    if |closings| > 0 {
      TerminalFirst(Front(closings), to, last);
      if exists i :: 0 <= i < |Front(closings)| && Within(Front(closings)[i], to, last) {
        var i :| 0 <= i < |Front(closings)| && Within(Front(closings)[i], to, last);
        assert Within(closings[i], to, last);
      }
      forall i | 0 <= i < |closings| && Within(closings[i], to, last)
        ensures i == |closings| - 1 || Within(Front(closings)[i], to, last)
      {
      }
    }
  }

  /** One obligation's share of the running sum, against whether it is active. */
  lemma Share(o: Obligation, from: Date, to: Date, last: int)
    requires Index(from) <= last && NotAfter(from, to)
    ensures var t := Terminal(o.closings);
      One(ActiveAtStart(o, from))
      + One(InPeriod(o.created, from, to) && Index(o.created) <= last)
      - One(t.Some? && InPeriod(t.value, from, to) && Index(t.value) <= last)
      == One(ActiveAt(o, to, last)) + One(ClosedEarly(o, from, to, last)) - One(NotYetCreated(o, from, to, last))
  {
    TerminalFirst(o.closings, to, last);
  }

  lemma {:induction false} SharesAddUp(rows: seq<Obligation>, from: Date, to: Date, last: int)
    requires Index(from) <= last && NotAfter(from, to)
    ensures InitialActive(rows, from) + CountUpTo(CreatedDates(rows), from, to, last) - CountUpTo(TerminalDates(rows), from, to, last)
      == DirectCount(rows, to, last) + Early(rows, from, to, last) - Late(rows, from, to, last)
  {
    if |rows| > 0 {
      SharesAddUp(Front(rows), from, to, last);
      Share(Last(rows), from, to, last);
      assert Front(CreatedDates(rows)) == CreatedDates(Front(rows));
      assert Front(TerminalDates(rows)) == TerminalDates(Front(rows));
    }
  }

  /**
   For arbitrary records, the running sum of a month is the direct count plus the
   obligations of the period closed before it, minus those closed but not created yet.
   */
  lemma RunningAgainstDirect(rows: seq<Obligation>, from: Date, to: Date, n: nat)
    requires NotAfter(from, to) && 1 <= n <= Index(to) - Index(from) + 1
    ensures var last := Index(from) + n - 1;
      Running(MonthlyCounts(rows, from, to), from, n) ==
        DirectCount(rows, to, last) + Early(rows, from, to, last) - Late(rows, from, to, last)
  {
    RunningCounts(rows, from, to, n);
    SharesAddUp(rows, from, to, Index(from) + n - 1);
  }

  /** No obligation becomes terminal before it is created. */
  predicate Sound(rows: seq<Obligation>) {
    forall i, j :: 0 <= i < |rows| && 0 <= j < |rows[i].closings| ==> NotAfter(rows[i].created, rows[i].closings[j])
  }

  lemma {:induction false} TerminalListed(closings: seq<Date>)
    requires Terminal(closings).Some?
    ensures exists i :: 0 <= i < |closings| && closings[i] == Terminal(closings).value
  {
    if Terminal(closings).value == Last(closings) {
      assert closings[|closings| - 1] == Last(closings);
    } else {
      TerminalListed(Front(closings));
      var i :| 0 <= i < |Front(closings)| && Front(closings)[i] == Terminal(closings).value;
      assert closings[i] == Terminal(closings).value;
    }
  }

  lemma {:induction false} SoundHasNone(rows: seq<Obligation>, from: Date, to: Date, last: int)
    requires Sound(rows)
    ensures Early(rows, from, to, last) == 0 && Late(rows, from, to, last) == 0
  {
    if |rows| > 0 {
      var o := Last(rows);
      assert o == rows[|rows| - 1];
      SoundHasNone(Front(rows), from, to, last);
      if Terminal(o.closings).Some? {
        TerminalListed(o.closings);
      }
    }
  }

  lemma {:induction false} NeverBelowZero(rows: seq<Obligation>, from: Date, to: Date, n: nat)
    requires Sound(rows) && NotAfter(from, to) && n <= Index(to) - Index(from) + 1
    ensures Lowest(MonthlyCounts(rows, from, to), from, n) == 0
  {
    if n > 0 {
      NeverBelowZero(rows, from, to, n - 1);
      RunningAgainstDirect(rows, from, to, n);
      SoundHasNone(rows, from, to, Index(from) + n - 1);
    }
  }

  /** The direct count with the contradictory records on top. */
  function Balance(rows: seq<Obligation>, from: Date, to: Date, last: int): int {
    DirectCount(rows, to, last) + Early(rows, from, to, last) - Late(rows, from, to, last)
  }

  /** How far the balances of the first `n` months fall below zero. */
  function Shortfall(rows: seq<Obligation>, from: Date, to: Date, n: nat): int {
    if n == 0 then 0 else Min(Shortfall(rows, from, to, n - 1), Balance(rows, from, to, Index(from) + n - 1))
  }

  lemma {:induction false} LowestIsShortfall(rows: seq<Obligation>, from: Date, to: Date, n: nat)
    requires NotAfter(from, to) && n <= Index(to) - Index(from) + 1
    ensures Lowest(MonthlyCounts(rows, from, to), from, n) == Shortfall(rows, from, to, n)
  {
    if n > 0 {
      LowestIsShortfall(rows, from, to, n - 1);
      RunningAgainstDirect(rows, from, to, n);
    }
  }

  /** The formula of a month's point, in terms of the records. */
  lemma FormulaAgainstDirect(rows: seq<Obligation>, from: Date, to: Date, k: nat)
    requires NotAfter(from, to) && k <= Index(to) - Index(from)
    ensures var c, last := MonthlyCounts(rows, from, to), Index(from) + k;
      Running(c, from, k + 1) - Lowest(c, from, k + 1) == Balance(rows, from, to, last) - Shortfall(rows, from, to, k + 1)
  {
    RunningAgainstDirect(rows, from, to, k + 1);
    LowestIsShortfall(rows, from, to, k + 1);
  }

  /** Sound records have nothing on top and never fall short. */
  lemma SoundFormula(rows: seq<Obligation>, from: Date, to: Date, k: nat)
    requires Sound(rows) && NotAfter(from, to) && k <= Index(to) - Index(from)
    ensures Balance(rows, from, to, Index(from) + k) == DirectCount(rows, to, Index(from) + k)
    ensures Shortfall(rows, from, to, k + 1) == 0
  {
    SoundHasNone(rows, from, to, Index(from) + k);
    NeverBelowZero(rows, from, to, k + 1);
    LowestIsShortfall(rows, from, to, k + 1);
  }

  // ---- what was created and closed in a month ----

  /** Created in the month, and within the period. */
  predicate CreatedIn(o: Obligation, from: Date, to: Date, month: int) {
    NotAfter(from, o.created) && NotAfter(o.created, to) && o.created.year * 12 + o.created.month - 1 == month
  }

  /** Closed for the first time in the month, and within the period. */
  predicate FirstClosedIn(o: Obligation, from: Date, to: Date, month: int) {
    exists j :: 0 <= j < |o.closings| && IsFirst(o.closings, j)
      && NotAfter(from, o.closings[j]) && NotAfter(o.closings[j], to) && o.closings[j].year * 12 + o.closings[j].month - 1 == month
  }

  predicate IsFirst(closings: seq<Date>, j: nat)
    requires j < |closings|
  {
    forall i :: 0 <= i < |closings| ==> NotAfter(closings[j], closings[i])
  }

  function CountCreated(rows: seq<Obligation>, from: Date, to: Date, month: int): nat {
    if |rows| == 0 then 0 else CountCreated(Front(rows), from, to, month) + One(CreatedIn(Last(rows), from, to, month))
  }

  function CountClosed(rows: seq<Obligation>, from: Date, to: Date, month: int): nat {
    if |rows| == 0 then 0 else CountClosed(Front(rows), from, to, month) + One(FirstClosedIn(Last(rows), from, to, month))
  }

  /** One date's share of a month's group. */
  lemma GroupExtends(dates: seq<Option<Date>>, from: Date, to: Date, month: Date)
    requires |dates| > 0 && month.day == 1
    ensures Get(GroupByMonth(dates, from, to), month) == Get(GroupByMonth(Front(dates), from, to), month) +
      One(Last(dates).Some? && InPeriod(Last(dates).value, from, to) && Index(Last(dates).value) == Index(month))
  {
    if Last(dates).Some? && Index(Last(dates).value) == Index(month) {
      IndexInjective(Last(dates).value, month);
    }
  }

  lemma {:induction false} CreatedGroup(rows: seq<Obligation>, from: Date, to: Date, month: Date)
    requires month.day == 1
    ensures Get(GroupByMonth(CreatedDates(rows), from, to), month) == CountCreated(rows, from, to, Index(month))
  {
    if |rows| > 0 {
      CreatedGroup(Front(rows), from, to, month);
      GroupExtends(CreatedDates(rows), from, to, month);
      assert Front(CreatedDates(rows)) == CreatedDates(Front(rows));
    }
  }

  /** The earliest closing is a closing that none comes before. */
  lemma {:induction false} TerminalIsFirst(closings: seq<Date>) returns (j: nat)
    requires |closings| > 0
    ensures j < |closings| && Terminal(closings) == Some(closings[j]) && IsFirst(closings, j)
  {
    var n := |closings| - 1;
    assert Terminal(Front(closings)).None? <==> |Front(closings)| == 0;
    if n == 0 || !NotAfter(Terminal(Front(closings)).value, Last(closings)) {
      j := n;
      if n > 0 {
        var k := TerminalIsFirst(Front(closings));
        forall i | 0 <= i < n
          ensures NotAfter(closings[n], closings[i])
        {
          assert Front(closings)[i] == closings[i];
        }
      }
    } else {
      j := TerminalIsFirst(Front(closings));
      forall i | 0 <= i < n
        ensures NotAfter(closings[j], closings[i])
      {
        assert Front(closings)[i] == closings[i];
      }
    }
  }

  lemma FirstClosed(o: Obligation, from: Date, to: Date, month: int)
    ensures FirstClosedIn(o, from, to, month) <==>
      Terminal(o.closings).Some? && InPeriod(Terminal(o.closings).value, from, to) && Index(Terminal(o.closings).value) == month
  {
    if |o.closings| > 0 {
      var j := TerminalIsFirst(o.closings);
      forall i | 0 <= i < |o.closings| && IsFirst(o.closings, i)
        ensures Index(o.closings[i]) == Index(o.closings[j]) && o.closings[i].day == o.closings[j].day
      {
        assert NotAfter(o.closings[i], o.closings[j]) && NotAfter(o.closings[j], o.closings[i]);
      }
    }
  }

  lemma {:induction false} ClosedGroup(rows: seq<Obligation>, from: Date, to: Date, month: Date)
    requires month.day == 1
    ensures Get(GroupByMonth(TerminalDates(rows), from, to), month) == CountClosed(rows, from, to, Index(month))
  {
    if |rows| > 0 {
      ClosedGroup(Front(rows), from, to, month);
      GroupExtends(TerminalDates(rows), from, to, month);
      assert Front(TerminalDates(rows)) == TerminalDates(Front(rows));
      FirstClosed(Last(rows), from, to, Index(month));
    }
  }

  /** Dates are ordered by year, month and day. */
  lemma DatesOrdered(a: Date, b: Date)
    ensures NotAfter(a, b) <==> a.year < b.year || (a.year == b.year && (a.month < b.month || (a.month == b.month && a.day <= b.day)))
  {
  }

  /** A point against the direct counts of its month. */
  predicate PointAgainstDirect(rows: seq<Obligation>, from: Date, to: Date, k: nat, p: Point) {
    var last := Index(from) + k;
    && ShiftMonth(from, k) == Some(p.month)
    && p.created == CountCreated(rows, from, to, last) && p.completed == CountClosed(rows, from, to, last)
    && p.activeAtEnd == Balance(rows, from, to, last) - Shortfall(rows, from, to, k + 1)
    && (p.activeAtEnd == DirectCount(rows, to, last) <==>
          Early(rows, from, to, last) - Late(rows, from, to, last) == Shortfall(rows, from, to, k + 1))
    && (Sound(rows) ==> p.activeAtEnd == DirectCount(rows, to, last))
  }

  lemma PointHolds(rows: seq<Obligation>, from: Date, to: Date, k: nat, p: Point)
    requires NotAfter(from, to) && k <= Index(to) - Index(from) && PointExact(MonthlyCounts(rows, from, to), from, k, p)
    ensures PointAgainstDirect(rows, from, to, k, p)
  {
    FormulaAgainstDirect(rows, from, to, k);
    PointCounts(rows, from, to, k, p);
    if Sound(rows) {
      SoundFormula(rows, from, to, k);
    }
  }

  lemma PointCounts(rows: seq<Obligation>, from: Date, to: Date, k: nat, p: Point)
    requires PointExact(MonthlyCounts(rows, from, to), from, k, p)
    ensures p.created == CountCreated(rows, from, to, Index(from) + k)
    ensures p.completed == CountClosed(rows, from, to, Index(from) + k)
  {
    ShiftExact(from, k);
    var month := p.month;
    assert month.day == 1 && Index(month) == Index(from) + k;
    assert p.created == Get(GroupByMonth(CreatedDates(rows), from, to), month);
    assert p.completed == Get(GroupByMonth(TerminalDates(rows), from, to), month);
    CreatedGroup(rows, from, to, month);
    ClosedGroup(rows, from, to, month);
  }

  /**
   The chart of the stored obligations. A month's created and completed counts are the numbers
   of obligations created, and closed for the first time, in that month of the period.
   The active count of a month is the number of
   obligations created by its end, or the period's end if that is earlier, and not closed by
   then, plus those closed before the period they were created in, minus those closed and not
   created yet, raised by how far such sums have fallen short: so it is the direct count if
   and only if these cancel, and always if no obligation was closed before it was created.
   */
  method Chart(rows: seq<Obligation>, from: Date, to: Date) returns (points: Option<seq<Point>>)
    requires NotAfter(from, to)
    ensures points.None? <==> Index(to) == 119999
    ensures points.Some? ==> |points.value| == Index(to) - Index(from) + 1
    ensures points.Some? ==> forall k :: 0 <= k < |points.value| ==> PointAgainstDirect(rows, from, to, k, points.value[k])
  {
    points := MonthlyPoints(from, to, MonthlyCounts(rows, from, to));
    if points.Some? {
      forall k | 0 <= k < |points.value|
        ensures PointAgainstDirect(rows, from, to, k, points.value[k])
      {
        PointHolds(rows, from, to, k, points.value[k]);
      }
    }
  }

  /**
   It does differ: an obligation created on 20 January and recorded as closed on the 5th shows
   as active in a chart that starts on the 10th, and is not.
   */
  lemma ChartDiffers()
    ensures var from, to := Calendar(2024, 1, 10), Calendar(2024, 1, 31);
      var rows := [Obligation(Calendar(2024, 1, 20), [Calendar(2024, 1, 5)])];
      && Balance(rows, from, to, Index(from)) - Shortfall(rows, from, to, 1) == 1
      && DirectCount(rows, to, Index(from)) == 0
  {
    var from: Date, to: Date := Calendar(2024, 1, 10), Calendar(2024, 1, 31);
    var created: Date, closed: Date := Calendar(2024, 1, 20), Calendar(2024, 1, 5);
    var o := Obligation(created, [closed]);
    assert ClosedEarly(o, from, to, Index(from)) && !NotYetCreated(o, from, to, Index(from)) by {
      OneClosing(closed);
    }
    assert !ActiveAt(o, to, Index(from)) by {
      assert o.closings[0] == closed && Within(closed, to, Index(from));
    }
    OneRecord(o, from, to, Index(from));
    assert Shortfall([o], from, to, 0) == 0 && Shortfall([o], from, to, 1) == Min(0, Balance([o], from, to, Index(from)));
  }

  lemma OneClosing(closed: Date)
    ensures Terminal([closed]) == Some(closed)
  {
    assert Front([closed]) == [];
  }

  lemma OneRecord(o: Obligation, from: Date, to: Date, last: int)
    ensures DirectCount([o], to, last) == One(ActiveAt(o, to, last))
    ensures Early([o], from, to, last) == One(ClosedEarly(o, from, to, last))
    ensures Late([o], from, to, last) == One(NotYetCreated(o, from, to, last))
  {
    assert Front([o]) == [];
  }
}
