/**
 What a contract's calls accept and what they write, in terms of the calls alone: which
 calls go through, which field an update sets, and where every field of a contract comes
 from after any calls.
 */
module ContractFields {
  import opened Common
  import opened ContractService

  // ---- which calls go through ----

  /** The status changes the service allows. */
  const ALLOWED: set<(Standing, Standing)> := {
    (Draft, InReview), (Draft, Cancelled),
    (InReview, Draft), (InReview, Active), (InReview, Cancelled),
    (Active, Suspended), (Active, Completed), (Active, Terminated),
    (Suspended, Active), (Suspended, Terminated)}

  /** No committed event has this id. */
  predicate NewId(s: State, id: Id) {
    forall e :: e in s.outbox ==> e.id != id
  }

  lemma NewIdIsFresh(s: State, id: Id)
    ensures NewId(s, id) <==> FreshId(s, id)
  {
    forall e | e in s.outbox && FreshId(s, id)
      ensures e.id != id
    {
      var i :| 0 <= i < |s.outbox| && s.outbox[i] == e;
    }
  }

  /** A status change goes through exactly if it is allowed from the current status. */
  lemma StatusAccepted(s: State, to: Standing, commit: Commit)
    ensures ChangeStatus(s, to, commit).Ok? <==> (s.row.status, to) in ALLOWED && NewId(s, commit.eventId)
    ensures ChangeStatus(s, to, commit) == Err(InvalidTransition) <==> (s.row.status, to) !in ALLOWED
    ensures ChangeStatus(s, to, commit).Ok? ==>
      var t := ChangeStatus(s, to, commit).value;
      t.row == s.row.(status := to) && t.history == s.history + [Transition(s.row.status, to)]
  {
    NewIdIsFresh(s, commit.eventId);
  }

  predicate Letters(c: string) {
    |c| == 3 && forall i :: 0 <= i < 3 ==> 'A' <= c[i] <= 'Z' || c[i] > '\U{7F}'
  }

  /** What creation demands, field by field. */
  lemma CreationAccepted(tenant: Id, id: Id, data: Contract, numberTaken: bool, commit: Commit)
    ensures Create(tenant, id, data, numberTaken, commit).Ok? <==>
      && !numberTaken
      && 1 <= |data.number| <= 100 && 1 <= |data.title| <= 500
      && 0 < data.cents < 1_000_000_000_000_000_000 && Letters(data.currency)
      && data.startDate <= data.endDate && (data.signedDate.None? || data.signedDate.value <= data.endDate)
      && data.status == Draft
    ensures Create(tenant, id, data, numberTaken, commit).Ok? ==>
      var s := Create(tenant, id, data, numberTaken, commit).value;
      s.tenant == tenant && s.id == id && s.row == data && s.history == []
  {
  }

  /** The value a field has after a change: the one it is set to, or the one it had. */
  predicate Becomes<T(==)>(change: Change<T>, before: Option<T>, after: Option<T>) {
    match change
    case Keep => after == before
    case Set(value) => after == value
  }

  /** What an update asks for, with fields that it leaves as they are in the row. */
  predicate Requested(row: Contract, ch: Changes, to: Contract) {
    && Becomes(ch.title, Some(row.title), Some(to.title))
    && Becomes(ch.description, row.description, to.description)
    && Becomes(ch.cents, Some(row.cents), Some(to.cents))
    && Becomes(ch.currency, Some(row.currency), Some(to.currency))
    && Becomes(ch.signedDate, row.signedDate, to.signedDate)
    && Becomes(ch.startDate, Some(row.startDate), Some(to.startDate))
    && Becomes(ch.endDate, Some(row.endDate), Some(to.endDate))
    && Becomes(ch.departmentId, row.departmentId, to.departmentId)
    && Becomes(ch.responsibleUserId, row.responsibleUserId, to.responsibleUserId)
    && to.number == row.number && to.status == row.status
  }

  /** What an update sets must be acceptable by itself. */
  ghost predicate WellFormed(ch: Changes) {
    && (forall title :: ch.title == Set(Some(title)) ==> 1 <= |title| <= 500)
    && (forall cents :: ch.cents == Set(Some(cents)) ==> 0 < cents < 1_000_000_000_000_000_000)
    && (forall currency :: ch.currency == Set(Some(currency)) ==> Letters(currency))
  }

  lemma WellFormedIsValid(ch: Changes)
    ensures WellFormed(ch) <==> ValidChanges(ch)
  {
    if WellFormed(ch) {
      if ch.title.Set? && ch.title.value.Some? {
        assert ch.title == Set(Some(ch.title.value.value));
      }
      if ch.cents.Set? && ch.cents.value.Some? {
        assert ch.cents == Set(Some(ch.cents.value.value));
      }
      if ch.currency.Set? && ch.currency.value.Some? {
        assert ch.currency == Set(Some(ch.currency.value.value));
      }
    }
  }

  predicate InOrder(c: Contract) {
    c.startDate <= c.endDate && (c.signedDate.Some? ==> c.signedDate.value <= c.endDate)
  }

  /**
   A committed update sets every field it gives to the value given, null included, and leaves
   every other field, the number, the status and the history as they were.
   */
  lemma UpdateSets(s: State, ch: Changes, commit: Commit)
    requires Update(s, ch, commit).Ok?
    ensures var t := Update(s, ch, commit).value;
      Requested(s.row, ch, t.row) && t.history == s.history && t.tenant == s.tenant && t.id == s.id
  {
  }

  /**
   An update goes through exactly if what it sets is well formed and there is a row with
   its fields set as asked, none of the required ones to null, and with its dates in order.
   */
  lemma UpdateAccepted(s: State, ch: Changes, commit: Commit)
    ensures Update(s, ch, commit).Ok? <==>
      && NewId(s, commit.eventId) && WellFormed(ch)
      && exists to :: Requested(s.row, ch, to) && InOrder(to)
    ensures Update(s, ch, commit) == Err(Invalid) <==> !WellFormed(ch)
  {
    NewIdIsFresh(s, commit.eventId);
    WellFormedIsValid(ch);
    if Update(s, ch, commit).Ok? {
      UpdateSets(s, ch, commit);
      var to := Update(s, ch, commit).value.row;
      assert Requested(s.row, ch, to) && InOrder(to);
    }
  }

  /** An amendment goes through exactly if the contract still ends after it starts and keeps a value. */
  lemma AmendmentAccepted(s: State, a: Amendment, commit: Commit)
    ensures AddAmendment(s, a, commit).Ok? <==>
      && NewId(s, commit.eventId)
      && (forall end :: a.endDateChange == Some(end) ==> s.row.startDate <= end)
      && (forall change :: a.valueChange == Some(change) ==> s.row.cents + change > 0)
    ensures AddAmendment(s, a, commit).Ok? ==>
      var t := AddAmendment(s, a, commit).value;
      && t.row.(cents := s.row.cents, endDate := s.row.endDate) == s.row && t.history == s.history
      && (forall end :: a.endDateChange == Some(end) ==> t.row.endDate == end)
      && (a.endDateChange.None? ==> t.row.endDate == s.row.endDate)
      && (forall change :: a.valueChange == Some(change) ==> t.row.cents == s.row.cents + change)
      && (a.valueChange.None? ==> t.row.cents == s.row.cents)
  {
    NewIdIsFresh(s, commit.eventId);
    assert a.endDateChange.Some? ==> a.endDateChange == Some(a.endDateChange.value);
    assert a.valueChange.Some? ==> a.valueChange == Some(a.valueChange.value);
  }

  // ---- where every field comes from ----

  datatype Field = FTitle | FDescription | FCurrency | FSigned | FStart | FEnd | FDepartment | FResponsible | FStatus

  datatype Value = Nothing | Words(words: string) | Day(day: Date) | Ref(id: Id) | Stands(status: Standing)

  function WordsOf(x: Option<string>): Value {
    if x.None? then Nothing else Words(x.value)
  }

  function DayOf(x: Option<Date>): Value {
    if x.None? then Nothing else Day(x.value)
  }

  function RefOf(x: Option<Id>): Value {
    if x.None? then Nothing else Ref(x.value)
  }

  function FieldOf(c: Contract, f: Field): Value {
    match f
    case FTitle => Words(c.title)
    case FDescription => WordsOf(c.description)
    case FCurrency => Words(c.currency)
    case FSigned => DayOf(c.signedDate)
    case FStart => Day(c.startDate)
    case FEnd => Day(c.endDate)
    case FDepartment => RefOf(c.departmentId)
    case FResponsible => RefOf(c.responsibleUserId)
    case FStatus => Stands(c.status)
  }

  function GivenByUpdate(ch: Changes, f: Field): Option<Value> {
    match f
    case FTitle => if ch.title.Set? then Some(WordsOf(ch.title.value)) else None
    case FDescription => if ch.description.Set? then Some(WordsOf(ch.description.value)) else None
    case FCurrency => if ch.currency.Set? then Some(WordsOf(ch.currency.value)) else None
    case FSigned => if ch.signedDate.Set? then Some(DayOf(ch.signedDate.value)) else None
    case FStart => if ch.startDate.Set? then Some(DayOf(ch.startDate.value)) else None
    case FEnd => if ch.endDate.Set? then Some(DayOf(ch.endDate.value)) else None
    case FDepartment => if ch.departmentId.Set? then Some(RefOf(ch.departmentId.value)) else None
    case FResponsible => if ch.responsibleUserId.Set? then Some(RefOf(ch.responsibleUserId.value)) else None
    case FStatus => None
  }

  /** What a call gives for a field: updates name fields, amendments may name the end, status changes the status. */
  function Given(op: Operation, f: Field): Option<Value> {
    match op
    case OpUpdate(ch) => GivenByUpdate(ch, f)
    case OpAmend(a) => if f == FEnd && a.endDateChange.Some? then Some(Day(a.endDateChange.value)) else None
    case OpStatus(to) => if f == FStatus then Some(Stands(to)) else None
    case _ => None
  }

  predicate GivesAt(s: State, calls: seq<Call>, i: nat, f: Field) {
    i < |calls| && Given(calls[i].op, f).Some? && Attempt(AfterAll(s, calls[..i]), calls[i].op, calls[i].commit).Ok?
  }

  /** src is the last committed call that gives the field, if any does. */
  predicate LastGiven(s: State, calls: seq<Call>, f: Field, src: Option<nat>) {
    match src
    case None => forall i :: 0 <= i < |calls| ==> !GivesAt(s, calls, i, f)
    case Some(g) => GivesAt(s, calls, g, f) && forall i :: g < i < |calls| ==> !GivesAt(s, calls, i, f)
  }

  lemma OneCallGives(s: State, call: Call, f: Field)
    ensures FieldOf(After(s, call).row, f) ==
      if Attempt(s, call.op, call.commit).Ok? && Given(call.op, f).Some? then Given(call.op, f).value else FieldOf(s.row, f)
    ensures After(s, call).row.number == s.row.number
  {
    if call.op.OpUpdate? && Attempt(s, call.op, call.commit).Ok? {
      UpdateSets(s, call.op.changes, call.commit);
    }
  }

  lemma PrefixGives(s: State, calls: seq<Call>, i: nat, f: Field)
    requires i < |calls| - 1
    ensures GivesAt(s, Front(calls), i, f) == GivesAt(s, calls, i, f)
  {
    assert Front(calls)[..i] == calls[..i];
  }

  lemma PrefixLastGiven(s: State, calls: seq<Call>, f: Field, src: Option<nat>)
    requires |calls| > 0 && LastGiven(s, calls, f, src) && src != Some(|calls| - 1)
    ensures LastGiven(s, Front(calls), f, src)
  {
    forall i: nat | i < |calls| - 1
      ensures GivesAt(s, Front(calls), i, f) == GivesAt(s, calls, i, f)
    {
      PrefixGives(s, calls, i, f);
    }
  }

  /**
   Over every sequence of calls each field is as the last committed call that gives it gave
   it, and as created if none does; the number never changes.
   */
  lemma {:induction false} FieldLaw(s: State, calls: seq<Call>, f: Field, src: Option<nat>)
    requires LastGiven(s, calls, f, src)
    ensures FieldOf(AfterAll(s, calls).row, f) == if src.None? then FieldOf(s.row, f) else Given(calls[src.value].op, f).value
    ensures AfterAll(s, calls).row.number == s.row.number
  {
    if |calls| > 0 {
      var n := |calls| - 1;
      assert calls[..n] == Front(calls);
      OneCallGives(AfterAll(s, Front(calls)), Last(calls), f);
      if src == Some(n) {
        NumberStays(s, Front(calls));
      } else {
        assert !GivesAt(s, calls, n, f);
        PrefixLastGiven(s, calls, f, src);
        FieldLaw(s, Front(calls), f, src);
      }
    }
  }

  lemma {:induction false} NumberStays(s: State, calls: seq<Call>)
    ensures AfterAll(s, calls).row.number == s.row.number
  {
    if |calls| > 0 {
      NumberStays(s, Front(calls));
      OneCallGives(AfterAll(s, Front(calls)), Last(calls), FTitle);
    }
  }

  // ---- the life of a contract ----

  predicate HasRun(history: seq<Transition>) {
    exists i :: 0 <= i < |history| && history[i] == Transition(InReview, Active)
  }

  lemma {:induction false} PathShape(history: seq<Transition>, status: Standing)
    requires UnbrokenHistory(history, status)
    ensures HasRun(history) <==> status in {Active, Suspended, Completed, Terminated}
    ensures forall i, j :: 0 <= i < j < |history| && history[i] == Transition(InReview, Active) ==> history[j] != Transition(InReview, Active)
  {
    if |history| > 0 {
      var p, last := Front(history), Last(history);
      assert UnbrokenHistory(p, last.from);
      PathShape(p, last.from);
      if HasRun(p) {
        var i :| 0 <= i < |p| && p[i] == Transition(InReview, Active);
        assert history[i] == p[i];
      }
      if last == Transition(InReview, Active) {
        assert history[|history| - 1] == last;
      }
      if HasRun(history) && last != Transition(InReview, Active) {
        var i :| 0 <= i < |history| && history[i] == Transition(InReview, Active);
        assert p[i] == history[i];
      }
    }
  }

  /**
   The life of a contract over any calls: it is or was in force exactly if it was put into
   force from review, which happens once; it is completed only from being active, and one
   that was ever in force is never cancelled or back in draft.
   */
  lemma LifePath(tenant: Id, id: Id, data: Contract, commit: Commit, calls: seq<Call>)
    requires Create(tenant, id, data, false, commit).Ok?
    ensures var s := AfterAll(Create(tenant, id, data, false, commit).value, calls);
      && (HasRun(s.history) <==> s.row.status in {Active, Suspended, Completed, Terminated})
      && (forall i, j :: 0 <= i < j < |s.history| && s.history[i] == Transition(InReview, Active) ==>
            s.history[j] != Transition(InReview, Active))
      && (s.row.status == Completed ==> |s.history| > 0 && Last(s.history) == Transition(Active, Completed))
  {
    ReachableSound(tenant, id, data, commit, calls);
    var s := AfterAll(Create(tenant, id, data, false, commit).value, calls);
    PathShape(s.history, s.row.status);
  }

  /** From creation on: signed late exactly if an amendment broke it and nothing has mended it. */
  lemma SignedLateFromCreation(tenant: Id, id: Id, data: Contract, commit: Commit, calls: seq<Call>)
    requires Create(tenant, id, data, false, commit).Ok?
    ensures var s := Create(tenant, id, data, false, commit).value;
      !SignedInTime(AfterAll(s, calls).row) <==> exists i: nat :: BrokenAt(s, calls, i)
  {
    SignedLateExactly(Create(tenant, id, data, false, commit).value, calls);
  }
}
