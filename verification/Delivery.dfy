/**
 The retry machine of a notification delivery: the scheduler attempts due deliveries, backs
 off exponentially and gives up after a number of attempts; administrators may queue a
 failed delivery again. Attempts of a batch are recorded by one commit at the end, so the
 scheduler may die after sending and before recording.
 */
module DeliveryRetry {
  import opened Common

  datatype Status = Pending | Delivered | Failed | DeadLetter

  datatype Delivery = Delivery(status: Status, attempts: nat, next: Option<Time>)

  datatype Limits = Limits(max: nat, base: nat)

  /** The settings demand at least one attempt and a base delay of at least a second. */
  type Settings = l: Limits | l.max >= 1 && l.base >= 1 witness Limits(5, 30)

  /** Creation: an in-app delivery is made at once, an email is due at once. */
  const IN_APP: Delivery := Delivery(Delivered, 1, None)

  function Email(now: Time): Delivery {
    Delivery(Pending, 0, Some(now))
  }

  function Power(n: nat): (p: nat)
    ensures p >= 1
  {
    if n == 0 then 1 else 2 * Power(n - 1)
  }

  predicate Due(d: Delivery, now: Time) {
    (d.status == Pending || d.status == Failed) && d.next.Some? && d.next.value <= now
  }

  /** What one attempt records. */
  function Attempted(c: Settings, d: Delivery, now: Time, ok: bool): Delivery {
    var attempts := d.attempts + 1;
    if ok then Delivery(Delivered, attempts, None)
    else if attempts >= c.max then Delivery(DeadLetter, attempts, None)
    else Delivery(Failed, attempts, Some(now + c.base * Power(attempts - 1)))
  }

  predicate Retriable(d: Delivery) {
    d.status == Failed || d.status == DeadLetter
  }

  // ---- one delivery over any run ----

  /** One recorded attempt; `pushed` when an administrator queued it. */
  datatype Entry = Entry(at: Time, ok: bool, pushed: bool)

  /** An attempt the scheduler made and did not record yet. */
  datatype Draft = Draft(now: Time, ok: bool, announced: bool)

  datatype State = State(
    row: Delivery,
    draft: Option<Draft>,
    pushed: bool,           // history: queued by an administrator since the last recorded attempt
    log: seq<Entry>,        // history: the recorded attempts
    sends: nat,             // history: deliveries handed to the adapter
    lost: nat,              // history: attempts whose record was lost in a crash
    retries: nat,           // history: admin retries
    revived: nat,           // history: admin retries of a dead letter
    buried: nat,            // history: recorded moves to the dead letters
    letters: nat,           // entries of this delivery in the dead-letter stream
    orphans: nat)           // history: entries whose attempt was never recorded

  datatype Action =
    | Attempt(now: Time, ok: bool)
    | Announce                      // the dead-letter entry, before the commit
    | Commit
    | Crash
    | AdminRetry(now: Time)

  function Begin(row: Delivery): State {
    State(row, None, false, [], 0, 0, 0, 0, 0, 0, 0)
  }

  /** The row as the open attempt will record it. */
  function Drafted(c: Settings, s: State): Delivery
    requires s.draft.Some?
  {
    Attempted(c, s.row, s.draft.value.now, s.draft.value.ok)
  }

  function Step(c: Settings, s: State, a: Action): Option<State> {
    match a
    case Attempt(now, ok) =>
      if s.draft.Some? || !Due(s.row, now) then None
      else Some(s.(draft := Some(Draft(now, ok, false)), sends := s.sends + 1))
    case Announce =>
      if s.draft.None? || s.draft.value.announced || Drafted(c, s).status != DeadLetter then None
      else Some(s.(draft := Some(s.draft.value.(announced := true)), letters := s.letters + 1))
    case Commit =>
      if s.draft.None? || (Drafted(c, s).status == DeadLetter && !s.draft.value.announced) then None
      else Some(s.(row := Drafted(c, s), draft := None, pushed := false,
                   log := s.log + [Entry(s.draft.value.now, s.draft.value.ok, s.pushed)],
                   buried := if Drafted(c, s).status == DeadLetter then s.buried + 1 else s.buried))
    case Crash =>
      if s.draft.None? then Some(s)
      else Some(s.(draft := None, lost := s.lost + 1,
                   orphans := if s.draft.value.announced then s.orphans + 1 else s.orphans))
    case AdminRetry(now) =>
      // the scheduler's open transaction holds the row lock
      if s.draft.Some? || !Retriable(s.row) then None
      else Some(s.(row := Delivery(Pending, s.row.attempts, Some(now)), pushed := true, retries := s.retries + 1,
                   revived := if s.row.status == DeadLetter then s.revived + 1 else s.revived))
  }

  function Run(c: Settings, created: Delivery, actions: seq<Action>): Option<State> {
    if |actions| == 0 then Some(Begin(created))
    else match Run(c, created, Front(actions))
         case None => None
         case Some(s) => Step(c, s, Last(actions))
  }

  /** The attempt counter and what it says about the status. */
  predicate Counted(c: Settings, s: State) {
    && s.row.attempts == |s.log|
    && s.row.attempts <= c.max + s.revived
    && (s.row.status == Pending ==> s.row.attempts < c.max + s.revived)
    && (s.row.next.Some? <==> s.row.status == Pending || s.row.status == Failed)
    && s.retries >= s.revived
  }

  /** The status a log of recorded attempts leaves. */
  function Settled(c: Settings, log: seq<Entry>): Status {
    if |log| == 0 then Pending
    else if Last(log).ok then Delivered
    else if |log| >= c.max then DeadLetter
    else Failed
  }

  /** The status is the outcome of the last recorded attempt, unless a retry is queued. */
  predicate Outcome(c: Settings, s: State) {
    && (s.pushed ==> s.row.status == Pending && s.retries > 0)
    && (!s.pushed ==> s.row.status == Settled(c, s.log))
    && (forall k :: 0 <= k < |s.log| && s.log[k].ok ==> k == |s.log| - 1 && s.row.status == Delivered)
  }

  /** Waiting times. */
  predicate Spaced(c: Settings, s: State) {
    && (s.row.status == Failed ==> |s.log| > 0 && s.row.next == Some(Last(s.log).at + c.base * Power(|s.log| - 1)))
    && (forall k :: 0 <= k < |s.log| && s.log[k].pushed ==> s.retries > 0)
    && (forall k :: 1 <= k < |s.log| && !s.log[k].pushed ==> s.log[k].at >= s.log[k - 1].at + c.base * Power(k - 1))
  }

  /** Sends and dead-letter entries, with what crashes lost. */
  predicate Balanced(c: Settings, s: State) {
    && s.sends == |s.log| + s.lost + (if s.draft.Some? then 1 else 0)
    && s.letters == s.buried + s.orphans + (if s.draft.Some? && s.draft.value.announced then 1 else 0)
    && s.revived + (if s.row.status == DeadLetter then 1 else 0) == s.buried
    && (s.draft.Some? ==> Due(s.row, s.draft.value.now))
    && (s.draft.Some? && s.draft.value.announced ==> Drafted(c, s).status == DeadLetter)
  }

  predicate Kept(c: Settings, s: State) {
    Counted(c, s) && Outcome(c, s) && Spaced(c, s) && Balanced(c, s)
  }

  lemma CommitKeeps(c: Settings, s: State, t: State)
    requires Kept(c, s) && Step(c, s, Commit) == Some(t)
    ensures Kept(c, t)
  {
    assert Front(t.log) == s.log && t.log[..|s.log|] == s.log;
    assert Counted(c, t);
    assert Outcome(c, t);
    assert Balanced(c, t);
    if !s.pushed && |s.log| > 0 {
      assert s.row.status == Failed;
    }
  }

  lemma StepKeeps(c: Settings, s: State, a: Action, t: State)
    requires Kept(c, s) && Step(c, s, a) == Some(t)
    ensures Kept(c, t)
  {
    if a.Commit? {
      CommitKeeps(c, s, t);
    }
  }

  lemma {:induction false} RunKeeps(c: Settings, now: Time, actions: seq<Action>)
    requires Run(c, Email(now), actions).Some?
    ensures Kept(c, Run(c, Email(now), actions).value)
  {
    if |actions| > 0 {
      RunKeeps(c, now, Front(actions));
      StepKeeps(c, Run(c, Email(now), Front(actions)).value, Last(actions), Run(c, Email(now), actions).value);
    }
  }

  /** Recorded attempts never exceed the cap by more than the dead letters revived by hand. */
  lemma AttemptsBounded(c: Settings, now: Time, actions: seq<Action>)
    requires Run(c, Email(now), actions).Some?
    ensures var s := Run(c, Email(now), actions).value;
      && s.row.attempts <= c.max + s.revived
      && (s.row.status == Failed ==> 1 <= s.row.attempts < c.max)
      && (s.row.status == DeadLetter ==> s.row.attempts >= c.max)
      && (s.row.next.Some? <==> s.row.status == Pending || s.row.status == Failed)
  {
    RunKeeps(c, now, actions);
  }

  lemma RunStep(c: Settings, created: Delivery, actions: seq<Action>, a: Action)
    requires Run(c, created, actions).Some?
    ensures Run(c, created, actions + [a]) == Step(c, Run(c, created, actions).value, a)
  {
    assert Front(actions + [a]) == actions;
  }

  /** A waiting delivery can fail once more. */
  lemma FailOnce(c: Settings, now: Time, actions: seq<Action>) returns (longer: seq<Action>)
    requires Run(c, Email(now), actions).Some? && Run(c, Email(now), actions).value.draft.None?
    requires Run(c, Email(now), actions).value.row.status in {Pending, Failed}
    ensures var s := Run(c, Email(now), actions).value;
      && s.row.next.Some? && Run(c, Email(now), longer).Some?
      && var t := Run(c, Email(now), longer).value;
      && t.row == Attempted(c, s.row, s.row.next.value, false) && t.draft.None? && t.revived == s.revived
  {
    RunKeeps(c, now, actions);
    var s := Run(c, Email(now), actions).value;
    RunStep(c, Email(now), actions, Attempt(s.row.next.value, false));
    longer := actions + [Attempt(s.row.next.value, false)];
    if Drafted(c, Run(c, Email(now), longer).value).status == DeadLetter {
      RunStep(c, Email(now), longer, Announce);
      longer := longer + [Announce];
    }
    RunStep(c, Email(now), longer, Commit);
    longer := longer + [Commit];
  }

  lemma {:induction false} FailRepeatedly(c: Settings, now: Time, n: nat) returns (actions: seq<Action>)
    requires n <= c.max
    ensures Run(c, Email(now), actions).Some?
    ensures var s := Run(c, Email(now), actions).value;
      s.draft.None? && s.revived == 0 && s.row.attempts == n
      && s.row.status == if n == 0 then Pending else if n < c.max then Failed else DeadLetter
  {
    if n == 0 {
      actions := [];
    } else {
      actions := FailRepeatedly(c, now, n - 1);
      actions := FailOnce(c, now, actions);
    }
  }

  /** The bound is attained: for any number of revivals some run records max plus that many attempts. */
  lemma {:induction false} BoundAttained(c: Settings, now: Time, revivals: nat) returns (actions: seq<Action>)
    ensures Run(c, Email(now), actions).Some?
    ensures var s := Run(c, Email(now), actions).value;
      s.draft.None? && s.revived == revivals && s.row.attempts == c.max + revivals && s.row.status == DeadLetter
  {
    if revivals == 0 {
      actions := FailRepeatedly(c, now, c.max);
    } else {
      actions := BoundAttained(c, now, revivals - 1);
      RunStep(c, Email(now), actions, AdminRetry(now));
      actions := actions + [AdminRetry(now)];
      actions := FailOnce(c, now, actions);
    }
  }

  /** At most one recorded attempt succeeded, the last, and nothing follows it. */
  lemma DeliveredOnce(c: Settings, now: Time, actions: seq<Action>, more: seq<Action>)
    requires Run(c, Email(now), actions).Some? && Run(c, Email(now), actions + more).Some?
    requires Run(c, Email(now), actions).value.row.status == Delivered
    ensures Run(c, Email(now), actions + more).value.row == Run(c, Email(now), actions).value.row
    ensures Run(c, Email(now), actions + more).value.sends == Run(c, Email(now), actions).value.sends
    ensures var s := Run(c, Email(now), actions).value;
      |s.log| > 0 && Last(s.log).ok && forall k :: 0 <= k < |s.log| - 1 ==> !s.log[k].ok
    decreases |more|
  {
    RunKeeps(c, now, actions);
    if |more| == 0 {
      assert actions + more == actions;
    } else {
      assert Front(actions + more) == actions + Front(more);
      DeliveredOnce(c, now, actions, Front(more));
      RunKeeps(c, now, actions + Front(more));
    }
  }

  /** An in-app delivery is never attempted and never changes. */
  lemma {:induction false} InAppNeverSent(c: Settings, actions: seq<Action>)
    requires Run(c, IN_APP, actions).Some?
    ensures var s := Run(c, IN_APP, actions).value;
      s.row.status == Delivered && s.row.attempts == 1 && s.row.next.None? && s.sends == 0 && s.retries == 0 && s.draft.None?
  {
    if |actions| > 0 {
      InAppNeverSent(c, Front(actions));
    }
  }

  /** Between two recorded attempts with no retry in between the full back-off has passed. */
  lemma WaitsBetweenAttempts(c: Settings, now: Time, actions: seq<Action>, k: nat)
    requires Run(c, Email(now), actions).Some?
    requires 1 <= k < |Run(c, Email(now), actions).value.log|
    requires !Run(c, Email(now), actions).value.log[k].pushed
    ensures var log := Run(c, Email(now), actions).value.log;
      log[k].at >= log[k - 1].at + c.base * Power(k - 1)
  {
    RunKeeps(c, now, actions);
  }

  lemma DoubleStep(base: int, p: int)
    ensures base * (p - 1) + base * p == base * (2 * p - 1)
  {
  }

  lemma {:induction false} SpacingAddsUp(c: Settings, log: seq<Entry>, n: nat)
    requires 1 <= n <= |log|
    requires forall k :: 1 <= k < |log| ==> log[k].at >= log[k - 1].at + c.base * Power(k - 1)
    ensures log[n - 1].at >= log[0].at + c.base * (Power(n - 1) - 1)
  {
    if n > 1 {
      SpacingAddsUp(c, log, n - 1);
      var p := Power(n - 2);
      assert log[n - 1].at >= log[n - 2].at + c.base * p;
      DoubleStep(c.base, p);
    }
  }

  /**
   Without admin retries the n-th recorded attempt comes at least base * (2^(n-1) - 1) after
   the first, and there are at most `max` of them.
   */
  lemma BackOff(c: Settings, now: Time, actions: seq<Action>, n: nat)
    requires Run(c, Email(now), actions).Some?
    requires Run(c, Email(now), actions).value.retries == 0
    requires 1 <= n <= |Run(c, Email(now), actions).value.log|
    ensures var log := Run(c, Email(now), actions).value.log;
      log[n - 1].at >= log[0].at + c.base * (Power(n - 1) - 1) && |log| <= c.max
  {
    RunKeeps(c, now, actions);
    SpacingAddsUp(c, Run(c, Email(now), actions).value.log, n);
  }

  /**
   Sends beyond the recorded attempts are exactly those lost in crashes, and every recorded
   dead letter has its own stream entry; entries beyond them belong to lost attempts.
   */
  lemma NothingUnaccounted(c: Settings, now: Time, actions: seq<Action>)
    requires Run(c, Email(now), actions).Some? && Run(c, Email(now), actions).value.draft.None?
    ensures var s := Run(c, Email(now), actions).value;
      && s.sends == s.row.attempts + s.lost
      && s.letters == s.buried + s.orphans
      && s.buried == s.revived + (if s.row.status == DeadLetter then 1 else 0)
  {
    RunKeeps(c, now, actions);
  }

  // ---- when an attempt, and a retry, is open ----

  /** The time the last admin retry gave. */
  function LastRetry(actions: seq<Action>): Option<Time> {
    if |actions| == 0 then None
    else if Last(actions).AdminRetry? then Some(Last(actions).now)
    else LastRetry(Front(actions))
  }

  /** A pending delivery is due when it was created, or when it was queued again. */
  lemma {:induction false} PendingSince(c: Settings, created: Time, actions: seq<Action>)
    requires Run(c, Email(created), actions).Some?
    ensures var s := Run(c, Email(created), actions).value;
      s.row.status == Pending ==> s.row.next == if s.pushed then LastRetry(actions) else Some(created)
  {
    if |actions| > 0 {
      PendingSince(c, created, Front(actions));
      RunKeeps(c, created, Front(actions));
      RunKeeps(c, created, actions);
    }
  }

  /**
   When the scheduler may attempt a delivery, in terms of what happened to it: with no attempt
   open, from its creation if none was recorded, from its retry if an administrator queued it
   since the last one, and otherwise exactly if the last one failed, the maximum is not
   reached, and the back-off of that many attempts has passed.
   */
  lemma AttemptExactly(c: Settings, created: Time, actions: seq<Action>, now: Time, ok: bool)
    requires Run(c, Email(created), actions).Some?
    ensures var s := Run(c, Email(created), actions).value;
      Step(c, s, Attempt(now, ok)).Some? <==>
        && s.draft.None?
        && if s.pushed then LastRetry(actions).Some? && LastRetry(actions).value <= now
           else if |s.log| == 0 then created <= now
           else !Last(s.log).ok && |s.log| < c.max && Last(s.log).at + c.base * Power(|s.log| - 1) <= now
  {
    RunKeeps(c, created, actions);
    PendingSince(c, created, actions);
  }

  /** An administrator may queue it again exactly if the last recorded attempt failed and it is not queued yet. */
  lemma RetryExactly(c: Settings, created: Time, actions: seq<Action>, now: Time)
    requires Run(c, Email(created), actions).Some?
    ensures var s := Run(c, Email(created), actions).value;
      Step(c, s, AdminRetry(now)).Some? <==> s.draft.None? && !s.pushed && |s.log| > 0 && !Last(s.log).ok
  {
    RunKeeps(c, created, actions);
  }

  /** What recording one attempt means. */
  predicate Recorded(c: Settings, before: Delivery, now: Time, succeeded: bool, after: Delivery) {
    && after.attempts == before.attempts + 1
    && (succeeded ==> after.status == Delivered && after.next.None?)
    && (!succeeded && after.attempts >= c.max ==> after.status == DeadLetter && after.next.None?)
    && (!succeeded && after.attempts < c.max ==> after.status == Failed && after.next == Some(now + c.base * Power(before.attempts)))
  }

  lemma AttemptRecorded(c: Settings, before: Delivery, now: Time, ok: bool)
    ensures Recorded(c, before, now, ok, Attempted(c, before, now, ok))
  {
  }

  // ---- the scheduler's batch ----

  type Rows = map<Id, Delivery>

  /** The ids among the first `n` of the batch that an attempt moves to the dead letters. */
  function Buried(c: Settings, rows: Rows, batch: seq<Id>, n: nat, now: Time, outcomes: map<Id, bool>): seq<Id>
    requires n <= |batch|
  {
    if n == 0 then []
    else
      var id := batch[n - 1];
      var before := Buried(c, rows, batch, n - 1, now, outcomes);
      if id in rows && Attempted(c, rows[id], now, Succeeds(outcomes, id)).status == DeadLetter then before + [id]
      else before
  }

  /** An adapter that is missing or raises counts as a failure. */
  predicate Succeeds(outcomes: map<Id, bool>, id: Id) {
    id in outcomes && outcomes[id]
  }

  /** Every dead letter of the batch has one entry, and nothing else has. */
  lemma {:induction false} BuriedExact(
    c: Settings, rows: Rows, batch: seq<Id>, n: nat, now: Time, outcomes: map<Id, bool>, id: Id)
    requires n <= |batch| && Distinct(batch)
    ensures multiset(Buried(c, rows, batch, n, now, outcomes))[id] ==
      if id in batch[..n] && id in rows && rows[id].attempts + 1 >= c.max && !(id in outcomes && outcomes[id])
      then 1 else 0
  {
    if n > 0 {
      BuriedExact(c, rows, batch, n - 1, now, outcomes, id);
      assert batch[..n] == batch[..n - 1] + [batch[n - 1]];
    }
  }

  class Scheduler {
    const settings: Settings
    var rows: Rows
    var letters: seq<Id>    // the dead-letter stream

    constructor (settings: Settings, rows: Rows)
      ensures this.settings == settings && this.rows == rows && letters == []
    {
      this.settings, this.rows, letters := settings, rows, [];
    }

    /**
     Attempts the due rows of one batch. `survives` says how many rows the process lives to
     work through; it reaches the commit at the end, which alone records anything in the
     table, only when it lives past the last.
     */
    method ProcessDeliveries(now: Time, batch: seq<Id>, outcomes: map<Id, bool>, survives: nat) returns (recorded: bool)
      requires Distinct(batch)
      requires forall i :: 0 <= i < |batch| ==> batch[i] in rows && Due(rows[batch[i]], now)
      modifies this
      ensures recorded <==> survives > |batch|
      ensures letters == old(letters) + Buried(settings, old(rows), batch, Min(survives, |batch|), now, outcomes)
      ensures !recorded ==> rows == old(rows)
      ensures recorded ==>
        && rows.Keys == old(rows).Keys
        && forall id :: id in rows ==>
             if id in batch then Recorded(settings, old(rows)[id], now, id in outcomes && outcomes[id], rows[id])
             else rows[id] == old(rows)[id]
    {
      var draft, i := rows, 0;
      while i < |batch| && i < survives
        invariant i <= |batch| && i <= survives
        invariant rows == old(rows) && draft.Keys == rows.Keys
        invariant letters == old(letters) + Buried(settings, rows, batch, i, now, outcomes)
        invariant forall id :: id in rows ==>
          if id in batch[..i] then Recorded(settings, rows[id], now, id in outcomes && outcomes[id], draft[id])
          else draft[id] == rows[id]
      {
        var id := batch[i];
        assert id !in batch[..i];
        var d := Attempted(settings, draft[id], now, Succeeds(outcomes, id));
        AttemptRecorded(settings, draft[id], now, Succeeds(outcomes, id));
        if d.status == DeadLetter {
          letters := letters + [id];
        }
        draft := draft[id := d];
        assert batch[..i + 1] == batch[..i] + [id];
        i := i + 1;
      }
      recorded := survives > |batch|;
      if recorded {
        assert batch[..i] == batch;
        rows := draft;
      }
    }

    /** Queues a failed delivery again; the attempt counter is kept. */
    method RetryDelivery(id: Id, now: Time) returns (accepted: bool)
      modifies this`rows
      ensures accepted <==> id in old(rows) && (old(rows)[id].status == Failed || old(rows)[id].status == DeadLetter)
      ensures rows == if accepted then old(rows)[id := Delivery(Pending, old(rows)[id].attempts, Some(now))] else old(rows)
    {
      accepted := id in rows && Retriable(rows[id]);
      if accepted {
        rows := rows[id := rows[id].(status := Pending, next := Some(now))];
      }
    }
  }
}
