/**
 What the pipeline's counters say over every run: the failures and the time of the last event
 in the checkpoint, the dead letters ever written, and how often an entry was delivered.
 */
module PipelineCounts {
  import opened Common
  import opened ReadModel
  import opened Pipeline

  function CountOf(actions: seq<Action>, counts: Action -> bool): nat {
    if |actions| == 0 then 0 else CountOf(Front(actions), counts) + if counts(Last(actions)) then 1 else 0
  }

  predicate IsFailure(a: Action) {
    a.CountFailure?
  }

  predicate IsBurial(a: Action) {
    a.Bury?
  }

  function FailedCount(m: Model): nat {
    if m.checkpoint.Some? then m.checkpoint.value.failedCount else 0
  }

  lemma FailuresByStep(s: State, a: Action, t: State)
    requires Step(s, a) == Some(t)
    ensures FailedCount(t.model) == FailedCount(s.model) + if a.CountFailure? then 1 else 0
    ensures t.nextDead == s.nextDead + if a.Bury? then 1 else 0
  {
  }

  /** The workers between writing a dead letter and counting it. */
  function Burying(s: State): set<Id> {
    set w | w in s.hands && (s.hands[w].Buried? || s.hands[w].Acknowledged?)
  }

  /** How many workers died between writing a dead letter and counting it. */
  function Interrupted(actions: seq<Action>): nat {
    if |actions| == 0 then 0
    else
      Interrupted(Front(actions)) +
      if Run(INITIAL, Front(actions)).Some? && Last(actions).CrashWorker? && Last(actions).worker in Burying(Run(INITIAL, Front(actions)).value)
      then 1 else 0
  }

  lemma BuryingByStep(s: State, a: Action, t: State)
    requires Step(s, a) == Some(t)
    ensures |Burying(t)| == |Burying(s)| + (if a.Bury? then 1 else 0) - (if a.CountFailure? then 1 else 0)
      - (if a.CrashWorker? && a.worker in Burying(s) then 1 else 0)
  {
    BuryingMoves(s, a, t);
    if a.CountFailure? {
      assert a.worker in Burying(s);
    }
  }

  lemma BuryingMoves(s: State, a: Action, t: State)
    requires Step(s, a) == Some(t)
    ensures a.Bury? ==> a.worker !in Burying(s) && Burying(t) == Burying(s) + {a.worker}
    ensures a.CountFailure? || a.CrashWorker? ==> Burying(t) == Burying(s) - {a.worker}
    ensures !a.Bury? && !a.CountFailure? && !a.CrashWorker? ==> Burying(t) == Burying(s)
  {
    HandsMove(s, a, t);
    if !a.Bury? && !a.CountFailure? && !a.CrashWorker? {
      assert forall w :: w in Burying(t) <==> w in Burying(s);
    }
  }

  /** Only these steps change which workers stand between a dead letter and its count. */
  lemma HandsMove(s: State, a: Action, t: State)
    requires Step(s, a) == Some(t)
    ensures a.Bury? ==> t.hands == s.hands[a.worker := Buried(a.entry)] && HandOf(s, a.worker) == Idle
    ensures a.CountFailure? ==> t.hands == s.hands[a.worker := Idle] && HandOf(s, a.worker).Acknowledged?
    ensures a.CrashWorker? ==> t.hands == s.hands - {a.worker}
    ensures a.Acknowledge? && HandOf(s, a.worker).Buried? ==> t.hands == s.hands[a.worker := Acknowledged(HandOf(s, a.worker).entry)]
    ensures a.Acknowledge? && !HandOf(s, a.worker).Buried? ==> t.hands == s.hands[a.worker := Idle] && HandOf(s, a.worker).Committed?
    ensures a.ApplyEntry? ==> t.hands == s.hands[a.worker := Committed(a.entry)] && HandOf(s, a.worker) == Idle
    ensures !a.Bury? && !a.CountFailure? && !a.CrashWorker? && !a.Acknowledge? && !a.ApplyEntry? ==> t.hands == s.hands
  {
  }

  /**
   In every run the failure counter is the number of counted failures, and every dead letter
   ever written is counted, about to be, or was left uncounted by a worker that died.
   */
  lemma {:induction false} FailuresExact(actions: seq<Action>)
    requires Run(INITIAL, actions).Some?
    ensures var s := Run(INITIAL, actions).value;
      && FailedCount(s.model) == CountOf(actions, IsFailure)
      && s.nextDead == CountOf(actions, IsBurial)
      && s.nextDead == FailedCount(s.model) + |Burying(s)| + Interrupted(actions)
  {
    if |actions| > 0 {
      FailuresExact(Front(actions));
      var s, t := Run(INITIAL, Front(actions)).value, Run(INITIAL, actions).value;
      FailuresByStep(s, Last(actions), t);
      BuryingByStep(s, Last(actions), t);
    }
  }

  lemma LastEventByStep(s: State, a: Action, t: State)
    requires Step(s, a) == Some(t)
    ensures var before := if s.model.checkpoint.Some? then s.model.checkpoint.value.lastEventAt else None;
      var after := if t.model.checkpoint.Some? then t.model.checkpoint.value.lastEventAt else None;
      (t.log == s.log && after == before) || (|t.log| > 0 && t.log == s.log + [Last(t.log)] && after == Some(Last(t.log).at))
  {
    if a.ApplyEntry? && s.stream[a.entry].event.id !in s.model.processed {
      assert Last(t.log) == s.stream[a.entry].event;
    }
  }

  /** The checkpoint shows the time of the last event that took effect. */
  lemma {:induction false} LastEventShown(actions: seq<Action>)
    requires Run(INITIAL, actions).Some?
    ensures var s := Run(INITIAL, actions).value;
      (if s.model.checkpoint.Some? then s.model.checkpoint.value.lastEventAt else None) ==
      if |s.log| == 0 then None else Some(Last(s.log).at)
  {
    if |actions| > 0 {
      LastEventShown(Front(actions));
      LastEventByStep(Run(INITIAL, Front(actions)).value, Last(actions), Run(INITIAL, actions).value);
    }
  }

  /** How often entry n was handed out: once by the read that reached it, then once a claim. */
  function Deliveries(actions: seq<Action>, n: nat): nat {
    if |actions| == 0 then 0
    else
      Deliveries(Front(actions), n) +
      if (Last(actions).Claim? && Last(actions).entry == n)
         || (Last(actions).Read? && Run(INITIAL, Front(actions)).Some? && Run(INITIAL, Front(actions)).value.cursor == n)
      then 1 else 0
  }

  /** The delivery count of a pending entry is the number of times it was handed out. */
  lemma {:induction false} DeliveriesExact(actions: seq<Action>, n: nat)
    requires Run(INITIAL, actions).Some?
    ensures var s := Run(INITIAL, actions).value;
      && (n in s.pending ==> s.pending[n] == Deliveries(actions, n))
      && (n >= s.cursor ==> Deliveries(actions, n) == 0 && n !in s.pending)
      && (n < s.cursor ==> Deliveries(actions, n) >= 1)
  {
    if |actions| > 0 {
      DeliveriesExact(Front(actions), n);
      DeliveredByStep(Run(INITIAL, Front(actions)).value, Last(actions), Run(INITIAL, actions).value, n);
    }
  }

  lemma DeliveredByStep(s: State, a: Action, t: State, n: nat)
    requires Step(s, a) == Some(t)
    ensures n in t.pending ==>
      t.pending[n] == (if a.Read? && s.cursor == n then 0 else if n in s.pending then s.pending[n] else 0)
                      + (if (a.Claim? && a.entry == n) || (a.Read? && s.cursor == n) then 1 else 0)
    ensures n in t.pending ==> n in s.pending || (a.Read? && s.cursor == n)
    ensures a.Claim? ==> a.entry in s.pending
    ensures t.cursor == s.cursor + if a.Read? then 1 else 0
  {
  }
}
