/**
 When the order of the commits is kept. The projection is the fold of a prefix of the outbox
 exactly in the runs in which no event takes effect before an earlier one. Runs that publish
 in the order of the commits and process in the order of the stream are among them; what the
 worker does after a failure is not.
 */
module PipelineOrder {
  import opened Common
  import opened ReadModel
  import opened Pipeline
  import opened PipelineWorker

  predicate OnStream(s: State, row: nat, end: nat)
    requires row < |s.outbox| && end <= |s.stream|
  {
    exists m :: 0 <= m < end && s.stream[m] == Envelope(s.outbox[row])
  }

  /** A step that does not overtake: earlier rows are on the stream, earlier entries are processed. */
  predicate InTurn(s: State, a: Action) {
    match a
    case PublishAdd(_, row) => forall r: nat :: r < row && r < |s.outbox| ==> OnStream(s, r, |s.stream|)
    case ApplyEntry(_, n) =>
      forall m :: 0 <= m < n && m < |s.stream| && s.stream[m].Envelope? ==> s.stream[m].event.id in s.model.processed
    case _ => true
  }

  predicate Orderly(actions: seq<Action>) {
    |actions| > 0 ==>
      && Orderly(Front(actions))
      && (Run(INITIAL, Front(actions)).Some? ==> InTurn(Run(INITIAL, Front(actions)).value, Last(actions)))
  }

  /** Wherever a row's event stands on the stream, every earlier row's event stands before it. */
  predicate StreamFollowsOutbox(s: State) {
    && (forall n, row: nat, r: nat :: 0 <= n < |s.stream| && r < row < |s.outbox| && s.stream[n] == Envelope(s.outbox[row])
          ==> OnStream(s, r, n))
    && (forall d :: d in s.dead && s.dead[d].Envelope? ==> s.dead[d] in s.stream)
  }

  lemma OnStreamStays(s: State, t: State, row: nat, end: nat)
    requires s.stream <= t.stream && s.outbox <= t.outbox && row < |s.outbox| && end <= |s.stream| && OnStream(s, row, end)
    ensures OnStream(t, row, end)
  {
    var m :| 0 <= m < end && s.stream[m] == Envelope(s.outbox[row]);
    assert t.stream[m] == Envelope(t.outbox[row]);
  }

  lemma StepGrows(s: State, a: Action, t: State)
    requires Step(s, a) == Some(t)
    ensures s.stream <= t.stream && s.outbox <= t.outbox && |t.stream| <= |s.stream| + 1
    ensures t.stream != s.stream ==> a.AddGarbage? || a.PublishAdd? || a.LiftAdd?
    ensures forall d :: d in t.dead ==> (d in s.dead && t.dead[d] == s.dead[d]) || t.dead[d] in s.stream
  {
  }

  /** A row's event is never on the stream before the row is committed. */
  lemma NewRowsNotOnStream(s: State, a: Action, t: State, n: nat, row: nat)
    requires FromOutbox(s) && DistinctIds(t.outbox) && Step(s, a) == Some(t)
    requires n < |s.stream| && row < |t.outbox| && s.stream[n] == Envelope(t.outbox[row])
    ensures row < |s.outbox|
  {
    StepGrows(s, a, t);
    assert s.stream[n].event in s.outbox;
    var i :| 0 <= i < |s.outbox| && s.outbox[i] == t.outbox[row];
    assert t.outbox[i] == t.outbox[row];
  }

  lemma OrderByStep(s: State, a: Action, t: State)
    requires FromOutbox(s) && DistinctIds(t.outbox)
    requires StreamFollowsOutbox(s) && InTurn(s, a) && Step(s, a) == Some(t)
    ensures StreamFollowsOutbox(t)
  {
    StepGrows(s, a, t);
    forall n, row: nat, r: nat | 0 <= n < |t.stream| && r < row < |t.outbox| && t.stream[n] == Envelope(t.outbox[row])
      ensures OnStream(t, r, n)
    {
      if n < |s.stream| {
        NewRowsNotOnStream(s, a, t, n, row);
        OnStreamStays(s, t, r, n);
      } else {
        NewEntryInOrder(s, a, t, row, r);
      }
    }
    forall d | d in t.dead && t.dead[d].Envelope?
      ensures t.dead[d] in t.stream
    {
      assert t.dead[d] in s.stream;
    }
  }

  /** The entry a step adds stands behind the events of all earlier rows. */
  lemma NewEntryInOrder(s: State, a: Action, t: State, row: nat, r: nat)
    requires DistinctIds(t.outbox) && StreamFollowsOutbox(s) && InTurn(s, a) && Step(s, a) == Some(t)
    requires |t.stream| > |s.stream| && r < row < |t.outbox| && t.stream[|s.stream|] == Envelope(t.outbox[row])
    ensures OnStream(t, r, |s.stream|)
  {
    StepGrows(s, a, t);
    assert t.outbox == s.outbox;
    if a.PublishAdd? {
      assert s.outbox[a.row] == s.outbox[row];
      OnStreamStays(s, t, r, |s.stream|);
    } else {
      assert s.dead[a.deadEntry] in s.stream;
      var n :| 0 <= n < |s.stream| && s.stream[n] == Envelope(s.outbox[row]);
      assert OnStream(s, r, n);
      var m :| 0 <= m < n && s.stream[m] == Envelope(s.outbox[r]);
      assert t.stream[m] == Envelope(t.outbox[r]);
    }
  }

  /** A prefix of the outbox that lacks an event but holds all before it ends just there. */
  lemma PrefixLength(log: seq<Event>, outbox: seq<Event>, row: nat)
    requires log <= outbox && DistinctIds(outbox) && row < |outbox|
    requires outbox[row] !in log && forall r: nat :: r < row ==> outbox[r] in log
    ensures |log| == row
  {
    forall r: nat | r < |outbox|
      ensures outbox[r] in log <==> r < |log|
    {
      if r < |log| {
        assert outbox[r] == log[r];
      }
    }
    assert |log| < |outbox| ==> outbox[|log|] !in log;
  }

  lemma EffectInOrder(s: State, w: Id, n: nat, t: State)
    requires FromOutbox(s) && AppliedOnce(s) && StreamFollowsOutbox(s)
    requires s.log <= s.outbox && InTurn(s, ApplyEntry(w, n)) && Step(s, ApplyEntry(w, n)) == Some(t)
    ensures t.log <= t.outbox
  {
    var e := s.stream[n].event;
    if e.id !in s.model.processed {
      var row :| 0 <= row < |s.outbox| && s.outbox[row] == e;
      ProcessedAreLogged(s.log);
      forall r: nat | r < row
        ensures s.outbox[r] in s.log
      {
        assert OnStream(s, r, n);
        var m :| 0 <= m < n && s.stream[m] == Envelope(s.outbox[r]);
        LoggedEvent(s, s.outbox[r]);
      }
      assert e !in s.log;
      PrefixLength(s.log, s.outbox, row);
    }
  }

  /** A processed outbox event is itself in the log of effects. */
  lemma LoggedEvent(s: State, e: Event)
    requires FromOutbox(s) && AppliedOnce(s) && e in s.outbox && e.id in s.model.processed
    ensures e in s.log
  {
    ProcessedAreLogged(s.log);
    var i :| 0 <= i < |s.log| && s.log[i].id == e.id;
    assert s.log[i] in s.outbox;
  }

  lemma {:induction false} OrderKept(actions: seq<Action>)
    requires Run(INITIAL, actions).Some? && Orderly(actions)
    ensures var s := Run(INITIAL, actions).value;
      StreamFollowsOutbox(s) && s.log <= s.outbox
  {
    if |actions| > 0 {
      var before, a := Front(actions), Last(actions);
      OrderKept(before);
      RunApplies(before);
      RunApplies(actions);
      RunKeeps(before);
      var s, t := Run(INITIAL, before).value, Run(INITIAL, actions).value;
      OrderByStep(s, a, t);
      if a.ApplyEntry? {
        EffectInOrder(s, a.worker, a.entry, t);
      } else {
        StepGrows(s, a, t);
        assert t.log == s.log;
      }
    }
  }

  // ---- exactly when the order is kept ----

  /** Every event committed before row `row` has taken effect. */
  predicate EarlierProcessed(s: State, row: nat)
    requires row <= |s.outbox|
  {
    forall r :: 0 <= r < row ==> s.outbox[r].id in s.model.processed
  }

  /** A step that gives an event its effect does so after all earlier events took theirs. */
  predicate EffectInTurn(s: State, a: Action) {
    a.ApplyEntry? && a.entry < |s.stream| && s.stream[a.entry].Envelope? && s.stream[a.entry].event.id !in s.model.processed ==>
      forall row :: 0 <= row < |s.outbox| && s.outbox[row] == s.stream[a.entry].event ==> EarlierProcessed(s, row)
  }

  predicate NeverOvertakes(actions: seq<Action>) {
    |actions| > 0 ==>
      && NeverOvertakes(Front(actions))
      && (Run(INITIAL, Front(actions)).Some? ==> EffectInTurn(Run(INITIAL, Front(actions)).value, Last(actions)))
  }

  /** A log that is a prefix of the outbox after a step was one before it. */
  lemma PrefixBefore(s: State, a: Action, t: State)
    requires FromOutbox(s) && AppliedOnce(s) && DistinctIds(t.outbox) && Step(s, a) == Some(t) && t.log <= t.outbox
    ensures s.log <= s.outbox
  {
    StepGrows(s, a, t);
    assert s.log <= t.log;
    forall i | 0 <= i < |s.log|
      ensures i < |s.outbox| && s.log[i] == s.outbox[i]
    {
      assert s.log[i] == t.outbox[i] && s.log[i] in s.outbox;
      var r :| 0 <= r < |s.outbox| && s.outbox[r] == s.log[i];
      assert t.outbox[r] == t.outbox[i];
    }
  }

  /** Given a prefix so far, an effect extends it exactly if it comes in turn. */
  lemma EffectExactlyInTurn(s: State, w: Id, n: nat, t: State)
    requires FromOutbox(s) && AppliedOnce(s) && s.log <= s.outbox && Step(s, ApplyEntry(w, n)) == Some(t)
    ensures t.log <= t.outbox <==> EffectInTurn(s, ApplyEntry(w, n))
  {
    var e := s.stream[n].event;
    if e.id !in s.model.processed {
      var row :| 0 <= row < |s.outbox| && s.outbox[row] == e;
      LoggedExactly(s, row);
      assert EffectInTurn(s, ApplyEntry(w, n)) <==> EarlierProcessed(s, row);
      EarlierExactly(s, row);
      assert t.log == s.log + [e] && t.outbox == s.outbox;
      if t.log <= t.outbox {
        assert s.outbox[|s.log|] == t.log[|s.log|] == e;
      }
    }
  }

  /** All events before a row that has not taken effect are processed exactly if it is the next one. */
  lemma EarlierExactly(s: State, row: nat)
    requires FromOutbox(s) && AppliedOnce(s) && s.log <= s.outbox && |s.log| <= row < |s.outbox|
    ensures EarlierProcessed(s, row) <==> row == |s.log|
  {
    forall r: nat | r < row
      ensures s.outbox[r].id in s.model.processed <==> r < |s.log|
    {
      LoggedExactly(s, r);
    }
    assert |s.log| < row ==> s.outbox[|s.log|].id !in s.model.processed;
  }

  lemma LoggedExactly(s: State, r: nat)
    requires FromOutbox(s) && AppliedOnce(s) && s.log <= s.outbox && r < |s.outbox|
    ensures s.outbox[r] in s.log <==> s.outbox[r].id in s.model.processed
    ensures s.outbox[r] in s.log <==> r < |s.log|
  {
    ProcessedAreLogged(s.log);
    if s.outbox[r].id in s.model.processed {
      LoggedEvent(s, s.outbox[r]);
    }
    if r < |s.log| {
      assert s.log[r] == s.outbox[r];
    }
  }

  /** One step keeps the order exactly if it was kept before and the step is in turn. */
  lemma StepExactly(s: State, a: Action, t: State)
    requires FromOutbox(s) && AppliedOnce(s) && DistinctIds(t.outbox) && Step(s, a) == Some(t)
    ensures t.log <= t.outbox <==> s.log <= s.outbox && EffectInTurn(s, a)
  {
    if t.log <= t.outbox {
      PrefixBefore(s, a, t);
    }
    if s.log <= s.outbox {
      if a.ApplyEntry? {
        EffectExactlyInTurn(s, a.worker, a.entry, t);
      } else {
        StepGrows(s, a, t);
        assert t.log == s.log;
      }
    }
  }

  /**
   Exactly when the order is kept: the committed effects are the first so many outbox events,
   in order, if and only if no event ever took effect before an earlier one.
   */
  lemma {:induction false} OrderExactly(actions: seq<Action>)
    requires Run(INITIAL, actions).Some?
    ensures Run(INITIAL, actions).value.log <= Run(INITIAL, actions).value.outbox <==> NeverOvertakes(actions)
  {
    if |actions| > 0 {
      var before, a := Front(actions), Last(actions);
      OrderExactly(before);
      RunApplies(before);
      RunApplies(actions);
      StepExactly(Run(INITIAL, before).value, a, Run(INITIAL, actions).value);
    }
  }

  /** Publishing and processing in order is one way never to overtake. */
  lemma OrderlyNeverOvertakes(actions: seq<Action>)
    requires Run(INITIAL, actions).Some? && Orderly(actions)
    ensures NeverOvertakes(actions)
  {
    OrderKept(actions);
    OrderExactly(actions);
  }

  /**
   Sequential refinement: in every run in which nothing overtakes, whatever is published
   again, redelivered, dead-lettered, retried or cut off, the projection is the fold of the
   first so many outbox events, and of all of them once the run is drained.
   */
  lemma ProjectionIsPrefixFold(actions: seq<Action>)
    requires Run(INITIAL, actions).Some? && NeverOvertakes(actions)
    ensures var s := Run(INITIAL, actions).value;
      && |s.log| <= |s.outbox| && s.log == s.outbox[..|s.log|]
      && s.model.rows == ApplyAll(s.outbox[..|s.log|]).rows
      && (Drained(s) ==> s.log == s.outbox && s.model.rows == ApplyAll(s.outbox).rows)
  {
    OrderExactly(actions);
    RunApplies(actions);
    var s := Run(INITIAL, actions).value;
    if Drained(s) {
      DrainedExactlyOnce(actions);
      assert |multiset(s.log)| == |multiset(s.outbox)|;
    }
  }

  // ---- the order of publishing and the order of processing ----

  /** Event f is not among the entries up to `m`, that one included. */
  predicate NotUpTo(s: State, m: nat, f: Event)
    requires m < |s.stream|
  {
    forall k :: 0 <= k <= m ==> s.stream[k] != Envelope(f)
  }

  /** Event e is published before f is published for the first time. */
  predicate PublishedBefore(s: State, e: Event, f: Event) {
    exists m: nat :: m < |s.stream| && s.stream[m] == Envelope(e) && NotUpTo(s, m, f)
  }

  /** Every event that took effect was published after all events committed before it. */
  predicate PublishedInOrder(s: State) {
    forall r: nat, row: nat :: r < row < |s.outbox| && s.outbox[row] in s.log ==> PublishedBefore(s, s.outbox[r], s.outbox[row])
  }

  /** Every event took effect after all events that were published before it. */
  predicate ProcessedInOrder(s: State) {
    forall i: nat, m: nat :: i < |s.log| && m < |s.stream| && s.stream[m].Envelope? && NotUpTo(s, m, s.log[i])
      ==> s.stream[m].event in s.log[..i]
  }

  predicate LogOnStream(s: State) {
    forall i :: 0 <= i < |s.log| ==> Envelope(s.log[i]) in s.stream
  }

  lemma LogOnStreamByStep(s: State, a: Action, t: State)
    requires LogOnStream(s) && Step(s, a) == Some(t)
    ensures LogOnStream(t)
  {
    StepGrows(s, a, t);
    forall i | 0 <= i < |t.log|
      ensures Envelope(t.log[i]) in t.stream
    {
      assert Envelope(t.log[i]) in s.stream by {
        if i < |s.log| {
          assert t.log[i] == s.log[i];
        } else {
          assert s.stream[a.entry] == Envelope(t.log[i]);
        }
      }
    }
  }

  lemma {:induction false} EffectsOnStream(actions: seq<Action>)
    requires Run(INITIAL, actions).Some?
    ensures LogOnStream(Run(INITIAL, actions).value)
  {
    if |actions| > 0 {
      EffectsOnStream(Front(actions));
      LogOnStreamByStep(Run(INITIAL, Front(actions)).value, Last(actions), Run(INITIAL, actions).value);
    }
  }

  lemma {:induction false} FirstEntry(s: State, e: Event, end: nat) returns (n: nat)
    requires end <= |s.stream| && Envelope(e) in s.stream[..end]
    ensures n < end && s.stream[n] == Envelope(e) && (n > 0 ==> NotUpTo(s, n - 1, e))
  {
    if Envelope(e) in s.stream[..end - 1] {
      n := FirstEntry(s, e, end - 1);
    } else {
      n := end - 1;
      forall k | 0 <= k < n
        ensures s.stream[k] != Envelope(e)
      {
        assert s.stream[..end - 1][k] == s.stream[k];
      }
    }
  }

  /** Two different events on the stream: one of them is published before the other. */
  lemma OneIsFirst(s: State, e: Event, f: Event)
    requires Envelope(e) in s.stream && Envelope(f) in s.stream && e != f
    ensures PublishedBefore(s, e, f) || PublishedBefore(s, f, e)
  {
    assert s.stream[..|s.stream|] == s.stream;
    var n := FirstEntry(s, e, |s.stream|);
    var m := FirstEntry(s, f, |s.stream|);
    assert n < m ==> NotUpTo(s, n, f);
    assert m < n ==> NotUpTo(s, m, e);
  }

  /** Published and processed in order, each effect comes right after those of all earlier events. */
  lemma NextEffect(s: State, i: nat)
    requires FromOutbox(s) && AppliedOnce(s) && PublishedInOrder(s) && ProcessedInOrder(s)
    requires i < |s.log| && s.log[..i] <= s.outbox
    ensures i < |s.outbox| && s.log[i] == s.outbox[i]
  {
    assert s.log[i] in s.outbox;
    var row: nat :| row < |s.outbox| && s.outbox[row] == s.log[i];
    forall r: nat | r < row
      ensures s.outbox[r] in s.log[..i]
    {
      assert PublishedBefore(s, s.outbox[r], s.log[i]);
    }
    assert s.outbox[row] !in s.log[..i];
    PrefixLength(s.log[..i], s.outbox, row);
  }

  lemma PrefixGrows(log: seq<Event>, outbox: seq<Event>, i: nat)
    requires i < |log| && i < |outbox| && log[..i] <= outbox && log[i] == outbox[i]
    ensures log[..i + 1] <= outbox
  {
    assert log[..i + 1] == log[..i] + [outbox[i]];
  }

  /** Published and processed in order, the effects are the first so many events. */
  lemma InOrderThroughout(s: State)
    requires FromOutbox(s) && AppliedOnce(s) && PublishedInOrder(s) && ProcessedInOrder(s)
    ensures s.log <= s.outbox
  {
    var i := 0;
    while i < |s.log|
      invariant i <= |s.log| && s.log[..i] <= s.outbox
    {
      NextEffect(s, i);
      PrefixGrows(s.log, s.outbox, i);
      i := i + 1;
    }
    assert s.log[..i] == s.log;
  }

  /** What took effect in the order of the commits and of the stream was published in that order. */
  lemma PublishedAsCommitted(s: State, r: nat, row: nat)
    requires AppliedOnce(s) && s.log <= s.outbox && ProcessedInOrder(s) && r < row < |s.log|
    requires Envelope(s.log[r]) in s.stream && Envelope(s.log[row]) in s.stream
    ensures PublishedBefore(s, s.log[r], s.log[row])
  {
    OneIsFirst(s, s.log[r], s.log[row]);
    forall m: nat | m < |s.stream| && s.stream[m] == Envelope(s.log[row])
      ensures !NotUpTo(s, m, s.log[r])
    {
      assert s.log[row] !in s.log[..r];
    }
  }

  /**
   When the entries are processed in the order of the stream, the order of publishing decides:
   the effects are the first so many outbox events, in order, if and only if each of them was
   published after all events committed before it.
   */
  lemma PublishingDecides(actions: seq<Action>)
    requires Run(INITIAL, actions).Some? && ProcessedInOrder(Run(INITIAL, actions).value)
    ensures var s := Run(INITIAL, actions).value;
      s.log <= s.outbox <==> PublishedInOrder(s)
  {
    RunApplies(actions);
    EffectsOnStream(actions);
    var s := Run(INITIAL, actions).value;
    if s.log <= s.outbox {
      forall r: nat, row: nat | r < row < |s.outbox| && s.outbox[row] in s.log
        ensures PublishedBefore(s, s.outbox[r], s.outbox[row])
      {
        LoggedExactly(s, row);
        PublishedAsCommitted(s, r, row);
      }
    }
    if PublishedInOrder(s) {
      InOrderThroughout(s);
    }
  }

  /** When every event on the stream stands behind all earlier ones, those that took effect do. */
  lemma FollowsOutbox(s: State, r: nat, row: nat)
    requires StreamFollowsOutbox(s) && r < row < |s.outbox| && Envelope(s.outbox[row]) in s.stream
    ensures PublishedBefore(s, s.outbox[r], s.outbox[row])
  {
    assert s.stream[..|s.stream|] == s.stream;
    var n := FirstEntry(s, s.outbox[row], |s.stream|);
    assert OnStream(s, r, n);
    var m :| 0 <= m < n && s.stream[m] == Envelope(s.outbox[r]);
    assert NotUpTo(s, m, s.outbox[row]);
  }

  /** What stands on the stream before an event that took effect was committed before it. */
  lemma StandsBefore(s: State, i: nat, m: nat)
    requires FromOutbox(s) && AppliedOnce(s) && StreamFollowsOutbox(s) && s.log <= s.outbox
    requires i < |s.log| && m < |s.stream| && s.stream[m].Envelope? && NotUpTo(s, m, s.log[i])
    ensures s.stream[m].event in s.log[..i]
  {
    var row :| 0 <= row < |s.outbox| && s.outbox[row] == s.stream[m].event;
    assert s.log[i] == s.outbox[i];
    assert row > i ==> OnStream(s, i, m);
    assert row < i;
    assert s.log[..i][row] == s.outbox[row];
  }

  /**
   When the events are published in the order of the commits, the order of processing decides:
   the effects are the first so many outbox events, in order, if and only if each of them took
   effect after all events that were published before it.
   */
  lemma ProcessingDecides(actions: seq<Action>)
    requires Run(INITIAL, actions).Some? && StreamFollowsOutbox(Run(INITIAL, actions).value)
    ensures var s := Run(INITIAL, actions).value;
      s.log <= s.outbox <==> ProcessedInOrder(s)
  {
    RunApplies(actions);
    EffectsOnStream(actions);
    var s := Run(INITIAL, actions).value;
    if s.log <= s.outbox {
      forall i: nat, m: nat | i < |s.log| && m < |s.stream| && s.stream[m].Envelope? && NotUpTo(s, m, s.log[i])
        ensures s.stream[m].event in s.log[..i]
      {
        StandsBefore(s, i, m);
      }
    }
    if ProcessedInOrder(s) {
      forall r: nat, row: nat | r < row < |s.outbox| && s.outbox[row] in s.log
        ensures PublishedBefore(s, s.outbox[r], s.outbox[row])
      {
        FollowsOutbox(s, r, row);
      }
      InOrderThroughout(s);
    }
  }

  lemma RunOn(actions: seq<Action>, a: Action)
    requires Run(INITIAL, actions).Some?
    ensures Run(INITIAL, actions + [a]) == Step(Run(INITIAL, actions).value, a)
  {
    assert Front(actions + [a]) == actions;
  }

  /** The batch of one new entry. */
  lemma OneNewEntry(w: Id, stream: seq<Message>, n: nat, verdicts: map<nat, Verdict>)
    requires n < |stream| && stream[n].Envelope?
    ensures var items := NewItems(w, stream, Between(n, n + 1), verdicts, map[]);
      && AllDone(items) == (VerdictFor(verdicts, n) != Fails)
      && (VerdictFor(verdicts, n) == Fails ==> Reads(1) + Trace(w, items) == [Read])
      && (VerdictFor(verdicts, n) == Accepts ==> Reads(1) + Trace(w, items) == [Read, ApplyEntry(w, n), Acknowledge(w)])
  {
    assert Between(n, n) == [] && Between(n, n + 1) == [n];
    var item := ItemFor(w, n, stream[n], VerdictFor(verdicts, n), 3);
    assert NewItems(w, stream, [n], verdicts, map[]) == [item];
    assert Front([item]) == [];
    assert Trace(w, [item]) == [] + CutOff(w, item.script, 3);
    assert Reads(1) == [Read];
  }

  /** A read, and a read whose entry takes effect at once. */
  lemma AfterOneEntry(h: seq<Action>, w: Id, n: nat)
    requires Run(INITIAL, h).Some?
    requires var s := Run(INITIAL, h).value; s.cursor == n < |s.stream| && s.stream[n].Envelope? && HandOf(s, w) == Idle
    ensures var s := Run(INITIAL, h).value;
      && Run(INITIAL, h + [Read]) == Some(s.(cursor := n + 1, pending := s.pending[n := 1]))
      && Run(INITIAL, h + [Read, ApplyEntry(w, n), Acknowledge(w)]).Some?
      && var t := Run(INITIAL, h + [Read, ApplyEntry(w, n), Acknowledge(w)]).value;
      && t.outbox == s.outbox
      && t.log == if s.stream[n].event.id in s.model.processed then s.log else s.log + [s.stream[n].event]
  {
    AfterRead(h, n);
    AfterEffect(h + [Read], w, n);
    assert h + [Read] + [ApplyEntry(w, n), Acknowledge(w)] == h + [Read, ApplyEntry(w, n), Acknowledge(w)];
  }

  lemma AfterRead(h: seq<Action>, n: nat)
    requires Run(INITIAL, h).Some?
    requires Run(INITIAL, h).value.cursor == n < |Run(INITIAL, h).value.stream|
    ensures var s := Run(INITIAL, h).value;
      Run(INITIAL, h + [Read]) == Some(s.(cursor := n + 1, pending := s.pending[n := 1]))
  {
    RunOn(h, Read);
  }

  lemma AfterEffect(h: seq<Action>, w: Id, n: nat)
    requires Run(INITIAL, h).Some?
    requires var s := Run(INITIAL, h).value; n < s.cursor && n < |s.stream| && s.stream[n].Envelope? && HandOf(s, w) == Idle
    ensures Run(INITIAL, h + [ApplyEntry(w, n), Acknowledge(w)]).Some?
    ensures var s, t := Run(INITIAL, h).value, Run(INITIAL, h + [ApplyEntry(w, n), Acknowledge(w)]).value;
      && t.outbox == s.outbox
      && t.log == if s.stream[n].event.id in s.model.processed then s.log else s.log + [s.stream[n].event]
  {
    ApplySteps(Run(INITIAL, h).value, w, n);
    RunOn(h, ApplyEntry(w, n));
    RunOn(h + [ApplyEntry(w, n)], Acknowledge(w));
    assert h + [ApplyEntry(w, n)] + [Acknowledge(w)] == h + [ApplyEntry(w, n), Acknowledge(w)];
  }

  /** An entry's effect and its acknowledgement. */
  lemma ApplySteps(s: State, w: Id, n: nat)
    requires n < s.cursor && n < |s.stream| && s.stream[n].Envelope? && HandOf(s, w) == Idle
    ensures Step(s, ApplyEntry(w, n)).Some?
    ensures var t := Step(s, ApplyEntry(w, n)).value;
      && Step(t, Acknowledge(w)).Some?
      && var u := Step(t, Acknowledge(w)).value;
      && u.outbox == s.outbox
      && u.log == if s.stream[n].event.id in s.model.processed then s.log else s.log + [s.stream[n].event]
  {
    assert HandOf(Step(s, ApplyEntry(w, n)).value, w) == Committed(n);
  }

  /** The only free row, at the end of the outbox, is the batch. */
  lemma OnlyOldest(s: State, limit: nat, n: nat)
    requires |s.outbox| == n + 1 && limit > 0 && s.open == map[]
    requires forall row :: 0 <= row < n ==> row in s.published
    requires n !in s.published
    ensures Oldest(s, limit) == [n] && Envelopes(s.outbox, [n]) == [Envelope(s.outbox[n])] && Elements([n]) == {n}
  {
    NoneFree(s, n);
    assert Free(s, n);
    assert FreeRows(s, n + 1) == [n];
  }

  lemma {:induction false} NoneFree(s: State, bound: nat)
    requires bound <= |s.outbox| && forall row :: 0 <= row < bound ==> row in s.published
    ensures FreeRows(s, bound) == []
  {
    if bound > 0 {
      NoneFree(s, bound - 1);
    }
  }

  /** Of two free rows the one created earlier goes first, whichever was committed first. */
  lemma EarlierGoesFirst(s: State)
    requires |s.outbox| == 2 && s.published == {} && s.open == map[] && Before(s.outbox[1], s.outbox[0])
    ensures Oldest(s, 2) == [1, 0] && Envelopes(s.outbox, [1, 0]) == [Envelope(s.outbox[1]), Envelope(s.outbox[0])]
  {
    assert Free(s, 0) && Free(s, 1);
    assert FreeRows(s, 0) == [] && FreeRows(s, 1) == [0];
    assert Front([0]) == [];
    assert InsertRow(s, [], 1) == [1];
    assert FreeRows(s, 2) == [1, 0];
  }

  /**
   Publishing need not follow the commits: of two overlapping transactions the one that
   began first may commit last, and a single batch then publishes its event first.
   */
  method ReversedBatch(first: Event, second: Event) returns (outbox: seq<Event>, stream: seq<Message>)
    requires first.id != second.id && second.at < first.at
    ensures outbox == [first, second] && stream == [Envelope(second), Envelope(first)]
  {
    var system := new System();
    system.Call(CommitEvent(first));
    system.Call(CommitEvent(second));
    EarlierGoesFirst(system.s);
    var ending := system.PublishBatch(0, 2, 3);
    outbox, stream := system.s.outbox, system.s.stream;
  }

  /** Two events are committed and published in order, and nothing is read yet. */
  method PublishTwo(first: Event, second: Event) returns (system: System)
    requires first.id != second.id
    ensures fresh(system) && system.Valid()
    ensures system.s == INITIAL.(outbox := [first, second], published := {0, 1}, stream := [Envelope(first), Envelope(second)])
  {
    system := new System();
    system.Call(CommitEvent(first));
    OnlyOldest(system.s, 1, 0);
    var ending := system.PublishBatch(0, 1, 2);
    assert system.s.stream == [Envelope(first)];
    system.Call(CommitEvent(second));
    OnlyOldest(system.s, 1, 1);
    ending := system.PublishBatch(0, 1, 2);
    assert system.s.stream == [Envelope(first), Envelope(second)];
    assert system.s.published == {0, 1};
  }

  /** What the loop on one new entry leaves: the entry pending, or its event's effect. */
  predicate ConsumedOne(before: State, after: State, fails: bool)
    requires before.cursor < |before.stream| && before.stream[before.cursor].Envelope?
  {
    var n := before.cursor;
    var e := before.stream[n].event;
    && (fails ==> after == before.(cursor := n + 1, pending := before.pending[n := 1]))
    && (!fails ==> after.outbox == before.outbox && after.log == if e.id in before.model.processed then before.log else before.log + [e])
  }

  lemma AfterConsuming(w: Id, verdicts: map<nat, Verdict>, h: seq<Action>, before: State, history: seq<Action>, after: State)
    requires Run(INITIAL, h) == Some(before) && Run(INITIAL, history) == Some(after)
    requires HandOf(before, w) == Idle && before.cursor < |before.stream| && before.stream[before.cursor].Envelope?
    requires VerdictFor(verdicts, before.cursor) != Rejects
    requires var n := before.cursor;
      history == h + (Reads(1) + Trace(w, NewItems(w, before.stream, Between(n, n + 1), verdicts, map[])))
    ensures ConsumedOne(before, after, VerdictFor(verdicts, before.cursor) == Fails)
    ensures AllDone(NewItems(w, before.stream, Between(before.cursor, before.cursor + 1), verdicts, map[])) <==>
      VerdictFor(verdicts, before.cursor) != Fails
  {
    var n := before.cursor;
    OneNewEntry(w, before.stream, n, verdicts);
    AfterOneEntry(h, w, n);
  }

  /** The worker's loop on one new entry. */
  method ConsumeOne(system: System, w: Id, verdicts: map<nat, Verdict>) returns (ending: Ending)
    requires system.Valid() && HandOf(system.s, w) == Idle && system.s.cursor < |system.s.stream|
    requires system.s.stream[system.s.cursor].Envelope? && VerdictFor(verdicts, system.s.cursor) != Rejects
    modifies system
    ensures system.Valid() && (ending == Finished <==> VerdictFor(verdicts, old(system.s.cursor)) != Fails)
    ensures ConsumedOne(old(system.s), system.s, VerdictFor(verdicts, old(system.s.cursor)) == Fails)
  {
    ghost var before, h := system.s, system.history;
    ending := system.ConsumeNew(w, 1, verdicts, map[]);
    ghost var n := before.cursor;
    assert system.s.cursor == n + 1 && |Between(n, n + 1)| == 1;
    AfterConsuming(w, verdicts, h, before, system.history, system.s);
  }

  /**
   The order is not kept by itself. The worker's own loop overtakes: two events are published
   in order, the first read fails on a dependency and leaves its entry pending, the next one
   goes on behind it, and the second event takes effect first.
   */
  method OvertakingRun(first: Event, second: Event) returns (outbox: seq<Event>, log: seq<Event>, endings: seq<bool>)
    requires first.id != second.id
    ensures outbox == [first, second] && log == [second] && endings == [false, true]
  {
    var system := PublishTwo(first, second);
    var raised := ConsumeOne(system, 0, map[0 := Fails]);
    var finished := ConsumeOne(system, 0, map[]);
    outbox, log, endings := system.s.outbox, system.s.log, [raised == Finished, finished == Finished];
  }
}
