/**
 The worker loops of the pipeline as they are written: publish a batch, consume new
 entries, recover pending ones, retry a dead letter. Each is proved to perform nothing but
 legal steps of the pipeline, in the order of its script, wherever it is cut off.
 */
module PipelineWorker {
  import opened Common
  import opened ReadModel
  import opened Pipeline

  /** How the projection transaction of a well-formed message turns out. */
  datatype Verdict =
    | Accepts   // it commits, or finds the event already processed
    | Rejects   // it raises a value or type error: the message is dead-lettered
    | Fails     // a dependency error: the exception leaves the loop, the entry stays pending

  /** How a call ended: normally, with an exception, or because the process died. */
  datatype Ending = Finished | Raised | Died

  /** What processing an entry does when nothing interrupts it. */
  function Script(w: Id, n: nat, message: Message, verdict: Verdict): seq<Action> {
    if message.Garbage? || verdict == Rejects then [Bury(w, n), Acknowledge(w), CountFailure(w)]
    else if verdict == Fails then []
    else [ApplyEntry(w, n), Acknowledge(w)]
  }

  function BuryScript(w: Id, n: nat): seq<Action> {
    [Bury(w, n), Acknowledge(w), CountFailure(w)]
  }

  /** One entry of a batch: what is to be done with it, and how many of the calls happen. */
  datatype Item = Item(script: seq<Action>, raises: bool, allowed: nat)

  function ItemFor(w: Id, n: nat, message: Message, verdict: Verdict, allowed: nat): Item {
    Item(Script(w, n, message, verdict), message.Envelope? && verdict == Fails, allowed)
  }

  predicate Done(item: Item) {
    !item.raises && |item.script| <= item.allowed
  }

  predicate AllDone(items: seq<Item>) {
    forall i :: 0 <= i < |items| ==> Done(items[i])
  }

  /** The calls of a batch: entry by entry, up to the first that raises or is cut off by a crash. */
  function Trace(w: Id, items: seq<Item>): seq<Action> {
    if |items| == 0 then []
    else if AllDone(Front(items)) then Trace(w, Front(items)) + CutOff(w, Last(items).script, Last(items).allowed)
    else Trace(w, Front(items))
  }

  lemma {:induction false} TraceStops(w: Id, items: seq<Item>, k: nat)
    requires k < |items| && !Done(items[k])
    ensures Trace(w, items) == Trace(w, items[..k + 1])
  {
    if k == |items| - 1 {
      assert items[..k + 1] == items;
    } else {
      TraceStops(w, Front(items), k);
      assert Front(items)[k] == items[k] && Front(items)[..k + 1] == items[..k + 1];
    }
  }

  /** The calls of entry k follow those of the entries before it. */
  lemma TraceExtends(w: Id, before: seq<Action>, items: seq<Item>, k: nat)
    requires k < |items| && AllDone(items[..k])
    ensures before + Trace(w, items[..k]) + CutOff(w, items[k].script, items[k].allowed) == before + Trace(w, items[..k + 1])
    ensures Done(items[k]) <==> AllDone(items[..k + 1])
  {
    assert Front(items[..k + 1]) == items[..k];
    assert items[..k + 1][k] == items[k];
  }

  lemma Associative(a: seq<Action>, b: seq<Action>, c: seq<Action>)
    ensures a + b + c == a + (b + c)
  {
  }

  function VerdictFor(verdicts: map<nat, Verdict>, n: nat): Verdict {
    if n in verdicts then verdicts[n] else Accepts
  }

  function AllowedFor(calls: map<nat, nat>, n: nat): nat {
    if n in calls then calls[n] else 3
  }

  /** New entries in the order they were read. */
  function NewItems(w: Id, stream: seq<Message>, entries: seq<nat>, verdicts: map<nat, Verdict>, calls: map<nat, nat>): seq<Item>
    requires forall i :: 0 <= i < |entries| ==> entries[i] < |stream|
  {
    seq(|entries|, i requires 0 <= i < |entries| =>
      ItemFor(w, entries[i], stream[entries[i]], VerdictFor(verdicts, entries[i]), AllowedFor(calls, entries[i])))
  }

  /** The entries from `first` up to `end`. */
  function Between(first: nat, end: nat): (entries: seq<nat>)
    requires first <= end
    ensures |entries| == end - first
    ensures forall i :: 0 <= i < |entries| ==> first <= entries[i] < end
    ensures forall n: nat :: first <= n < end ==> n in entries
  {
    if first == end then [] else Between(first, end - 1) + [end - 1]
  }

  /** Claimed entries in order: those delivered too often are given up, this delivery included. */
  function RecoveredItems(w: Id, s: State, claimed: seq<nat>, maxAttempts: nat, verdicts: map<nat, Verdict>, calls: map<nat, nat>): seq<Item>
    requires forall i :: 0 <= i < |claimed| ==> claimed[i] in s.pending && claimed[i] < |s.stream|
  {
    seq(|claimed|, i requires 0 <= i < |claimed| =>
      var n := claimed[i];
      if s.pending[n] + 1 > maxAttempts then Item(BuryScript(w, n), false, AllowedFor(calls, n))
      else ItemFor(w, n, s.stream[n], VerdictFor(verdicts, n), AllowedFor(calls, n)))
  }

  /** The first `k` claimed entries are dealt with, the others have been delivered once more than before. */
  predicate Recovered(before: State, s: State, claimed: seq<nat>, k: nat)
    requires forall j :: 0 <= j < |claimed| ==> claimed[j] in before.pending
  {
    && (forall j :: 0 <= j < k && j < |claimed| ==> claimed[j] !in s.pending)
    && (forall j :: k <= j < |claimed| ==> claimed[j] in s.pending && s.pending[claimed[j]] == before.pending[claimed[j]] + 1)
  }

  lemma NextRecovered(before: State, s: State, t: State, claimed: seq<nat>, k: nat)
    requires forall j :: 0 <= j < |claimed| ==> claimed[j] in before.pending
    requires Distinct(claimed) && k < |claimed| && Recovered(before, s, claimed, k) && t.pending == s.pending - {claimed[k]}
    ensures Recovered(before, t, claimed, k + 1)
  {
  }

  /** The item of a claimed entry, by the delivery count the claim has left. */
  lemma RecoveredItem(w: Id, before: State, s: State, claimed: seq<nat>, maxAttempts: nat, verdicts: map<nat, Verdict>,
                      calls: map<nat, nat>, i: nat)
    requires forall j :: 0 <= j < |claimed| ==> claimed[j] in before.pending && claimed[j] < |before.stream|
    requires i < |claimed| && claimed[i] in s.pending && before.stream == s.stream
    requires s.pending[claimed[i]] == before.pending[claimed[i]] + 1
    ensures var n := claimed[i];
      var items := RecoveredItems(w, before, claimed, maxAttempts, verdicts, calls);
      items[i] == if s.pending[n] > maxAttempts then Item(BuryScript(w, n), false, AllowedFor(calls, n))
                  else ItemFor(w, n, s.stream[n], VerdictFor(verdicts, n), AllowedFor(calls, n))
  {
  }

  /** The entry's event has its effect, whether it took it now or before, and no dead letter was written. */
  predicate Applied(before: State, after: State, n: nat)
    requires n < |before.stream| && before.stream[n].Envelope?
  {
    && after.model == Apply(before.model, before.stream[n].event)
    && before.stream[n].event.id in after.model.processed && after.dead == before.dead
  }

  /** The entry is a dead letter, and nothing but the failure counter of the projection changed. */
  predicate GivenUp(before: State, after: State, n: nat)
    requires n < |before.stream|
  {
    && after.dead == before.dead[before.nextDead := before.stream[n]] && after.log == before.log
    && after.model.rows == before.model.rows && after.model.processed == before.model.processed
    && after.model == FailureCounted(before.model)
  }

  function Reads(count: nat): seq<Action> {
    seq(count, _ => Read)
  }

  function Claims(entries: seq<nat>): seq<Action> {
    seq(|entries|, i requires 0 <= i < |entries| => Claim(entries[i]))
  }

  /**
   The shared databases and streams, changed one call at a time. `history` records the
   calls; every method extends it, and the state is always the run of the history.
   */
  class System {
    var s: State
    ghost var history: seq<Action>

    ghost predicate Valid()
      reads this
    {
      Run(INITIAL, history) == Some(s)
    }

    constructor ()
      ensures Valid() && s == INITIAL
    {
      s, history := INITIAL, [];
    }

    /** One atomic database or stream call. */
    method Call(a: Action)
      requires Valid() && Step(s, a).Some?
      modifies this
      ensures Valid() && s == Step(old(s), a).value && history == old(history) + [a]
    {
      s := Step(s, a).value;
      history := history + [a];
      assert Front(history) == old(history);
    }

    /** The process of a worker dies. */
    method Crash(w: Id) returns (ending: Ending)
      requires Valid()
      modifies this
      ensures Valid() && history == old(history) + [CrashWorker(w)] && ending == Died
      ensures s.stream == old(s.stream) && s.cursor == old(s.cursor)
    {
      Call(CrashWorker(w));
      ending := Died;
    }

    /** Acknowledges a buried entry and counts the failure. */
    method FinishBurial(w: Id, n: nat, calls: nat) returns (ending: Ending)
      requires Valid() && HandOf(s, w) == Buried(n)
      modifies this
      ensures Valid() && history == old(history) + CutOff(w, [Acknowledge(w), CountFailure(w)], calls)
      ensures ending == if 2 <= calls then Finished else Died
      ensures s.stream == old(s.stream) && s.cursor == old(s.cursor)
      ensures ending == Finished ==> s.pending == old(s.pending) - {n} && HandOf(s, w) == Idle
      ensures ending == Finished ==> s.dead == old(s.dead) && s.log == old(s.log) && s.model == FailureCounted(old(s.model))
    {
      if calls == 0 {
        ending := Crash(w);
        return;
      }
      Call(Acknowledge(w));
      if calls == 1 {
        ending := Crash(w);
        return;
      }
      Call(CountFailure(w));
      ending := Finished;
    }

    /** Adds the entry to the dead-letter stream, acknowledges it and counts the failure. */
    method BuryMessage(w: Id, n: nat, calls: nat) returns (ending: Ending)
      requires Valid() && HandOf(s, w) == Idle && n < s.cursor && n < |s.stream|
      modifies this
      ensures Valid() && history == old(history) + CutOff(w, BuryScript(w, n), calls)
      ensures ending == if 3 <= calls then Finished else Died
      ensures s.stream == old(s.stream) && s.cursor == old(s.cursor)
      ensures ending == Finished ==> s.pending == old(s.pending) - {n} && HandOf(s, w) == Idle
      ensures ending == Finished ==> GivenUp(old(s), s, n)
    {
      if calls == 0 {
        ending := Crash(w);
        return;
      }
      Call(Bury(w, n));
      ending := FinishBurial(w, n, calls - 1);
    }

    /** Commits the projection transaction of one message, then acknowledges it. */
    method ApplyMessage(w: Id, n: nat, calls: nat) returns (ending: Ending)
      requires Valid() && HandOf(s, w) == Idle && n < s.cursor && n < |s.stream| && s.stream[n].Envelope?
      modifies this
      ensures Valid() && history == old(history) + CutOff(w, [ApplyEntry(w, n), Acknowledge(w)], calls)
      ensures ending == if 2 <= calls then Finished else Died
      ensures s.stream == old(s.stream) && s.cursor == old(s.cursor)
      ensures ending == Finished ==> s.pending == old(s.pending) - {n} && HandOf(s, w) == Idle
      ensures ending == Finished ==> Applied(old(s), s, n)
    {
      if calls == 0 {
        ending := Crash(w);
        return;
      }
      Call(ApplyEntry(w, n));
      if calls == 1 {
        ending := Crash(w);
        return;
      }
      Call(Acknowledge(w));
      ending := Finished;
    }

    /** Validates and applies one message and acknowledges it, or dead-letters it. */
    method ProcessMessage(w: Id, n: nat, verdict: Verdict, calls: nat) returns (ending: Ending)
      requires Valid() && HandOf(s, w) == Idle && n < s.cursor && n < |s.stream|
      modifies this
      ensures var item := ItemFor(w, n, old(s.stream)[n], verdict, calls);
        && history == old(history) + CutOff(w, item.script, item.allowed)
        && (ending == Finished <==> Done(item))
      ensures Valid() && (ending == Raised <==> old(s.stream)[n].Envelope? && verdict == Fails)
      ensures ending == Raised ==> s == old(s)
      ensures ending == Finished ==>
        if old(s.stream)[n].Envelope? && verdict == Accepts then Applied(old(s), s, n) else GivenUp(old(s), s, n)
      ensures s.stream == old(s.stream) && s.cursor == old(s.cursor)
      ensures ending == Finished ==> s.pending == old(s.pending) - {n} && HandOf(s, w) == Idle
    {
      if s.stream[n].Garbage? || verdict == Rejects {
        ending := BuryMessage(w, n, calls);
      } else if verdict == Fails {
        ending := Raised;
      } else {
        ending := ApplyMessage(w, n, calls);
      }
    }

    /** Hands up to `count` new entries to the group. */
    method ReadGroup(count: nat)
      requires Valid() && s.cursor <= |s.stream|
      modifies this
      ensures Valid() && s.stream == old(s.stream) && s.hands == old(s.hands)
      ensures s.cursor == Min(old(s.cursor) + count, |s.stream|)
      ensures history == old(history) + Reads(s.cursor - old(s.cursor))
    {
      var read := 0;
      while read < count && s.cursor < |s.stream|
        invariant Valid() && history == old(history) + Reads(read)
        invariant read <= count && s.cursor == old(s.cursor) + read <= |s.stream|
        invariant s.stream == old(s.stream) && s.hands == old(s.hands)
      {
        Call(Read);
        assert Reads(read + 1) == Reads(read) + [Read];
        read := read + 1;
      }
    }

    /** Processes entries in order, until one does not finish. */
    method ProcessNew(w: Id, entries: seq<nat>, verdicts: map<nat, Verdict>, calls: map<nat, nat>, ghost items: seq<Item>)
      returns (ending: Ending)
      requires Valid() && HandOf(s, w) == Idle
      requires forall i :: 0 <= i < |entries| ==> entries[i] < s.cursor && entries[i] < |s.stream|
      requires items == NewItems(w, s.stream, entries, verdicts, calls)
      modifies this
      ensures Valid() && s.stream == old(s.stream) && s.cursor == old(s.cursor)
      ensures history == old(history) + Trace(w, items)
      ensures ending == Finished <==> AllDone(items)
      ensures ending == Finished ==> forall n | n in entries :: n !in s.pending
    {
      ghost var before := history;
      var i := 0;
      while i < |entries|
        invariant Valid() && i <= |entries| && HandOf(s, w) == Idle
        invariant s.stream == old(s.stream) && s.cursor == old(s.cursor)
        invariant AllDone(items[..i]) && history == before + Trace(w, items[..i])
        invariant forall n | n in entries[..i] :: n !in s.pending
      {
        var n := entries[i];
        assert entries[..i + 1] == entries[..i] + [n];
        TraceExtends(w, before, items, i);
        ending := ProcessMessage(w, n, VerdictFor(verdicts, n), AllowedFor(calls, n));
        if ending != Finished {
          TraceStops(w, items, i);
          return;
        }
        i := i + 1;
      }
      assert items[..i] == items && entries[..i] == entries;
      ending := Finished;
    }

    /**
     Reads up to `count` new entries for the group, then processes them in order. An
     exception or a crash leaves the rest of them pending.
     */
    method ConsumeNew(w: Id, count: nat, verdicts: map<nat, Verdict>, calls: map<nat, nat>) returns (ending: Ending)
      requires Valid() && HandOf(s, w) == Idle && s.cursor <= |s.stream|
      modifies this
      ensures Valid() && s.stream == old(s.stream) && s.cursor == Min(old(s.cursor) + count, |s.stream|)
      ensures var entries := Between(old(s.cursor), s.cursor);
        var items := NewItems(w, s.stream, entries, verdicts, calls);
        && history == old(history) + (Reads(|entries|) + Trace(w, items))
        && (ending == Finished <==> AllDone(items))
        && (ending == Finished ==> forall n | n in entries :: n !in s.pending)
    {
      var first := s.cursor;
      ReadGroup(count);
      var entries := Between(first, s.cursor);
      ghost var items := NewItems(w, s.stream, entries, verdicts, calls);
      ending := ProcessNew(w, entries, verdicts, calls, items);
      Associative(old(history), Reads(|entries|), Trace(w, items));
    }

    /** Claims idle pending entries: each is delivered once more. */
    method ClaimIdle(claimed: seq<nat>)
      requires Valid() && Distinct(claimed) && forall i :: 0 <= i < |claimed| ==> claimed[i] in s.pending
      modifies this
      ensures Valid() && history == old(history) + Claims(claimed)
      ensures s.stream == old(s.stream) && s.cursor == old(s.cursor) && s.hands == old(s.hands)
      ensures s.pending.Keys == old(s.pending).Keys
      ensures forall i :: 0 <= i < |claimed| ==> s.pending[claimed[i]] == old(s.pending)[claimed[i]] + 1
    {
      var i := 0;
      while i < |claimed|
        invariant Valid() && i <= |claimed| && history == old(history) + Claims(claimed[..i])
        invariant s.stream == old(s.stream) && s.cursor == old(s.cursor) && s.hands == old(s.hands)
        invariant s.pending.Keys == old(s.pending).Keys
        invariant forall j :: 0 <= j < |claimed| ==>
          s.pending[claimed[j]] == old(s.pending)[claimed[j]] + if j < i then 1 else 0
      {
        assert claimed[i] in s.pending.Keys;
        Call(Claim(claimed[i]));
        assert Claims(claimed[..i + 1]) == Claims(claimed[..i]) + [Claim(claimed[i])];
        i := i + 1;
      }
      assert claimed[..i] == claimed;
    }

    /** Gives up or processes one claimed entry. */
    method RecoverOne(w: Id, n: nat, maxAttempts: nat, verdict: Verdict, allowed: nat) returns (ending: Ending)
      requires Valid() && HandOf(s, w) == Idle && n in s.pending && n < s.cursor && n < |s.stream|
      modifies this
      ensures Valid() && s.stream == old(s.stream) && s.cursor == old(s.cursor)
      ensures var item := if old(s.pending)[n] > maxAttempts then Item(BuryScript(w, n), false, allowed)
                          else ItemFor(w, n, s.stream[n], verdict, allowed);
        && history == old(history) + CutOff(w, item.script, item.allowed)
        && (ending == Finished <==> Done(item))
      ensures ending == Finished ==> s.pending == old(s.pending) - {n} && HandOf(s, w) == Idle
    {
      var attempts := if n in s.pending then s.pending[n] else 1;
      if attempts > maxAttempts {
        ending := BuryMessage(w, n, allowed);
      } else {
        ending := ProcessMessage(w, n, verdict, allowed);
      }
    }

    /** Works through entries that were just claimed. */
    method RecoverClaimed(w: Id, claimed: seq<nat>, maxAttempts: nat, verdicts: map<nat, Verdict>, calls: map<nat, nat>,
                          ghost before: State, ghost items: seq<Item>)
      returns (ending: Ending)
      requires Valid() && HandOf(s, w) == Idle && Distinct(claimed) && before.stream == s.stream
      requires forall i :: 0 <= i < |claimed| ==>
        claimed[i] < s.cursor && claimed[i] < |s.stream| && claimed[i] in before.pending
      requires Recovered(before, s, claimed, 0)
      requires items == RecoveredItems(w, before, claimed, maxAttempts, verdicts, calls)
      modifies this
      ensures Valid() && s.stream == old(s.stream) && s.cursor == old(s.cursor)
      ensures history == old(history) + Trace(w, items)
      ensures ending == Finished <==> AllDone(items)
      ensures ending == Finished ==> forall i :: 0 <= i < |claimed| ==> claimed[i] !in s.pending
    {
      ghost var calledBefore := history;
      var i := 0;
      while i < |claimed|
        invariant Valid() && i <= |claimed| && HandOf(s, w) == Idle
        invariant s.stream == old(s.stream) && s.cursor == old(s.cursor)
        invariant AllDone(items[..i]) && history == calledBefore + Trace(w, items[..i])
        invariant Recovered(before, s, claimed, i)
      {
        var n := claimed[i];
        ghost var atEntry := s;
        RecoveredItem(w, before, s, claimed, maxAttempts, verdicts, calls, i);
        TraceExtends(w, calledBefore, items, i);
        ending := RecoverOne(w, n, maxAttempts, VerdictFor(verdicts, n), AllowedFor(calls, n));
        if ending != Finished {
          TraceStops(w, items, i);
          return;
        }
        NextRecovered(before, atEntry, s, claimed, i);
        i := i + 1;
      }
      assert items[..i] == items;
      ending := Finished;
    }

    /**
     Claims idle pending entries, then gives up on those delivered too often and processes
     the others again.
     */
    method RecoverPending(w: Id, claimed: seq<nat>, maxAttempts: nat, verdicts: map<nat, Verdict>, calls: map<nat, nat>)
      returns (ending: Ending)
      requires Valid() && HandOf(s, w) == Idle && Distinct(claimed)
      requires forall i :: 0 <= i < |claimed| ==> claimed[i] in s.pending && claimed[i] < s.cursor && claimed[i] < |s.stream|
      modifies this
      ensures Valid() && s.stream == old(s.stream) && s.cursor == old(s.cursor)
      ensures var items := RecoveredItems(w, old(s), claimed, maxAttempts, verdicts, calls);
        && history == old(history) + (Claims(claimed) + Trace(w, items))
        && (ending == Finished <==> AllDone(items))
      ensures ending == Finished ==> forall i :: 0 <= i < |claimed| ==> claimed[i] !in s.pending
    {
      ghost var before := s;
      ghost var items := RecoveredItems(w, s, claimed, maxAttempts, verdicts, calls);
      ClaimIdle(claimed);
      ending := RecoverClaimed(w, claimed, maxAttempts, verdicts, calls, before, items);
      Associative(old(history), Claims(claimed), Trace(w, items));
    }

    /** Adds one selected row to the stream inside the publisher's open transaction. */
    method AddToStream(p: Id, row: nat)
      requires Valid() && row < |s.outbox| && row !in s.published && !Locked(s, row)
      modifies this
      ensures Valid() && history == old(history) + [PublishAdd(p, row)]
      ensures s == old(s).(stream := old(s.stream) + [Envelope(old(s.outbox)[row])],
                           open := old(s.open)[p := OpenOf(old(s), p) + {row}])
    {
      Call(PublishAdd(p, row));
    }

    /** Ends the publisher's transaction: its rows are marked published, or all released. */
    method EndTransaction(p: Id, commit: bool)
      requires Valid()
      modifies this
      ensures Valid() && old(history) <= history
      ensures s == old(s).(open := old(s.open) - {p},
                           published := old(s.published) + if commit then OpenOf(old(s), p) else {})
    {
      if commit {
        Call(PublishCommit(p));
      } else {
        Call(PublishAbort(p));
      }
    }

    /** Adds the selected rows one by one, at most `calls` of them. */
    method AddRows(p: Id, rows: seq<nat>, calls: nat) returns (added: seq<nat>)
      requires Valid() && p !in s.open && Distinct(rows)
      requires forall i :: 0 <= i < |rows| ==> rows[i] < |s.outbox| && Free(s, rows[i])
      modifies this
      ensures Valid() && old(history) <= history
      ensures added == rows[..Min(|rows|, calls)]
      ensures s == old(s).(stream := s.stream, open := s.open)
      ensures s.open - {p} == old(s.open) && OpenOf(s, p) == Elements(added)
      ensures s.stream == old(s.stream) + Envelopes(old(s.outbox), added)
    {
      added := [];
      while |added| < |rows| && |added| < calls
        invariant Valid() && old(history) <= history
        invariant |added| <= |rows| && |added| <= calls && added == rows[..|added|]
        invariant s == old(s).(stream := s.stream, open := s.open)
        invariant s.open - {p} == old(s.open) && OpenOf(s, p) == Elements(added)
        invariant s.stream == old(s.stream) + Envelopes(old(s.outbox), added)
      {
        var row := rows[|added|];
        NotYetLocked(old(s), s, p, rows, |added|);
        AddToStream(p, row);
        assert Elements(added + [row]) == Elements(added) + {row};
        added := added + [row];
      }
    }

    /**
     Publishes the unpublished rows no other publisher holds, those created first at the front:
     each is added to the stream, and all of them are marked in one commit at the end. A crash before the commit
     leaves them unpublished.
     */
    method PublishBatch(p: Id, limit: nat, calls: nat) returns (ending: Ending)
      requires Valid() && p !in s.open
      modifies this
      ensures Valid() && old(history) <= history
      ensures var rows := Oldest(old(s), limit);
        var added := rows[..Min(|rows|, calls)];
        && ending == (if |rows| < calls then Finished else Died)
        && s.stream == old(s.stream) + Envelopes(old(s.outbox), added)
        && s.published == old(s.published) + (if |rows| < calls then Elements(rows) else {})
        && s == old(s).(stream := s.stream, published := s.published)
    {
      var rows := Oldest(s, limit);
      OldestRows(s, limit);
      var added := AddRows(p, rows, calls);
      EndTransaction(p, |rows| < calls);
      ending := if |rows| < calls then Finished else Died;
    }

    /** Puts a dead letter back on the stream and then deletes it; garbage is not found. */
    method RetryDeadLetter(admin: Id, d: nat, calls: nat) returns (found: bool)
      requires Valid() && admin !in s.lifting
      modifies this
      ensures Valid() && found == (d in old(s.dead) && old(s.dead)[d].Envelope?)
      ensures !found || calls == 0 ==> history == old(history) && s == old(s)
      ensures found && calls > 0 ==>
        history == old(history) + [LiftAdd(admin, d), if calls == 1 then LiftAbort(admin) else LiftDelete(admin)]
      ensures found && calls > 0 ==> s.stream == old(s.stream) + [old(s.dead)[d]]
      ensures found ==> s.dead == if calls < 2 then old(s.dead) else old(s.dead) - {d}
    {
      if d !in s.dead || s.dead[d].Garbage? {
        return false;
      }
      found := true;
      if calls > 0 {
        Call(LiftAdd(admin, d));
        if calls == 1 {
          Call(LiftAbort(admin));
        } else {
          Call(LiftDelete(admin));
        }
      }
    }
  }

  // ---- what becomes of each entry ----

  /** A batch that was worked through holds exactly the calls of its items' scripts. */
  lemma {:induction false} TraceHolds(w: Id, items: seq<Item>, a: Action)
    requires AllDone(items)
    ensures a in Trace(w, items) <==> exists i :: 0 <= i < |items| && a in items[i].script
  {
    if |items| > 0 {
      var last := Last(items);
      assert last == items[|items| - 1] && Done(last);
      assert forall i :: 0 <= i < |items| - 1 ==> Front(items)[i] == items[i];
      TraceHolds(w, Front(items), a);
      if i :| 0 <= i < |items| && a in items[i].script {
        assert i < |items| - 1 ==> a in Front(items)[i].script;
      }
    }
  }

  /** The entry is to be given up: its body is invalid or is rejected. */
  predicate Hopeless(message: Message, verdicts: map<nat, Verdict>, n: nat) {
    message == Garbage || (n in verdicts && verdicts[n] == Rejects)
  }

  /** Which dead letters and effects a script holds. */
  lemma ScriptHolds(w: Id, n: nat, m: nat, message: Message, verdict: Verdict)
    ensures Bury(w, n) in Script(w, m, message, verdict) <==> n == m && (message == Garbage || verdict == Rejects)
    ensures ApplyEntry(w, n) in Script(w, m, message, verdict) <==> n == m && message != Garbage && verdict == Accepts
    ensures Bury(w, n) in BuryScript(w, m) <==> n == m
    ensures ApplyEntry(w, n) !in BuryScript(w, m)
  {
    assert Script(w, m, message, verdict) == BuryScript(w, m) || Script(w, m, message, verdict) == []
           || Script(w, m, message, verdict) == [ApplyEntry(w, m), Acknowledge(w)];
    assert BuryScript(w, m)[0] == Bury(w, m);
    assert [ApplyEntry(w, m), Acknowledge(w)][0] == ApplyEntry(w, m);
  }

  /**
   Of the new entries of a batch that was worked through exactly the invalid and rejected ones
   are dead-lettered, and exactly the others take effect.
   */
  lemma ConsumedExactly(w: Id, s: State, entries: seq<nat>, verdicts: map<nat, Verdict>, calls: map<nat, nat>, k: nat)
    requires forall i :: 0 <= i < |entries| ==> entries[i] < |s.stream|
    requires Distinct(entries) && k < |entries| && AllDone(NewItems(w, s.stream, entries, verdicts, calls))
    ensures var n, trace := entries[k], Trace(w, NewItems(w, s.stream, entries, verdicts, calls));
      && (Bury(w, n) in trace <==> Hopeless(s.stream[n], verdicts, n))
      && (ApplyEntry(w, n) in trace <==> !Hopeless(s.stream[n], verdicts, n))
  {
    var items, n := NewItems(w, s.stream, entries, verdicts, calls), entries[k];
    TraceHolds(w, items, Bury(w, n));
    TraceHolds(w, items, ApplyEntry(w, n));
    forall i | 0 <= i < |items|
      ensures Bury(w, n) in items[i].script <==> i == k && Hopeless(s.stream[n], verdicts, n)
      ensures ApplyEntry(w, n) in items[i].script <==> i == k && !Hopeless(s.stream[n], verdicts, n)
    {
      ScriptHolds(w, n, entries[i], s.stream[entries[i]], VerdictFor(verdicts, entries[i]));
      assert Done(items[i]);
    }
    if Hopeless(s.stream[n], verdicts, n) {
      assert Bury(w, n) in items[k].script;
    } else {
      assert ApplyEntry(w, n) in items[k].script;
    }
  }

  /**
   Of the claimed entries of a recovery that was worked through exactly those delivered more
   than the maximum number of times, this delivery included, and the invalid and rejected ones
   are dead-lettered, and exactly the others take effect.
   */
  lemma RecoveredExactly(w: Id, s: State, claimed: seq<nat>, maxAttempts: nat, verdicts: map<nat, Verdict>, calls: map<nat, nat>, k: nat)
    requires forall i :: 0 <= i < |claimed| ==> claimed[i] in s.pending && claimed[i] < |s.stream|
    requires Distinct(claimed) && k < |claimed| && AllDone(RecoveredItems(w, s, claimed, maxAttempts, verdicts, calls))
    ensures var n, trace := claimed[k], Trace(w, RecoveredItems(w, s, claimed, maxAttempts, verdicts, calls));
      var hopeless := s.pending[n] + 1 > maxAttempts || Hopeless(s.stream[n], verdicts, n);
      && (Bury(w, n) in trace <==> hopeless)
      && (ApplyEntry(w, n) in trace <==> !hopeless)
  {
    var items, n := RecoveredItems(w, s, claimed, maxAttempts, verdicts, calls), claimed[k];
    var hopeless := s.pending[n] + 1 > maxAttempts || Hopeless(s.stream[n], verdicts, n);
    TraceHolds(w, items, Bury(w, n));
    TraceHolds(w, items, ApplyEntry(w, n));
    forall i | 0 <= i < |items|
      ensures Bury(w, n) in items[i].script <==> i == k && hopeless
      ensures ApplyEntry(w, n) in items[i].script <==> i == k && !hopeless
    {
      ScriptHolds(w, n, claimed[i], s.stream[claimed[i]], VerdictFor(verdicts, claimed[i]));
      assert Done(items[i]);
    }
    if hopeless {
      assert Bury(w, n) in items[k].script;
    } else {
      assert ApplyEntry(w, n) in items[k].script;
    }
  }

  lemma NotYetLocked(before: State, s: State, p: Id, rows: seq<nat>, i: nat)
    requires i < |rows| && Distinct(rows) && !Locked(before, rows[i])
    requires s.open - {p} == before.open && OpenOf(s, p) == Elements(rows[..i])
    ensures !Locked(s, rows[i])
  {
    assert rows[i] !in Elements(rows[..i]);
    forall q | q in s.open
      ensures rows[i] !in s.open[q]
    {
      if q != p {
        assert q in s.open - {p} && before.open[q] == s.open[q];
      }
    }
  }

  /** A script cut off by a crash after `calls` of its calls. */
  function CutOff(w: Id, script: seq<Action>, calls: nat): seq<Action> {
    if |script| <= calls then script else script[..calls] + [CrashWorker(w)]
  }

  /** What a batch is ordered by: the creation time, which the envelope carries, then the id. */
  predicate Before(e: Event, f: Event) {
    e.at < f.at || (e.at == f.at && e.id < f.id)
  }

  /** Event e was created before f, or at the same time with no greater id. */
  predicate InOrder(e: Event, f: Event) {
    e.at <= f.at && (e.at == f.at ==> e.id <= f.id)
  }

  predicate InRange(s: State, rows: seq<nat>) {
    forall i :: 0 <= i < |rows| ==> rows[i] < |s.outbox|
  }

  /** No row stands behind one that is to go after it. */
  predicate Sorted(s: State, rows: seq<nat>)
    requires InRange(s, rows)
  {
    forall i, j :: 0 <= i < j < |rows| ==> !Before(s.outbox[rows[j]], s.outbox[rows[i]])
  }

  /** Puts a row behind all that are not to go after it. */
  function InsertRow(s: State, rows: seq<nat>, row: nat): (r: seq<nat>)
    requires InRange(s, rows) && row < |s.outbox|
    ensures InRange(s, r) && Elements(r) == Elements(rows) + {row}
  {
    if |rows| == 0 || !Before(s.outbox[row], s.outbox[Last(rows)]) then
      assert Elements(rows + [row]) == Elements(rows) + {row};
      rows + [row]
    else
      var r := InsertRow(s, Front(rows), row);
      assert rows == Front(rows) + [Last(rows)];
      assert Elements(rows) == Elements(Front(rows)) + {Last(rows)};
      assert Elements(r + [Last(rows)]) == Elements(r) + {Last(rows)};
      r + [Last(rows)]
  }

  /** The rows below `bound` that are neither published nor locked, in the order of publishing. */
  function FreeRows(s: State, bound: nat): (rows: seq<nat>)
    requires bound <= |s.outbox|
    ensures InRange(s, rows)
  {
    if bound == 0 then []
    else if Free(s, bound - 1) then InsertRow(s, FreeRows(s, bound - 1), bound - 1)
    else FreeRows(s, bound - 1)
  }

  /** The first `limit` of the rows that are neither published nor locked. */
  function Oldest(s: State, limit: nat): (rows: seq<nat>)
    ensures InRange(s, rows)
  {
    var rows := FreeRows(s, |s.outbox|);
    rows[..Min(|rows|, limit)]
  }

  predicate Free(s: State, row: nat) {
    row !in s.published && !Locked(s, row)
  }

  lemma {:induction false} InsertSorted(s: State, rows: seq<nat>, row: nat)
    requires InRange(s, rows) && row < |s.outbox| && Sorted(s, rows) && Distinct(rows) && row !in rows
    ensures var r := InsertRow(s, rows, row); Sorted(s, r) && Distinct(r)
  {
    if |rows| > 0 && Before(s.outbox[row], s.outbox[Last(rows)]) {
      var front := Front(rows);
      InsertSorted(s, front, row);
      var r := InsertRow(s, front, row);
      forall i | 0 <= i < |r|
        ensures r[i] != Last(rows) && !Before(s.outbox[Last(rows)], s.outbox[r[i]])
      {
        assert r[i] in Elements(r);
        if r[i] != row {
          assert r[i] in front;
          var j :| 0 <= j < |front| && front[j] == r[i];
          assert rows[j] == r[i];
        }
      }
    }
  }

  lemma {:induction false} FreeSorted(s: State, bound: nat)
    requires bound <= |s.outbox|
    ensures var rows := FreeRows(s, bound);
      && Sorted(s, rows) && Distinct(rows)
      && forall row: nat :: row in rows <==> row < bound && Free(s, row)
  {
    if bound > 0 {
      FreeSorted(s, bound - 1);
      if Free(s, bound - 1) {
        var rest := FreeRows(s, bound - 1);
        InsertSorted(s, rest, bound - 1);
        assert Elements(FreeRows(s, bound)) == Elements(rest) + {bound - 1};
        forall row: nat
          ensures row in FreeRows(s, bound) <==> row in rest || row == bound - 1
        {
          assert row in FreeRows(s, bound) <==> row in Elements(FreeRows(s, bound));
          assert row in rest <==> row in Elements(rest);
        }
      }
    }
  }

  /**
   The selection is free, without repetition, within the limit and ordered by creation time;
   a free row is left out only when the limit is reached, and goes before none of the selected.
   */
  lemma OldestRows(s: State, limit: nat)
    ensures var rows := Oldest(s, limit);
      && |rows| <= limit && Distinct(rows)
      && (forall i :: 0 <= i < |rows| ==> rows[i] !in s.published && forall p :: p in s.open ==> rows[i] !in s.open[p])
      && (forall i, j :: 0 <= i < j < |rows| ==> InOrder(s.outbox[rows[i]], s.outbox[rows[j]]))
      && (forall row: nat :: row < |s.outbox| && row !in s.published && !Locked(s, row) && row !in rows
            ==> |rows| == limit && forall i :: 0 <= i < |rows| ==> InOrder(s.outbox[rows[i]], s.outbox[row]))
  {
    FreeSorted(s, |s.outbox|);
    var all, rows := FreeRows(s, |s.outbox|), Oldest(s, limit);
    forall i | 0 <= i < |rows|
      ensures rows[i] !in s.published && forall p :: p in s.open ==> rows[i] !in s.open[p]
    {
      assert all[i] in all && Free(s, rows[i]);
    }
    forall row: nat | row < |s.outbox| && Free(s, row) && row !in rows
      ensures |rows| == limit && forall i :: 0 <= i < |rows| ==> InOrder(s.outbox[rows[i]], s.outbox[row])
    {
      assert row in all;
      var k :| 0 <= k < |all| && all[k] == row;
      assert rows == all[..|rows|];
    }
  }

  function Envelopes(outbox: seq<Event>, rows: seq<nat>): seq<Message>
    requires forall i :: 0 <= i < |rows| ==> rows[i] < |outbox|
  {
    seq(|rows|, i requires 0 <= i < |rows| => Envelope(outbox[rows[i]]))
  }
}
