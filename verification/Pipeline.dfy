/**
 The event pipeline: transactional outboxes, one stream read through a consumer group,
 the dead-letter stream with its admin retry, and the projection. Every database commit
 and every stream command is one step; a process may crash between any two of its steps.
 */
module Pipeline {
  import opened Common
  import opened ReadModel

  /** An event of the pipeline, as the projection sees it. */
  type Event = Write

  /** A stream entry: an event envelope, or a body that does not validate as one. */
  datatype Message = Envelope(event: Event) | Garbage

  /** How far a consumer got with the entry it is working on. */
  datatype Hand =
    | Idle
    | Committed(entry: nat)     // the projection transaction is committed, the ack is outstanding
    | Buried(entry: nat)        // the dead-letter entry is written, the ack is outstanding
    | Acknowledged(entry: nat)  // a buried entry is acknowledged, the failure is not yet counted

  datatype State = State(
    outbox: seq<Event>,           // committed outbox rows, oldest first
    published: set<nat>,          // rows whose published_at is committed
    open: map<Id, set<nat>>,      // per publisher: rows added to the stream, commit outstanding
    stream: seq<Message>,
    cursor: nat,                  // entries before it have been handed to the consumer group
    pending: map<nat, nat>,       // unacknowledged entries and how often they were delivered
    dead: map<nat, Message>,
    nextDead: nat,
    lifting: map<Id, nat>,        // per admin request: the dead-letter entry re-added, delete outstanding
    model: Model,
    log: seq<Event>,              // history: the events whose effect was committed, in order
    hands: map<Id, Hand>)

  const INITIAL: State := State([], {}, map[], [], 0, map[], map[], 0, map[], EMPTY, [], map[])

  datatype Action =
    | CommitEvent(e: Event)               // a service commits an outbox row with its own change
    | AddGarbage                          // some producer adds an invalid body
    | PublishAdd(publisher: Id, row: nat)
    | PublishCommit(publisher: Id)
    | PublishAbort(publisher: Id)
    | Read
    | Claim(entry: nat)
    | ApplyEntry(worker: Id, entry: nat)
    | Bury(worker: Id, entry: nat)
    | Acknowledge(worker: Id)
    | CountFailure(worker: Id)
    | CrashWorker(worker: Id)
    | Heartbeat
    | LiftAdd(admin: Id, deadEntry: nat)
    | LiftDelete(admin: Id)
    | LiftAbort(admin: Id)

  function HandOf(s: State, worker: Id): Hand {
    if worker in s.hands then s.hands[worker] else Idle
  }

  function OpenOf(s: State, publisher: Id): set<nat> {
    if publisher in s.open then s.open[publisher] else {}
  }

  /** Row i is locked by an open publishing transaction. */
  predicate Locked(s: State, row: nat) {
    exists p :: p in s.open && row in s.open[p]
  }

  function FailureCounted(m: Model): Model {
    m.(checkpoint := Some(match m.checkpoint
                          case None => Checkpoint(None, 0, 1, 0)
                          case Some(c) => c.(failedCount := c.failedCount + 1)))
  }

  function HeartbeatRecorded(m: Model): Model {
    if m.checkpoint.None? then m.(checkpoint := Some(Checkpoint(None, 0, 0, 0))) else m
  }

  /** One step; None when it is not enabled. */
  function Step(s: State, a: Action): Option<State> {
    match a
    case CommitEvent(e) =>
      if exists row :: row in s.outbox && row.id == e.id then None
      else Some(s.(outbox := s.outbox + [e]))
    case AddGarbage =>
      Some(s.(stream := s.stream + [Garbage]))
    case PublishAdd(p, row) =>
      if row >= |s.outbox| || row in s.published || Locked(s, row) then None
      else Some(s.(stream := s.stream + [Envelope(s.outbox[row])], open := s.open[p := OpenOf(s, p) + {row}]))
    case PublishCommit(p) =>
      Some(s.(published := s.published + OpenOf(s, p), open := s.open - {p}))
    case PublishAbort(p) =>
      Some(s.(open := s.open - {p}))
    case Read =>
      if s.cursor >= |s.stream| then None
      else Some(s.(cursor := s.cursor + 1, pending := s.pending[s.cursor := 1]))
    case Claim(n) =>
      if n !in s.pending then None
      else Some(s.(pending := s.pending[n := s.pending[n] + 1]))
    case ApplyEntry(w, n) =>
      if HandOf(s, w) != Idle || n >= s.cursor || n >= |s.stream| || s.stream[n].Garbage? then None
      else
        var e := s.stream[n].event;
        Some(s.(model := Apply(s.model, e),
                log := if e.id in s.model.processed then s.log else s.log + [e],
                hands := s.hands[w := Committed(n)]))
    case Bury(w, n) =>
      if HandOf(s, w) != Idle || n >= s.cursor || n >= |s.stream| then None
      else Some(s.(dead := s.dead[s.nextDead := s.stream[n]], nextDead := s.nextDead + 1,
                   hands := s.hands[w := Buried(n)]))
    case Acknowledge(w) =>
      (match HandOf(s, w)
       case Committed(n) => Some(s.(pending := s.pending - {n}, hands := s.hands[w := Idle]))
       case Buried(n) => Some(s.(pending := s.pending - {n}, hands := s.hands[w := Acknowledged(n)]))
       case _ => None)
    case CountFailure(w) =>
      if !HandOf(s, w).Acknowledged? then None
      else Some(s.(model := FailureCounted(s.model), hands := s.hands[w := Idle]))
    case CrashWorker(w) =>
      Some(s.(hands := s.hands - {w}))
    case Heartbeat =>
      Some(s.(model := HeartbeatRecorded(s.model)))
    case LiftAdd(admin, d) =>
      if admin in s.lifting || d !in s.dead || s.dead[d].Garbage? then None
      else Some(s.(stream := s.stream + [s.dead[d]], lifting := s.lifting[admin := d]))
    case LiftDelete(admin) =>
      if admin !in s.lifting then None
      else Some(s.(dead := s.dead - {s.lifting[admin]}, lifting := s.lifting - {admin}))
    case LiftAbort(admin) =>
      Some(s.(lifting := s.lifting - {admin}))
  }

  function Run(s: State, actions: seq<Action>): Option<State> {
    if |actions| == 0 then Some(s)
    else match Run(s, Front(actions))
         case None => None
         case Some(t) => Step(t, Last(actions))
  }

  // ---- no event is lost ----

  /** Entry n is still owed to the group: unread, or read and not acknowledged. */
  predicate Owed(s: State, n: nat) {
    n < |s.stream| && (n >= s.cursor || n in s.pending)
  }

  predicate InStream(s: State, e: Event) {
    exists n: nat :: n < |s.stream| && Owed(s, n) && s.stream[n] == Envelope(e)
  }

  predicate InDeadLetter(s: State, e: Event) {
    exists d :: d in s.dead && s.dead[d] == Envelope(e)
  }

  /** Some consumer has buried entry n and is about to acknowledge it. */
  predicate BeingBuried(s: State, n: nat) {
    exists w :: w in s.hands && s.hands[w] == Buried(n)
  }

  predicate BeingLifted(s: State, d: nat) {
    exists admin :: admin in s.lifting && s.lifting[admin] == d
  }

  /**
   What keeps a published event: its effect, a dead-letter entry nobody is about to delete,
   or an owed stream entry nobody is about to acknowledge without its effect.
   */
  ghost predicate Kept(s: State, e: Event) {
    || e.id in s.model.processed
    || (exists d :: d in s.dead && s.dead[d] == Envelope(e) && !BeingLifted(s, d))
    || (exists n: nat :: Owed(s, n) && s.stream[n] == Envelope(e) && !BeingBuried(s, n))
  }

  ghost predicate RowKept(s: State, row: nat) {
    row < |s.outbox| && Kept(s, s.outbox[row])
  }

  /** Every row whose event was added to the stream, committed as published or not, is kept. */
  ghost predicate AllKept(s: State) {
    && (forall row: nat :: row in s.published ==> RowKept(s, row))
    && (forall p: Id, row: nat :: p in s.open && row in s.open[p] ==> RowKept(s, row))
  }

  predicate QueuesWellFormed(s: State) {
    && s.cursor <= |s.stream|
    && (forall n :: n in s.pending ==> n < s.cursor)
    && (forall d :: d in s.dead ==> d < s.nextDead)
    && (forall admin :: admin in s.lifting ==> s.lifting[admin] < s.nextDead)
  }

  /** What a consumer between two of its steps has already made true of its entry. */
  predicate HandWellFormed(s: State, hand: Hand) {
    match hand
    case Committed(n) => n < |s.stream| && s.stream[n].Envelope? && s.stream[n].event.id in s.model.processed
    case Buried(n) => n < |s.stream|
    case _ => true
  }

  predicate HandsWellFormed(s: State) {
    forall w :: w in s.hands ==> HandWellFormed(s, s.hands[w])
  }

  predicate WellFormed(s: State) {
    QueuesWellFormed(s) && HandsWellFormed(s)
  }

  lemma QueuesByStep(s: State, a: Action, t: State)
    requires QueuesWellFormed(s) && Step(s, a) == Some(t)
    ensures QueuesWellFormed(t)
  {
  }

  lemma Monotone(s: State, a: Action, t: State)
    requires Step(s, a) == Some(t)
    ensures |s.stream| <= |t.stream| && (forall n :: 0 <= n < |s.stream| ==> t.stream[n] == s.stream[n])
    ensures s.model.processed <= t.model.processed
  {
  }

  lemma HandsByStep(s: State, a: Action, t: State)
    requires HandsWellFormed(s) && Step(s, a) == Some(t)
    ensures HandsWellFormed(t)
  {
    Monotone(s, a, t);
    forall w | w in t.hands
      ensures HandWellFormed(t, t.hands[w])
    {
      if w in s.hands && t.hands[w] == s.hands[w] {
        assert HandWellFormed(s, s.hands[w]);
      }
    }
  }

  lemma WellFormedByStep(s: State, a: Action, t: State)
    requires WellFormed(s) && Step(s, a) == Some(t)
    ensures WellFormed(t)
  {
    QueuesByStep(s, a, t);
    HandsByStep(s, a, t);
  }

  /** A dead-letter entry keeps its event until an admin has put the event back on the stream. */
  lemma KeptByDeadEntry(s: State, a: Action, t: State, e: Event, d: nat)
    requires WellFormed(s) && Step(s, a) == Some(t)
    requires d in s.dead && s.dead[d] == Envelope(e) && !BeingLifted(s, d)
    ensures Kept(t, e)
  {
    if a.LiftAdd? && a.deadEntry == d {
      var n := |s.stream|;
      assert Owed(t, n) && t.stream[n] == Envelope(e);
      assert !BeingBuried(t, n) by {
        HandsByStep(s, a, t);
        assert t.hands == s.hands;
      }
    } else {
      assert d in t.dead && t.dead[d] == Envelope(e) by {
        if a.LiftDelete? {
          assert s.lifting[a.admin] != d;
        }
      }
      assert !BeingLifted(t, d);
    }
  }

  lemma StillNotBuried(s: State, a: Action, t: State, n: nat)
    requires Step(s, a) == Some(t) && !BeingBuried(s, n) && !(a.Bury? && a.entry == n)
    ensures !BeingBuried(t, n)
  {
    forall w | w in t.hands
      ensures t.hands[w] != Buried(n)
    {
      if w in s.hands {
        assert s.hands[w] != Buried(n);
      }
    }
  }

  /** An owed stream entry keeps its event until it is processed or buried. */
  lemma KeptByStreamEntry(s: State, a: Action, t: State, e: Event, n: nat)
    requires WellFormed(s) && Step(s, a) == Some(t)
    requires Owed(s, n) && s.stream[n] == Envelope(e) && !BeingBuried(s, n)
    ensures Kept(t, e)
  {
    Monotone(s, a, t);
    if a.Bury? && a.entry == n {
      var d := s.nextDead;
      assert d in t.dead && t.dead[d] == Envelope(e);
      assert !BeingLifted(t, d);
    } else {
      StillNotBuried(s, a, t, n);
      if a.Acknowledge? && a.worker in s.hands {
        assert HandWellFormed(s, s.hands[a.worker]);
      }
      assert e.id in t.model.processed || Owed(t, n);
    }
  }

  /** No step loses an event: what keeps it before the step, or something else, keeps it after. */
  lemma KeptByStep(s: State, a: Action, t: State, e: Event)
    requires WellFormed(s) && Step(s, a) == Some(t) && Kept(s, e)
    ensures Kept(t, e)
  {
    Monotone(s, a, t);
    if e.id in s.model.processed {
    } else if d :| d in s.dead && s.dead[d] == Envelope(e) && !BeingLifted(s, d) {
      KeptByDeadEntry(s, a, t, e, d);
    } else {
      var n: nat :| Owed(s, n) && s.stream[n] == Envelope(e) && !BeingBuried(s, n);
      KeptByStreamEntry(s, a, t, e, n);
    }
  }

  lemma NewEntryKept(s: State, a: Action, t: State)
    requires WellFormed(s) && Step(s, a) == Some(t) && a.PublishAdd?
    ensures RowKept(t, a.row)
  {
    var n := |s.stream|;
    HandsByStep(s, a, t);
    assert Owed(t, n) && t.stream[n] == Envelope(t.outbox[a.row]);
    assert !BeingBuried(t, n) by {
      assert t.hands == s.hands;
    }
  }

  lemma AllKeptByStep(s: State, a: Action, t: State)
    requires WellFormed(s) && AllKept(s) && Step(s, a) == Some(t)
    ensures AllKept(t)
  {
    if a.PublishAdd? {
      NewEntryKept(s, a, t);
    }
    forall row: nat | RowKept(s, row)
      ensures RowKept(t, row)
    {
      KeptByStep(s, a, t, s.outbox[row]);
    }
    forall row: nat | row in t.published
      ensures RowKept(t, row)
    {
      if row !in s.published {
        assert a.publisher in s.open && row in s.open[a.publisher];
      }
    }
  }

  /** In every run every published event is kept. */
  lemma {:induction false} RunKeeps(actions: seq<Action>)
    requires Run(INITIAL, actions).Some?
    ensures WellFormed(Run(INITIAL, actions).value) && AllKept(Run(INITIAL, actions).value)
  {
    if |actions| > 0 {
      RunKeeps(Front(actions));
      var s := Run(INITIAL, Front(actions)).value;
      var t := Run(INITIAL, actions).value;
      WellFormedByStep(s, Last(actions), t);
      AllKeptByStep(s, Last(actions), t);
    }
  }

  /**
   No loss: whatever crashes, every committed outbox event is unpublished, in an
   unacknowledged stream entry, processed, or in the dead-letter stream.
   */
  lemma NoLoss(actions: seq<Action>, i: nat)
    requires Run(INITIAL, actions).Some? && i < |Run(INITIAL, actions).value.outbox|
    ensures var s := Run(INITIAL, actions).value;
      var e := s.outbox[i];
      i !in s.published || InStream(s, e) || e.id in s.model.processed || InDeadLetter(s, e)
  {
    RunKeeps(actions);
    var s := Run(INITIAL, actions).value;
    assert i in s.published ==> RowKept(s, i);
  }

  // ---- every effect happens at most once ----

  function ProcessedCount(m: Model): nat {
    if m.checkpoint.Some? then m.checkpoint.value.processedCount else 0
  }

  function VersionCount(m: Model): nat {
    if m.checkpoint.Some? then m.checkpoint.value.projectionVersion else 0
  }

  predicate DistinctIds(es: seq<Event>) {
    forall i, j :: 0 <= i < j < |es| ==> es[i].id != es[j].id
  }

  function MappedIn(es: seq<Event>): nat {
    if |es| == 0 then 0 else MappedIn(Front(es)) + if Last(es).values.Some? then 1 else 0
  }

  /** The messages and effects all stem from outbox rows. */
  predicate FromOutbox(s: State) {
    && (forall n :: 0 <= n < |s.stream| && s.stream[n].Envelope? ==> s.stream[n].event in s.outbox)
    && (forall d :: d in s.dead && s.dead[d].Envelope? ==> s.dead[d].event in s.outbox)
    && (forall i :: 0 <= i < |s.log| ==> s.log[i] in s.outbox)
  }

  /** The projection is the fold of the committed effects, each event once, and the counters count them. */
  predicate AppliedOnce(s: State) {
    && DistinctIds(s.outbox)
    && DistinctIds(s.log)
    && s.model.processed == ApplyAll(s.log).processed
    && s.model.rows == ApplyAll(s.log).rows
    && ProcessedCount(s.model) == |s.log|
    && VersionCount(s.model) == MappedIn(s.log)
  }

  lemma ProcessedAreLogged(log: seq<Event>)
    ensures forall id :: id in ApplyAll(log).processed <==> exists i :: 0 <= i < |log| && log[i].id == id
  {
    var ws := log;
    ProcessedIds(ws);
    forall i | 0 <= i < |log|
      ensures ws[i].id == log[i].id
    {
    }
  }

  lemma FromOutboxByStep(s: State, a: Action, t: State)
    requires WellFormed(s) && FromOutbox(s) && Step(s, a) == Some(t)
    ensures FromOutbox(t)
  {
    assert forall e :: e in s.outbox ==> e in t.outbox;
  }

  lemma OnceByStep(s: State, a: Action, t: State)
    requires AppliedOnce(s) && Step(s, a) == Some(t)
    ensures AppliedOnce(t)
  {
    if a.ApplyEntry? {
      var e := s.stream[a.entry].event;
      if e.id !in s.model.processed {
        LoggedEffect(s.model, s.log, e);
      }
    } else {
      assert t.log == s.log;
    }
  }

  /** Committing one new effect keeps the projection the fold of the log and the counters exact. */
  lemma LoggedEffect(m: Model, log: seq<Event>, e: Event)
    requires m.processed == ApplyAll(log).processed && m.rows == ApplyAll(log).rows
    requires e.id !in m.processed && DistinctIds(log)
    ensures Apply(m, e).processed == ApplyAll(log + [e]).processed
    ensures Apply(m, e).rows == ApplyAll(log + [e]).rows
    ensures ProcessedCount(Apply(m, e)) == ProcessedCount(m) + 1
    ensures VersionCount(Apply(m, e)) == VersionCount(m) + (if e.values.Some? then 1 else 0)
    ensures MappedIn(log + [e]) == MappedIn(log) + (if e.values.Some? then 1 else 0)
    ensures DistinctIds(log + [e])
  {
    ProcessedAreLogged(log);
    assert Front(log + [e]) == log;
  }

  lemma {:induction false} RunApplies(actions: seq<Action>)
    requires Run(INITIAL, actions).Some?
    ensures var s := Run(INITIAL, actions).value;
      WellFormed(s) && FromOutbox(s) && AppliedOnce(s)
  {
    if |actions| > 0 {
      RunApplies(Front(actions));
      var s := Run(INITIAL, Front(actions)).value;
      var t := Run(INITIAL, actions).value;
      WellFormedByStep(s, Last(actions), t);
      FromOutboxByStep(s, Last(actions), t);
      OnceByStep(s, Last(actions), t);
    }
  }

  /**
   At-most-once effect: in every run, dead-letter retries included, no event's effect is
   committed twice, the processed-event rows are those of the committed effects, and the
   checkpoint counts them exactly.
   */
  lemma AtMostOnce(actions: seq<Action>, e: Event)
    requires Run(INITIAL, actions).Some?
    ensures var s := Run(INITIAL, actions).value;
      && multiset(s.log)[e] <= 1
      && (e in s.outbox ==> (e.id in s.model.processed <==> multiset(s.log)[e] == 1))
      && ProcessedCount(s.model) == |s.model.processed|
  {
    RunApplies(actions);
    var s := Run(INITIAL, actions).value;
    ProcessedAreLogged(s.log);
    OccursOnce(s.log, e);
    ProcessedSize(s.log);
    if e in s.outbox && e.id in s.model.processed {
      var i :| 0 <= i < |s.log| && s.log[i].id == e.id;
      assert s.log[i] in s.outbox;
    }
  }

  lemma {:induction false} OccursOnce(log: seq<Event>, e: Event)
    requires DistinctIds(log)
    ensures multiset(log)[e] == if e in log then 1 else 0
  {
    if |log| > 0 {
      OccursOnce(Front(log), e);
      assert log == Front(log) + [Last(log)];
    }
  }

  lemma {:induction false} ProcessedSize(log: seq<Event>)
    requires DistinctIds(log)
    ensures |ApplyAll(log).processed| == |log|
  {
    if |log| > 0 {
      ProcessedSize(Front(log));
      assert Front(log) == Front(log);
      assert Last(log) == Last(log);
      ProcessedAreLogged(Front(log));
    }
  }

  // ---- a drained pipeline ----

  /** Nothing is left to publish, read, acknowledge or retry. */
  predicate Drained(s: State) {
    && (forall i :: 0 <= i < |s.outbox| ==> i in s.published)
    && s.cursor == |s.stream|
    && s.pending == map[]
    && s.dead == map[]
  }

  /**
   Exactly once at the end: when a run drains, the effects committed are the outbox events,
   each once, and the projection is their fold in the order of the commits.
   */
  lemma DrainedExactlyOnce(actions: seq<Action>)
    requires Run(INITIAL, actions).Some? && Drained(Run(INITIAL, actions).value)
    ensures var s := Run(INITIAL, actions).value;
      && multiset(s.log) == multiset(s.outbox)
      && s.model.rows == ApplyAll(s.log).rows
      && ProcessedCount(s.model) == |s.outbox|
      && VersionCount(s.model) == MappedIn(s.log)
  {
    RunKeeps(actions);
    RunApplies(actions);
    var s := Run(INITIAL, actions).value;
    ProcessedAreLogged(s.log);
    forall i | 0 <= i < |s.outbox|
      ensures s.outbox[i].id in s.model.processed
    {
      assert RowKept(s, i);
    }
    SameEvents(s.log, s.outbox);
  }

  lemma SameEvents(log: seq<Event>, outbox: seq<Event>)
    requires DistinctIds(log) && DistinctIds(outbox)
    requires forall i :: 0 <= i < |log| ==> log[i] in outbox
    requires forall i :: 0 <= i < |outbox| ==> exists j :: 0 <= j < |log| && log[j].id == outbox[i].id
    ensures multiset(log) == multiset(outbox) && |log| == |outbox|
  {
    forall e: Event
      ensures multiset(log)[e] == multiset(outbox)[e]
    {
      OccursOnce(log, e);
      OccursOnce(outbox, e);
      if e in outbox {
        var i :| 0 <= i < |outbox| && outbox[i] == e;
        var j :| 0 <= j < |log| && log[j].id == outbox[i].id;
        assert log[j] in outbox;
      }
    }
    assert multiset(log) == multiset(outbox);
    assert |multiset(log)| == |log| && |multiset(outbox)| == |outbox|;
  }

  /**
   However the run interleaved, retried and reordered, a drained pipeline shows on every row
   the greatest of its outbox events: its stamp and every column that event carries.
   */
  lemma DrainedConverges(actions: seq<Action>, events: set<Write>, k: Key, top: Write)
    requires Run(INITIAL, actions).Some? && Drained(Run(INITIAL, actions).value)
    requires events == set w | w in Run(INITIAL, actions).value.outbox && OnKey(w, k)
    requires OneRow(events, k) && Greatest(events, top)
    ensures var rows := Run(INITIAL, actions).value.model.rows;
      && k in rows
      && rows[k].stamp == StampOf(top)
      && forall c :: Carries(top, c) ==> c in rows[k].cells && rows[k].cells[c] == CellOf(top, c)
  {
    DrainedExactlyOnce(actions);
    RunApplies(actions);
    var s := Run(INITIAL, actions).value;
    var ws, os := s.log, s.outbox;
    forall w: Write
      ensures w in ws <==> w in os
    {
      if w in ws {
        var i :| 0 <= i < |ws| && ws[i] == w;
        assert s.log[i] in multiset(s.outbox);
        var j :| 0 <= j < |s.outbox| && s.outbox[j] == s.log[i];
        assert os[j] == w;
      }
      if w in os {
        var i :| 0 <= i < |os| && os[i] == w;
        assert s.outbox[i] in multiset(s.log);
        var j :| 0 <= j < |s.log| && s.log[j] == s.outbox[i];
        assert ws[j] == w;
      }
    }
    assert Delivers(ws, events, k);
    Convergence(ws, events, k, top);
  }
}
