/**
 Ingest of notification events and of due schedules. Several sessions (stream workers, API
 calls, schedulers) look first and insert later, so two of them may race for one event; a
 scheduler marks a schedule only in a later commit than the one that made its notification.
 */
module NotificationIngest {
  import opened Common

  /** An ingest request; `renders` says whether the template accepts its variables. */
  datatype Request = Request(event: Id, tenant: Id, dedup: Id, template: Id, renders: bool)

  datatype Notification = Notification(tenant: Id, event: Id, dedup: Id, template: Id)

  datatype Schedule = Schedule(tenant: Id, dedup: Id, template: Id, renders: bool, due: Time, processed: bool)

  datatype Phase = Looking | Drafted | Ingested

  /** An open database session: the requests ahead of it and its uncommitted marks. */
  datatype Session = Session(pending: seq<Request>, scheduled: bool, phase: Phase, marks: set<Id>)

  datatype State = State(
    notifications: seq<Notification>,
    processed: set<Id>,
    schedules: map<Id, Schedule>,
    active: set<Id>,
    sessions: map<Id, Session>)

  const INITIAL: State := State([], {}, map[], {}, map[])

  datatype Action =
    | SetTemplates(active: set<Id>)
    | PutSchedule(id: Id, schedule: Schedule)
    | Open(worker: Id, request: Request)
    | OpenBatch(worker: Id, ids: seq<Id>, now: Time)
    | Look(worker: Id)
    | Insert(worker: Id)
    | Mark(worker: Id)
    | Close(worker: Id)
    | Crash(worker: Id)

  predicate Has(s: State, tenant: Id, event: Id) {
    exists i :: 0 <= i < |s.notifications| && s.notifications[i].tenant == tenant && s.notifications[i].event == event
  }

  predicate HasKey(s: State, tenant: Id, dedup: Id) {
    exists i :: 0 <= i < |s.notifications| && s.notifications[i].tenant == tenant && s.notifications[i].dedup == dedup
  }

  predicate Scheduled(s: State, tenant: Id, dedup: Id) {
    exists id :: id in s.schedules && s.schedules[id].tenant == tenant && s.schedules[id].dedup == dedup
  }

  predicate Renderable(s: State, r: Request) {
    r.template in s.active && r.renders
  }

  function RequestOf(id: Id, schedule: Schedule): Request {
    Request(id, schedule.tenant, schedule.dedup, schedule.template, schedule.renders)
  }

  function RequestsOf(schedules: map<Id, Schedule>, ids: seq<Id>): seq<Request>
    requires forall i :: 0 <= i < |ids| ==> ids[i] in schedules
  {
    seq(|ids|, i requires 0 <= i < |ids| => RequestOf(ids[i], schedules[ids[i]]))
  }

  function Marked(schedules: map<Id, Schedule>, ids: set<Id>): map<Id, Schedule> {
    map id | id in schedules :: if id in ids then schedules[id].(processed := true) else schedules[id]
  }

  function NotificationOf(r: Request): Notification {
    Notification(r.tenant, r.event, r.dedup, r.template)
  }

  predicate Selectable(schedule: Schedule, now: Time) {
    !schedule.processed && schedule.due <= now
  }

  /** The session's error path: everything uncommitted is rolled back. */
  function Dropped(s: State, w: Id): State {
    s.(sessions := s.sessions - {w})
  }

  /** A commit of session `w`, which then stands in `phase`. */
  function Committed(s: State, w: Id, phase: Phase): State
    requires w in s.sessions
  {
    s.(schedules := Marked(s.schedules, s.sessions[w].marks),
       sessions := s.sessions[w := s.sessions[w].(phase := phase, marks := {})])
  }

  function StepSession(s: State, w: Id, a: Action): Option<State>
    requires w in s.sessions
  {
    var session := s.sessions[w];
    match a
    case Look(_) =>
      if session.phase != Looking || session.pending == [] then None
      else
        var r := session.pending[0];
        if r.event in s.processed then
          if Has(s, r.tenant, r.event) then Some(Committed(s, w, Ingested)) else Some(Dropped(s, w))
        else if !Renderable(s, r) then Some(Dropped(s, w))
        else Some(s.(sessions := s.sessions[w := session.(phase := Drafted)]))
    case Insert(_) =>
      if session.phase != Drafted || session.pending == [] then None
      else
        var r := session.pending[0];
        if r.event in s.processed || HasKey(s, r.tenant, r.dedup) then Some(Dropped(s, w))   // unique constraints
        else Some(Committed(s, w, Ingested).(
                    notifications := s.notifications + [NotificationOf(r)], processed := s.processed + {r.event}))
    case Mark(_) =>
      if session.phase != Ingested || session.pending == [] then None
      else if !session.scheduled then Some(Dropped(s, w))
      else Some(s.(sessions := s.sessions[w :=
                     session.(pending := session.pending[1..], phase := Looking, marks := session.marks + {session.pending[0].event})]))
    case Close(_) =>
      if session.phase != Looking || session.pending != [] then None
      else Some(Dropped(Committed(s, w, Looking), w))
    case Crash(_) => Some(Dropped(s, w))
    case _ => None
  }

  function StepTables(s: State, a: Action): Option<State> {
    match a
    case SetTemplates(active) => Some(s.(active := active))
    case PutSchedule(id, schedule) =>
      if Scheduled(s, schedule.tenant, schedule.dedup) then Some(s)
      else if id in s.schedules then None
      else Some(s.(schedules := s.schedules[id := schedule.(processed := false)]))
    case Open(w, r) =>
      if w in s.sessions then None
      else Some(s.(sessions := s.sessions[w := Session([r], false, Looking, {})]))
    case OpenBatch(w, ids, now) =>
      if w in s.sessions || !Distinct(ids) || exists i :: 0 <= i < |ids| && !(ids[i] in s.schedules && Selectable(s.schedules[ids[i]], now)) then None
      else Some(s.(sessions := s.sessions[w := Session(RequestsOf(s.schedules, ids), true, Looking, {})]))
    case _ => None
  }

  function Step(s: State, a: Action): Option<State> {
    if a.SetTemplates? || a.PutSchedule? || a.Open? || a.OpenBatch? then StepTables(s, a)
    else if a.worker in s.sessions then StepSession(s, a.worker, a)
    else None
  }

  function Run(actions: seq<Action>): Option<State> {
    if |actions| == 0 then Some(INITIAL)
    else match Run(Front(actions))
         case None => None
         case Some(s) => Step(s, Last(actions))
  }

  // ---- what every step keeps ----

  predicate Unique(s: State) {
    && (forall i, j :: 0 <= i < j < |s.notifications| ==>
          && s.notifications[i].event != s.notifications[j].event
          && !(s.notifications[i].tenant == s.notifications[j].tenant && s.notifications[i].dedup == s.notifications[j].dedup))
    && (forall i :: 0 <= i < |s.notifications| ==> s.notifications[i].event in s.processed)
    && |s.processed| == |s.notifications|
  }

  predicate SchedulesUnique(s: State) {
    forall a, b :: a in s.schedules && b in s.schedules && a != b ==>
      !(s.schedules[a].tenant == s.schedules[b].tenant && s.schedules[a].dedup == s.schedules[b].dedup)
  }

  /** The notification of a schedule exists. */
  predicate Notified(s: State, id: Id) {
    id in s.schedules && Has(s, s.schedules[id].tenant, id)
  }

  predicate MarksJustified(s: State) {
    && (forall id :: id in s.schedules && s.schedules[id].processed ==> Notified(s, id))
    && (forall w, id :: w in s.sessions && id in s.sessions[w].marks ==> Notified(s, id))
  }

  predicate SessionsJustified(s: State) {
    forall w :: w in s.sessions ==> SessionJustified(s, s.sessions[w])
  }

  predicate SessionJustified(s: State, session: Session) {
    && (session.scheduled ==> forall k :: 0 <= k < |session.pending| ==>
          var r := session.pending[k]; r.event in s.schedules && r.tenant == s.schedules[r.event].tenant)
    && (session.phase == Ingested && session.pending != [] ==> Has(s, session.pending[0].tenant, session.pending[0].event))
  }

  predicate Kept(s: State) {
    Unique(s) && SchedulesUnique(s) && MarksJustified(s) && SessionsJustified(s)
  }

  /** Everything recorded stays: notifications, their order, schedules and their identity. */
  predicate Extends(s: State, t: State) {
    && s.notifications <= t.notifications && s.processed <= t.processed
    && (forall id :: id in s.schedules ==>
          && id in t.schedules && t.schedules[id].tenant == s.schedules[id].tenant
          && t.schedules[id].dedup == s.schedules[id].dedup
          && (s.schedules[id].processed ==> t.schedules[id].processed))
  }

  lemma StepExtends(s: State, a: Action, t: State)
    requires Step(s, a) == Some(t)
    ensures Extends(s, t)
  {
  }

  lemma HasExtends(s: State, t: State, tenant: Id, event: Id)
    requires Extends(s, t) && Has(s, tenant, event)
    ensures Has(t, tenant, event)
  {
    var i :| 0 <= i < |s.notifications| && s.notifications[i].tenant == tenant && s.notifications[i].event == event;
    assert t.notifications[i] == s.notifications[i];
  }

  lemma StepUnique(s: State, a: Action, t: State)
    requires Unique(s) && Step(s, a) == Some(t)
    ensures Unique(t)
  {
    if a.Insert? && t.notifications != s.notifications {
      var n := Last(t.notifications);
      forall i | 0 <= i < |s.notifications|
        ensures t.notifications[i].event != n.event
        ensures !(t.notifications[i].tenant == n.tenant && t.notifications[i].dedup == n.dedup)
      {
        assert t.notifications[i] == s.notifications[i];
      }
    }
  }

  lemma StepSchedulesUnique(s: State, a: Action, t: State)
    requires SchedulesUnique(s) && Step(s, a) == Some(t)
    ensures SchedulesUnique(t)
  {
  }

  lemma StepMarksJustified(s: State, a: Action, t: State)
    requires MarksJustified(s) && SessionsJustified(s) && Step(s, a) == Some(t)
    ensures MarksJustified(t)
  {
    StepExtends(s, a, t);
    forall id | Notified(s, id)
      ensures Notified(t, id)
    {
      HasExtends(s, t, s.schedules[id].tenant, id);
    }
    if a.Mark? {
      assert SessionJustified(s, s.sessions[a.worker]);
    }
  }

  lemma StepSessionsJustified(s: State, a: Action, t: State)
    requires SessionsJustified(s) && Step(s, a) == Some(t)
    ensures SessionsJustified(t)
  {
    StepExtends(s, a, t);
    forall session: Session | SessionJustified(s, session)
      ensures SessionJustified(t, session)
    {
      if session.phase == Ingested && session.pending != [] {
        HasExtends(s, t, session.pending[0].tenant, session.pending[0].event);
      }
    }
    forall w | w in t.sessions
      ensures SessionJustified(t, t.sessions[w])
    {
      if w in s.sessions && t.sessions[w] == s.sessions[w] {
      } else if a.Insert? {
        assert SessionJustified(t, s.sessions[w]);
        assert Last(t.notifications) == NotificationOf(s.sessions[w].pending[0]);
      } else if a.Look? || a.Mark? {
        assert SessionJustified(s, s.sessions[w]) && SessionJustified(t, s.sessions[w]);
        if a.Look? && t.sessions[w].phase == Ingested {
          HasExtends(s, t, s.sessions[w].pending[0].tenant, s.sessions[w].pending[0].event);
        }
      }
    }
  }

  lemma {:induction false} RunKeeps(actions: seq<Action>)
    requires Run(actions).Some?
    ensures Kept(Run(actions).value)
  {
    if |actions| > 0 {
      RunKeeps(Front(actions));
      var s, a, t := Run(Front(actions)).value, Last(actions), Run(actions).value;
      StepUnique(s, a, t);
      StepSchedulesUnique(s, a, t);
      StepMarksJustified(s, a, t);
      StepSessionsJustified(s, a, t);
    }
  }

  /** Recorded facts are never undone by anything that follows. */
  lemma {:induction false} RunExtends(actions: seq<Action>, more: seq<Action>)
    requires Run(actions).Some? && Run(actions + more).Some?
    ensures Extends(Run(actions).value, Run(actions + more).value)
  {
    if |more| == 0 {
      assert actions + more == actions;
    } else {
      assert Front(actions + more) == actions + Front(more);
      RunExtends(actions, Front(more));
      StepExtends(Run(actions + Front(more)).value, Last(more), Run(actions + more).value);
    }
  }

  /** An element of a sequence's set of events, back to a position. */
  lemma {:induction false} EventsCount(notifications: seq<Notification>)
    requires forall i, j :: 0 <= i < j < |notifications| ==> notifications[i].event != notifications[j].event
    ensures |set i | 0 <= i < |notifications| :: notifications[i].event| == |notifications|
  {
    if |notifications| > 0 {
      var before := Front(notifications);
      EventsCount(before);
      var events := set i | 0 <= i < |before| :: before[i].event;
      assert (set i | 0 <= i < |notifications| :: notifications[i].event) == events + {Last(notifications).event};
    }
  }

  /**
   In every interleaving, with crashes and redeliveries: at most one notification per source
   event and per tenant and deduplication key, and an event counts as processed exactly when
   its notification exists.
   */
  lemma OneNotificationPerEvent(actions: seq<Action>)
    requires Run(actions).Some?
    ensures var s := Run(actions).value;
      && (forall i, j :: 0 <= i < j < |s.notifications| ==>
            && s.notifications[i].event != s.notifications[j].event
            && !(s.notifications[i].tenant == s.notifications[j].tenant && s.notifications[i].dedup == s.notifications[j].dedup))
      && (forall e :: e in s.processed <==> exists i :: 0 <= i < |s.notifications| && s.notifications[i].event == e)
  {
    RunKeeps(actions);
    var s := Run(actions).value;
    EventsCount(s.notifications);
    SubsetOfEqualSize(set i | 0 <= i < |s.notifications| :: s.notifications[i].event, s.processed);
  }

  /** A schedule marked processed has its one notification, and keeps it. */
  lemma MarkedScheduleNotified(actions: seq<Action>, more: seq<Action>, id: Id)
    requires Run(actions).Some? && Run(actions + more).Some?
    requires id in Run(actions).value.schedules && Run(actions).value.schedules[id].processed
    ensures var t := Run(actions + more).value;
      && id in t.schedules && t.schedules[id].processed
      && exists i :: 0 <= i < |t.notifications| && t.notifications[i].event == id
           && t.notifications[i].tenant == t.schedules[id].tenant
           && forall j :: 0 <= j < |t.notifications| && t.notifications[j].event == id ==> j == i
  {
    RunKeeps(actions + more);
    RunExtends(actions, more);
    var t := Run(actions + more).value;
    assert Notified(t, id);
    var i :| 0 <= i < |t.notifications| && t.notifications[i].tenant == t.schedules[id].tenant && t.notifications[i].event == id;
    assert forall j :: 0 <= j < |t.notifications| && t.notifications[j].event == id ==> j == i;
  }

  // ---- one ingest without interference ----

  /** What lets an ingest succeed; a caller can check it beforehand. */
  predicate Acceptable(s: State, r: Request) {
    if r.event in s.processed then Has(s, r.tenant, r.event)
    else Renderable(s, r) && !HasKey(s, r.tenant, r.dedup)
  }

  /** The notifications a list of requests adds to those events already processed. */
  function NewOnes(processed: set<Id>, requests: seq<Request>): seq<Notification> {
    if |requests| == 0 then []
    else
      var before := NewOnes(processed, Front(requests));
      if Last(requests).event in processed then before else before + [NotificationOf(Last(requests))]
  }

  /** Ingesting one request does not change what happens to another with its own event and key. */
  lemma AcceptableKept(s: State, t: State, r: Request, other: Request)
    requires t.active == s.active
    requires (t.notifications == s.notifications && t.processed == s.processed)
          || (t.notifications == s.notifications + [NotificationOf(r)] && t.processed == s.processed + {r.event})
    requires other.event != r.event && !(other.tenant == r.tenant && other.dedup == r.dedup)
    ensures Acceptable(t, other) == Acceptable(s, other)
  {
    forall i | 0 <= i < |s.notifications|
      ensures t.notifications[i] == s.notifications[i]
    {
    }
    if Has(t, other.tenant, other.event) {
      var i :| 0 <= i < |t.notifications| && t.notifications[i].tenant == other.tenant && t.notifications[i].event == other.event;
      assert s.notifications[i] == t.notifications[i];
    }
    if HasKey(t, other.tenant, other.dedup) {
      var i :| 0 <= i < |t.notifications| && t.notifications[i].tenant == other.tenant && t.notifications[i].dedup == other.dedup;
      assert s.notifications[i] == t.notifications[i];
    }
  }

  lemma MarkedTwice(schedules: map<Id, Schedule>, a: set<Id>, b: set<Id>)
    ensures Marked(Marked(schedules, a), b) == Marked(schedules, a + b)
  {
  }

  /** The marks made durable with row i are those of the rows before it. */
  lemma NextMarks(schedules: map<Id, Schedule>, ids: seq<Id>, i: nat)
    requires i <= |ids|
    ensures Marked(Marked(schedules, Elements(ids[..Max(i - 1, 0)])), if i == 0 then {} else {ids[i - 1]}) ==
      Marked(schedules, Elements(ids[..i]))
  {
    var marks: set<Id> := if i == 0 then {} else {ids[i - 1]};
    MarkedTwice(schedules, Elements(ids[..Max(i - 1, 0)]), marks);
    if i > 0 {
      assert ids[..i] == ids[..i - 1] + [ids[i - 1]];
    }
    assert Elements(ids[..i]) == Elements(ids[..Max(i - 1, 0)]) + marks;
  }

  lemma OthersUnaffected(first: State, ids: seq<Id>, i: nat, s: State, t: State)
    requires SchedulesUnique(first) && Distinct(ids) && i < |ids|
    requires forall j :: 0 <= j < |ids| ==> ids[j] in first.schedules
    requires var r := RequestOf(ids[i], first.schedules[ids[i]]);
      && t.active == s.active && t.processed == s.processed + {r.event}
      && t.notifications == s.notifications + (if r.event in s.processed then [] else [NotificationOf(r)])
    ensures var requests := RequestsOf(first.schedules, ids);
      forall j :: i < j < |ids| ==>
        Acceptable(t, requests[j]) == Acceptable(s, requests[j])
  {
    var requests := RequestsOf(first.schedules, ids);
    if ids[i] in s.processed {
      assert t.processed == s.processed && t.notifications == s.notifications;
    }
    forall j | i < j < |ids|
      ensures Acceptable(t, requests[j]) == Acceptable(s, requests[j])
    {
      AcceptableKept(s, t, requests[i], requests[j]);
    }
  }

  /** How many leading requests are acceptable. */
  function Leading(s: State, requests: seq<Request>): (n: nat)
    ensures n <= |requests|
    ensures forall i :: 0 <= i < n ==> Acceptable(s, requests[i])
    ensures n < |requests| ==> !Acceptable(s, requests[n])
  {
    if |requests| == 0 then 0
    else
      var n := Leading(s, Front(requests));
      if n < |requests| - 1 || !Acceptable(s, Last(requests)) then n else n + 1
  }

  /** The tables after the first `i` rows of a batch, the last of them not marked yet. */
  ghost predicate TablesAt(first: State, ids: seq<Id>, requests: seq<Request>, i: nat, s: State)
    requires |requests| == |ids| && i <= |ids|
  {
    && i <= Leading(first, requests)
    && s.active == first.active
    && s.schedules == Marked(first.schedules, Elements(ids[..Max(i - 1, 0)]))
    && s.notifications == first.notifications + NewOnes(first.processed, requests[..i])
    && s.processed == first.processed + Elements(ids[..i])
    && (forall j :: i <= j < |ids| ==> (Acceptable(s, requests[j]) == Acceptable(first, requests[j])))
  }

  /** The scheduler's session before row `i` of its batch. */
  function SessionAt(ids: seq<Id>, requests: seq<Request>, i: nat): Session
    requires |requests| == |ids| && i <= |ids|
  {
    Session(requests[i..], true, Looking, if i == 0 then {} else {ids[i - 1]})
  }

  lemma TablesStart(first: State, ids: seq<Id>, requests: seq<Request>, s: State)
    requires |requests| == |ids| && s == first.(sessions := s.sessions)
    ensures TablesAt(first, ids, requests, 0, s)
  {
    assert ids[..0] == [] && Marked(first.schedules, {}) == first.schedules;
    forall r: Request
      ensures Acceptable(s, r) == Acceptable(first, r)
    {
    }
  }

  /** A row that can be ingested lengthens the leading acceptable part. */
  lemma LeadingLonger(first: State, requests: seq<Request>, i: nat)
    requires i < |requests| && i <= Leading(first, requests) && Acceptable(first, requests[i])
    ensures i + 1 <= Leading(first, requests)
  {
  }

  /** One successful ingest brings the tables to the next row. */
  lemma TablesAdvance(first: State, ids: seq<Id>, requests: seq<Request>, i: nat, s: State, t: State)
    requires SchedulesUnique(first) && Distinct(ids) && i < |ids|
    requires forall j :: 0 <= j < |ids| ==> ids[j] in first.schedules
    requires requests == RequestsOf(first.schedules, ids)
    requires TablesAt(first, ids, requests, i, s) && Acceptable(s, requests[i])
    requires t.schedules == Marked(s.schedules, if i == 0 then {} else {ids[i - 1]}) && t.active == s.active
    requires t.notifications == s.notifications + (if ids[i] in s.processed then [] else [NotificationOf(requests[i])])
    requires t.processed == s.processed + {ids[i]}
    ensures TablesAt(first, ids, requests, i + 1, t)
  {
    assert forall j :: i < j < |ids| ==> (Acceptable(t, requests[j]) == Acceptable(first, requests[j])) by {
      OthersUnaffected(first, ids, i, s, t);
    }
    assert t.schedules == Marked(first.schedules, Elements(ids[..i])) by {
      NextMarks(first.schedules, ids, i);
    }
    LeadingLonger(first, requests, i);
    AddedByRow(first, ids, requests, i, s, t);
  }

  lemma AddedByRow(first: State, ids: seq<Id>, requests: seq<Request>, i: nat, s: State, t: State)
    requires Distinct(ids) && |requests| == |ids| && i < |ids| && requests[i].event == ids[i]
    requires s.notifications == first.notifications + NewOnes(first.processed, requests[..i])
    requires s.processed == first.processed + Elements(ids[..i])
    requires t.notifications == s.notifications + (if ids[i] in s.processed then [] else [NotificationOf(requests[i])])
    requires t.processed == s.processed + {ids[i]}
    ensures t.notifications == first.notifications + NewOnes(first.processed, requests[..i + 1])
    ensures t.processed == first.processed + Elements(ids[..i + 1])
  {
    AddedOne(first.processed, ids, requests, i);
  }

  /** What row `i` adds to the notifications and to the processed events. */
  lemma AddedOne(processed: set<Id>, ids: seq<Id>, requests: seq<Request>, i: nat)
    requires Distinct(ids) && |requests| == |ids| && i < |ids| && requests[i].event == ids[i]
    ensures NewOnes(processed, requests[..i + 1]) ==
      NewOnes(processed, requests[..i]) + if ids[i] in processed then [] else [NotificationOf(requests[i])]
    ensures ids[i] in processed + Elements(ids[..i]) <==> ids[i] in processed
    ensures Elements(ids[..i + 1]) == Elements(ids[..i]) + {ids[i]}
  {
    assert Front(requests[..i + 1]) == requests[..i];
    assert ids[..i + 1] == ids[..i] + [ids[i]];
  }

  /** Replacing a session twice, or replacing and removing it. */
  lemma SessionReplaced(sessions: map<Id, Session>, w: Id, a: Session, b: Session)
    ensures sessions[w := a][w := b] == sessions[w := b]
    ensures sessions[w := a] - {w} == sessions - {w}
    ensures w !in sessions ==> sessions - {w} == sessions
  {
  }

  /** After the mark the session stands before the next row. */
  lemma SessionAdvance(ids: seq<Id>, requests: seq<Request>, i: nat, s: State, w: Id, mid: State, t: State)
    requires |requests| == |ids| && i < |ids| && requests[i].event == ids[i]
    requires w in s.sessions && s.sessions[w] == SessionAt(ids, requests, i)
    requires mid.sessions == s.sessions[w := s.sessions[w].(phase := Ingested, marks := {})]
    requires StepSession(mid, w, Mark(w)) == Some(t)
    ensures t == mid.(sessions := t.sessions) && t.sessions == s.sessions[w := SessionAt(ids, requests, i + 1)]
  {
    var marks: set<Id> := {};
    assert marks + {ids[i]} == {ids[i]};
    assert requests[i..][1..] == requests[i + 1..] && requests[i..][0] == requests[i];
  }

  /**
   The tables after a scheduler's batch: the leading rows that can be ingested, up to the
   number the process lived to ingest, have their notifications; all rows are marked if the
   batch completed, else all of those but the last.
   */
  ghost predicate AfterBatch(first: State, ids: seq<Id>, lives: nat, completed: bool, t: State)
    requires forall i :: 0 <= i < |ids| ==> ids[i] in first.schedules
  {
    var requests := RequestsOf(first.schedules, ids);
    var done := Min(Leading(first, requests), lives);
    && (completed <==> done == |ids| && lives > |ids|)
    && t.active == first.active
    && t.notifications == first.notifications + NewOnes(first.processed, requests[..done])
    && t.processed == first.processed + Elements(ids[..done])
    && t.schedules == Marked(first.schedules, Elements(if completed then ids else ids[..Max(done - 1, 0)]))
  }

  lemma BatchEnds(first: State, ids: seq<Id>, i: nat, lives: nat, s: State, t: State)
    requires i <= |ids| && i <= lives && forall j :: 0 <= j < |ids| ==> ids[j] in first.schedules
    requires var requests := RequestsOf(first.schedules, ids);
      TablesAt(first, ids, requests, i, s) && (i == lives || i == Leading(first, requests))
    requires t.notifications == s.notifications && t.processed == s.processed && t.active == s.active
    requires t.schedules == if i == |ids| && lives > i then Marked(s.schedules, if i == 0 then {} else {ids[i - 1]}) else s.schedules
    ensures AfterBatch(first, ids, lives, i == |ids| && lives > i, t)
  {
    if i == |ids| && lives > i {
      NextMarks(first.schedules, ids, i);
      assert ids[..i] == ids;
    }
  }

  /** One due schedule that cannot be ingested holds up every schedule behind it. */
  lemma HeadOfLine(first: State, ids: seq<Id>, lives: nat, completed: bool, t: State)
    requires |ids| > 0 && forall i :: 0 <= i < |ids| ==> ids[i] in first.schedules
    requires !Acceptable(first, RequestOf(ids[0], first.schedules[ids[0]]))
    requires AfterBatch(first, ids, lives, completed, t)
    ensures !completed && t.notifications == first.notifications
    ensures t.processed == first.processed && t.schedules == first.schedules
  {
    var requests := RequestsOf(first.schedules, ids);
    assert requests[0] == RequestOf(ids[0], first.schedules[ids[0]]);
    assert Leading(first, requests) == 0;
    assert ids[..0] == [] && Marked(first.schedules, {}) == first.schedules;
  }

  // ---- stopping and starting again ----

  predicate AllAcceptable(s: State, requests: seq<Request>) {
    forall i :: 0 <= i < |requests| ==> Acceptable(s, requests[i])
  }

  lemma AllLeading(s: State, requests: seq<Request>)
    requires AllAcceptable(s, requests)
    ensures Leading(s, requests) == |requests|
  {
  }

  lemma {:induction false} NewOnesConcat(processed: set<Id>, a: seq<Request>, b: seq<Request>)
    ensures NewOnes(processed, a + b) == NewOnes(processed, a) + NewOnes(processed, b)
  {
    if |b| == 0 {
      assert a + b == a;
    } else {
      assert Front(a + b) == a + Front(b);
      NewOnesConcat(processed, a, Front(b));
    }
  }

  lemma {:induction false} NewOnesCongruent(p: set<Id>, q: set<Id>, requests: seq<Request>)
    requires forall i :: 0 <= i < |requests| ==> (requests[i].event in p <==> requests[i].event in q)
    ensures NewOnes(p, requests) == NewOnes(q, requests)
  {
    if |requests| > 0 {
      NewOnesCongruent(p, q, Front(requests));
    }
  }

  /** Every notification a batch adds is found again by its event. */
  lemma {:induction false} NewOnesFound(processed: set<Id>, requests: seq<Request>, k: nat)
    requires k < |requests| && requests[k].event !in processed
    ensures NotificationOf(requests[k]) in NewOnes(processed, requests)
  {
    if k < |requests| - 1 {
      NewOnesFound(processed, Front(requests), k);
    }
  }

  lemma {:induction false} NewOnesOnly(processed: set<Id>, requests: seq<Request>, n: Notification)
    requires n in NewOnes(processed, requests)
    ensures exists k :: 0 <= k < |requests| && n == NotificationOf(requests[k])
  {
    if n == NotificationOf(Last(requests)) {
      assert requests[|requests| - 1] == Last(requests);
    } else {
      NewOnesOnly(processed, Front(requests), n);
      var k :| 0 <= k < |Front(requests)| && n == NotificationOf(Front(requests)[k]);
      assert requests[k] == Front(requests)[k];
    }
  }

  /** After any stop every row of an acceptable batch can still be ingested. */
  lemma StillAcceptable(first: State, ids: seq<Id>, lives: nat, mid: State, k: nat)
    requires SchedulesUnique(first) && Distinct(ids) && forall i :: 0 <= i < |ids| ==> ids[i] in first.schedules
    requires AfterBatch(first, ids, lives, false, mid)
    requires k < |ids| && Acceptable(first, RequestsOf(first.schedules, ids)[k])
    ensures Acceptable(mid, RequestsOf(first.schedules, ids)[k])
  {
    var requests := RequestsOf(first.schedules, ids);
    var done, r := Min(Leading(first, requests), lives), requests[k];
    var added := NewOnes(first.processed, requests[..done]);
    if r.event in first.processed {
      var i :| 0 <= i < |first.notifications| && first.notifications[i].tenant == r.tenant && first.notifications[i].event == r.event;
      assert mid.notifications[i] == first.notifications[i];
    } else if k < done {
      NewOnesFound(first.processed, requests[..done], k);
      var i :| 0 <= i < |added| && added[i] == NotificationOf(r);
      assert mid.notifications[|first.notifications| + i] == NotificationOf(r);
      assert ids[k] in ids[..done];
    } else {
      assert ids[k] !in ids[..done];
      forall i | 0 <= i < |mid.notifications|
        ensures !(mid.notifications[i].tenant == r.tenant && mid.notifications[i].dedup == r.dedup)
      {
        if i < |first.notifications| {
          assert mid.notifications[i] == first.notifications[i];
        } else {
          NewOnesOnly(first.processed, requests[..done], added[i - |first.notifications|]);
          var j :| 0 <= j < done && added[i - |first.notifications|] == NotificationOf(requests[..done][j]);
          assert ids[j] != ids[k];
        }
      }
    }
  }

  /** The rows a restart works through again add nothing, the rest what they add anyway. */
  lemma NewOnesOfRest(processed: set<Id>, ids: seq<Id>, requests: seq<Request>, m: nat, done: nat)
    requires Distinct(ids) && |requests| == |ids| && forall i :: 0 <= i < |ids| ==> requests[i].event == ids[i]
    requires done <= |ids| && m == Max(done - 1, 0)
    ensures NewOnes(processed + Elements(ids[..done]), requests[m..]) == NewOnes(processed, requests[done..])
  {
    var now := processed + Elements(ids[..done]);
    if m < done {
      var last := [requests[m]];
      assert requests[m..] == last + requests[done..];
      NewOnesConcat(now, last, requests[done..]);
      assert ids[m] in ids[..done];
      assert NewOnes(now, Front(last)) == [] && Last(last).event in now;
    }
    forall i | 0 <= i < |requests[done..]|
      ensures requests[done..][i].event in processed <==> requests[done..][i].event in now
    {
      assert requests[done..][i].event == ids[done + i];
      assert ids[done + i] !in ids[..done];
    }
    NewOnesCongruent(processed, now, requests[done..]);
  }

  lemma SplitElements(ids: seq<Id>, a: nat, b: nat)
    requires a <= b <= |ids|
    ensures Elements(ids[..b]) + Elements(ids[a..]) == Elements(ids)
  {
    forall x | x in ids
      ensures x in ids[..b] || x in ids[a..]
    {
      var i :| 0 <= i < |ids| && ids[i] == x;
      if i < b {
        assert ids[..b][i] == x;
      } else {
        assert ids[a..][i - a] == x;
      }
    }
  }

  /** A whole acceptable batch, run without a stop. */
  predicate WholeBatch(first: State, ids: seq<Id>, t: State)
    requires forall i :: 0 <= i < |ids| ==> ids[i] in first.schedules
  {
    && t.active == first.active
    && t.notifications == first.notifications + NewOnes(first.processed, RequestsOf(first.schedules, ids))
    && t.processed == first.processed + Elements(ids)
    && t.schedules == Marked(first.schedules, Elements(ids))
  }

  lemma CompletedIsWhole(first: State, ids: seq<Id>, lives: nat, completed: bool, t: State)
    requires forall i :: 0 <= i < |ids| ==> ids[i] in first.schedules
    requires AllAcceptable(first, RequestsOf(first.schedules, ids))
    requires lives > |ids| && AfterBatch(first, ids, lives, completed, t)
    ensures completed && WholeBatch(first, ids, t)
  {
    var requests := RequestsOf(first.schedules, ids);
    AllLeading(first, requests);
    assert requests[..|ids|] == requests && ids[..|ids|] == ids;
  }

  lemma RestartJoins(first: State, ids: seq<Id>, requests: seq<Request>, m: nat, done: nat, mid: State, t: State)
    requires Distinct(ids) && |requests| == |ids| && forall i :: 0 <= i < |ids| ==> requests[i].event == ids[i]
    requires done <= |ids| && m == Max(done - 1, 0)
    requires mid.processed == first.processed + Elements(ids[..done])
    requires mid.notifications == first.notifications + NewOnes(first.processed, requests[..done])
    requires mid.schedules == Marked(first.schedules, Elements(ids[..m]))
    requires t.processed == mid.processed + Elements(ids[m..])
    requires t.notifications == mid.notifications + NewOnes(mid.processed, requests[m..])
    requires t.schedules == Marked(mid.schedules, Elements(ids[m..]))
    ensures t.notifications == first.notifications + NewOnes(first.processed, requests)
    ensures t.processed == first.processed + Elements(ids)
    ensures t.schedules == Marked(first.schedules, Elements(ids))
  {
    NotificationsJoin(first.processed, ids, requests, m, done);
    SplitElements(ids, m, m);
    SplitElements(ids, m, done);
    TablesJoin(first, mid, t, NewOnes(first.processed, requests[..done]), NewOnes(mid.processed, requests[m..]),
               Elements(ids[..done]), Elements(ids[..m]), Elements(ids[m..]));
  }

  /** Two runs of additions and marks, one after the other. */
  lemma TablesJoin(first: State, mid: State, t: State, a: seq<Notification>, b: seq<Notification>,
                   done: set<Id>, marked: set<Id>, rest: set<Id>)
    requires mid.notifications == first.notifications + a && t.notifications == mid.notifications + b
    requires mid.processed == first.processed + done && t.processed == mid.processed + rest
    requires mid.schedules == Marked(first.schedules, marked) && t.schedules == Marked(mid.schedules, rest)
    ensures t.notifications == first.notifications + (a + b)
    ensures t.processed == first.processed + (done + rest)
    ensures t.schedules == Marked(first.schedules, marked + rest)
  {
    MarkedTwice(first.schedules, marked, rest);
  }

  /** The notifications of a stopped run and of the restart make up those of one run. */
  lemma NotificationsJoin(processed: set<Id>, ids: seq<Id>, requests: seq<Request>, m: nat, done: nat)
    requires Distinct(ids) && |requests| == |ids| && forall i :: 0 <= i < |ids| ==> requests[i].event == ids[i]
    requires done <= |ids| && m == Max(done - 1, 0)
    ensures NewOnes(processed, requests) ==
      NewOnes(processed, requests[..done]) + NewOnes(processed + Elements(ids[..done]), requests[m..])
  {
    NewOnesOfRest(processed, ids, requests, m, done);
    NewOnesConcat(processed, requests[..done], requests[done..]);
    assert requests == requests[..done] + requests[done..];
  }

  lemma RestOfBatch(first: State, ids: seq<Id>, lives: nat, mid: State, m: nat)
    requires SchedulesUnique(first) && Distinct(ids) && forall i :: 0 <= i < |ids| ==> ids[i] in first.schedules
    requires AllAcceptable(first, RequestsOf(first.schedules, ids))
    requires AfterBatch(first, ids, lives, false, mid) && m <= |ids|
    ensures forall i :: 0 <= i < |ids[m..]| ==> ids[m..][i] in mid.schedules
    ensures RequestsOf(mid.schedules, ids[m..]) == RequestsOf(first.schedules, ids)[m..]
    ensures AllAcceptable(mid, RequestsOf(mid.schedules, ids[m..]))
  {
    forall i | 0 <= i < |ids[m..]|
      ensures ids[m..][i] in mid.schedules && Acceptable(mid, RequestsOf(first.schedules, ids)[m..][i])
    {
      StillAcceptable(first, ids, lives, mid, m + i);
    }
  }

  /** A stopped batch, and then all of the rows it left unmarked, make up the batch. */
  lemma StoppedThenWhole(first: State, ids: seq<Id>, lives: nat, mid: State, t: State)
    requires Distinct(ids) && (forall i :: 0 <= i < |ids| ==> ids[i] in first.schedules)
    requires AllAcceptable(first, RequestsOf(first.schedules, ids)) && AfterBatch(first, ids, lives, false, mid)
    requires var rest := LeftUnmarked(ids, lives);
      && (forall i :: 0 <= i < |rest| ==> rest[i] in mid.schedules)
      && RequestsOf(mid.schedules, rest) == RequestsOf(first.schedules, ids)[|ids| - |rest|..]
      && WholeBatch(mid, rest, t)
    ensures WholeBatch(first, ids, t)
  {
    var requests := RequestsOf(first.schedules, ids);
    AllLeading(first, requests);
    RestartJoins(first, ids, requests, Max(Min(lives, |ids|) - 1, 0), Min(lives, |ids|), mid, t);
  }

  /** The rows a stopped process leaves unmarked. */
  function LeftUnmarked(ids: seq<Id>, lives: nat): seq<Id> {
    ids[Max(Min(lives, |ids|) - 1, 0)..]
  }

  /** The rows left after a number of processes that each stopped somewhere. */
  function LeftAfter(ids: seq<Id>, lives: seq<nat>): seq<Id> {
    if |lives| == 0 then ids else LeftAfter(LeftUnmarked(ids, lives[0]), lives[1..])
  }

  /** Processes that stop one after the other, each beginning with the rows the last one left. */
  ghost predicate StoppedChain(first: State, ids: seq<Id>, lives: seq<nat>, states: seq<State>)
    decreases |lives|
  {
    && |states| == |lives|
    && (forall i :: 0 <= i < |ids| ==> ids[i] in first.schedules)
    && (|lives| > 0 ==>
          && AfterBatch(first, ids, lives[0], false, states[0])
          && StoppedChain(states[0], LeftUnmarked(ids, lives[0]), lives[1..], states[1..]))
  }

  /**
   Processes that stop anywhere in an acceptable batch, any number of them one after the
   other, and a last one that works through the rows still unmarked end where one
   uninterrupted process ends: the same notifications, none of them twice, and every
   schedule marked.
   */
  lemma {:induction false} RestartEqualsOneRun(
    first: State, ids: seq<Id>, lives: seq<nat>, states: seq<State>, again: nat, completed: bool, t: State)
    requires SchedulesUnique(first) && Distinct(ids) && StoppedChain(first, ids, lives, states)
    requires AllAcceptable(first, RequestsOf(first.schedules, ids))
    requires var last, rest := if |states| == 0 then first else Last(states), LeftAfter(ids, lives);
      && (forall i :: 0 <= i < |rest| ==> rest[i] in last.schedules)
      && again > |rest| && AfterBatch(last, rest, again, completed, t)
    ensures completed && WholeBatch(first, ids, t)
    decreases |lives|
  {
    if |lives| == 0 {
      CompletedIsWhole(first, ids, again, completed, t);
    } else {
      var mid := states[0];
      NextInChain(first, ids, lives[0], mid);
      RestartEqualsOneRun(mid, LeftUnmarked(ids, lives[0]), lives[1..], states[1..], again, completed, t);
      StoppedThenWhole(first, ids, lives[0], mid, t);
    }
  }

  /** After a stop the rows left unmarked are again a batch that can be ingested. */
  lemma NextInChain(first: State, ids: seq<Id>, lives: nat, mid: State)
    requires SchedulesUnique(first) && Distinct(ids) && (forall i :: 0 <= i < |ids| ==> ids[i] in first.schedules)
    requires AllAcceptable(first, RequestsOf(first.schedules, ids)) && AfterBatch(first, ids, lives, false, mid)
    ensures SchedulesUnique(mid) && Distinct(LeftUnmarked(ids, lives))
    ensures var rest := LeftUnmarked(ids, lives);
      && (forall i :: 0 <= i < |rest| ==> rest[i] in mid.schedules)
      && RequestsOf(mid.schedules, rest) == RequestsOf(first.schedules, ids)[|ids| - |rest|..]
      && AllAcceptable(mid, RequestsOf(mid.schedules, rest))
  {
    RestOfBatch(first, ids, lives, mid, Max(Min(lives, |ids|) - 1, 0));
    MarkedUnique(first, mid, ids[..Max(Min(Leading(first, RequestsOf(first.schedules, ids)), lives) - 1, 0)]);
  }

  /** Marking schedules changes neither their tenants nor their keys. */
  lemma MarkedUnique(first: State, mid: State, marked: seq<Id>)
    requires SchedulesUnique(first) && mid.schedules == Marked(first.schedules, Elements(marked))
    ensures SchedulesUnique(mid)
  {
  }

  /** Which schedules a batch marks. */
  lemma MarksOf(first: State, ids: seq<Id>, lives: nat, completed: bool, t: State)
    requires forall i :: 0 <= i < |ids| ==> ids[i] in first.schedules
    requires AfterBatch(first, ids, lives, completed, t)
    ensures completed ==> forall i :: 0 <= i < |ids| ==> ids[i] in t.schedules && t.schedules[ids[i]].processed
    ensures forall id :: id in first.schedules && id !in ids ==> id in t.schedules && t.schedules[id] == first.schedules[id]
  {
    var done := Min(Leading(first, RequestsOf(first.schedules, ids)), lives);
    assert forall id :: id in Elements(ids[..Max(done - 1, 0)]) ==> id in ids;
  }

  class Service {
    var s: State
    ghost var history: seq<Action>

    ghost predicate Valid()
      reads this
    {
      Run(history) == Some(s)
    }

    constructor ()
      ensures Valid() && s == INITIAL
    {
      s, history := INITIAL, [];
    }

    method Call(a: Action)
      requires Valid() && Step(s, a).Some?
      modifies this
      ensures Valid() && s == Step(old(s), a).value && history == old(history) + [a]
    {
      s := Step(s, a).value;
      history := history + [a];
      assert Front(history) == old(history);
    }

    /**
     Ingest of the request a session stands before. On success the marks of earlier rows
     become durable with it; on any error they are lost with the session.
     */
    method Ingest(w: Id) returns (ok: bool)
      requires Valid() && w in s.sessions && s.sessions[w].phase == Looking && s.sessions[w].pending != []
      modifies this
      ensures Valid() && s.active == old(s).active
      ensures ok <==> Acceptable(old(s), old(s).sessions[w].pending[0])
      ensures var r := old(s).sessions[w].pending[0];
        ok <==>
          if r.event in old(s).processed then
            exists i :: 0 <= i < |old(s).notifications| && old(s).notifications[i].event == r.event && old(s).notifications[i].tenant == r.tenant
          else
            && r.template in old(s).active && r.renders
            && forall i :: 0 <= i < |old(s).notifications| ==>
                 old(s).notifications[i].tenant != r.tenant || old(s).notifications[i].dedup != r.dedup
      ensures !ok ==> s == Dropped(old(s), w)
      ensures ok ==>
        var r := old(s).sessions[w].pending[0];
        && s.sessions == old(s).sessions[w := old(s).sessions[w].(phase := Ingested, marks := {})]
        && s.schedules == Marked(old(s).schedules, old(s).sessions[w].marks)
        && s.notifications == old(s).notifications + (if r.event in old(s).processed then [] else [NotificationOf(r)])
        && s.processed == old(s).processed + {r.event}
    {
      ghost var first := s;
      Call(Look(w));
      if w !in s.sessions {
        return false;
      }
      if s.sessions[w].phase == Drafted {
        Call(Insert(w));
      }
      ok := w in s.sessions;
      if !ok {
        assert s.sessions == first.sessions - {w};
      }
    }

    /** The query for due schedules, and the session it opens. */
    method OpenDue(w: Id, ids: seq<Id>, now: Time)
      requires Valid() && w !in s.sessions && Distinct(ids)
      requires forall i :: 0 <= i < |ids| ==> ids[i] in s.schedules && Selectable(s.schedules[ids[i]], now)
      modifies this
      ensures Valid()
      ensures s == old(s).(sessions := old(s).sessions[w := SessionAt(ids, RequestsOf(old(s).schedules, ids), 0)])
    {
      ghost var requests := RequestsOf(s.schedules, ids);
      assert requests[0..] == requests;
      Call(OpenBatch(w, ids, now));
    }

    /** Ingests row `i` of a batch and marks it in the session. */
    method IngestRow(w: Id, ghost first: State, ghost ids: seq<Id>, ghost requests: seq<Request>, ghost i: nat) returns (ok: bool)
      requires SchedulesUnique(first) && Distinct(ids) && i < |ids|
      requires forall j :: 0 <= j < |ids| ==> ids[j] in first.schedules
      requires requests == RequestsOf(first.schedules, ids)
      requires Valid() && w in s.sessions && s.sessions[w] == SessionAt(ids, requests, i)
      requires TablesAt(first, ids, requests, i, s)
      modifies this
      ensures Valid() && (ok <==> Acceptable(first, requests[i]))
      ensures ok ==> TablesAt(first, ids, requests, i + 1, s) && s.sessions == old(s).sessions[w := SessionAt(ids, requests, i + 1)]
      ensures !ok ==> s == Dropped(old(s), w)
    {
      ghost var before := s;
      assert requests[i..][0] == requests[i];
      ok := Ingest(w);
      if ok {
        ghost var ingested := s;
        Call(Mark(w));
        SessionAdvance(ids, requests, i, before, w, ingested, s);
        TablesAdvance(first, ids, requests, i, before, s);
      }
    }

    /** The loop over the batch: as many rows as can be ingested in the process's lifetime. */
    method IngestRows(w: Id, ids: seq<Id>, lives: nat, ghost first: State, ghost requests: seq<Request>)
      returns (i: nat, ok: bool)
      requires SchedulesUnique(first) && Distinct(ids)
      requires forall j :: 0 <= j < |ids| ==> ids[j] in first.schedules
      requires requests == RequestsOf(first.schedules, ids)
      requires Valid() && w in s.sessions && s.sessions[w] == SessionAt(ids, requests, 0)
      requires TablesAt(first, ids, requests, 0, s)
      modifies this
      ensures Valid() && i <= |ids| && i <= lives
      ensures ok ==> (i == lives || i == |ids|) && s.sessions == old(s).sessions[w := SessionAt(ids, requests, i)]
      ensures ok ==> TablesAt(first, ids, requests, i, s)
      ensures !ok ==> s.sessions == old(s).sessions - {w} && AfterBatch(first, ids, lives, false, s)
    {
      i, ok := 0, true;
      while i < |ids| && i < lives
        invariant i <= |ids| && i <= lives && Valid()
        invariant s.sessions == old(s).sessions[w := SessionAt(ids, requests, i)]
        invariant TablesAt(first, ids, requests, i, s)
      {
        ghost var before := s;
        SessionReplaced(old(s).sessions, w, SessionAt(ids, requests, i), SessionAt(ids, requests, i + 1));
        ok := IngestRow(w, first, ids, requests, i);
        if !ok {
          BatchEnds(first, ids, i, lives, before, s);
          return;
        }
        i := i + 1;
      }
    }

    /** The end of a batch: its closing commit, or the end of the process. */
    method EndBatch(w: Id, closes: bool)
      requires Valid() && w in s.sessions && s.sessions[w].phase == Looking
      requires closes ==> s.sessions[w].pending == []
      modifies this
      ensures Valid() && s.sessions == old(s).sessions - {w}
      ensures s.notifications == old(s).notifications && s.processed == old(s).processed && s.active == old(s).active
      ensures s.schedules == if closes then Marked(old(s).schedules, old(s).sessions[w].marks) else old(s).schedules
    {
      if closes {
        Call(Close(w));
      } else {
        Call(Crash(w));
      }
    }

    /** The open session's whole work. */
    method ServeBatch(w: Id, ids: seq<Id>, lives: nat, ghost first: State, ghost requests: seq<Request>)
      returns (completed: bool)
      requires SchedulesUnique(first) && Distinct(ids)
      requires forall j :: 0 <= j < |ids| ==> ids[j] in first.schedules
      requires requests == RequestsOf(first.schedules, ids)
      requires Valid() && w in s.sessions && s.sessions[w] == SessionAt(ids, requests, 0)
      requires TablesAt(first, ids, requests, 0, s)
      modifies this
      ensures Valid() && AfterBatch(first, ids, lives, completed, s)
      ensures s.sessions == old(s).sessions - {w}
    {
      ghost var session := s.sessions[w];
      var i, ok := IngestRows(w, ids, lives, first, requests);
      completed := ok && i == |ids| && lives > i;
      if ok {
        SessionReplaced(old(s).sessions, w, SessionAt(ids, requests, i), session);
        ghost var before := s;
        EndBatch(w, completed);
        BatchEnds(first, ids, i, lives, before, s);
      }
    }

    /**
     Ingests the due schedules of one batch. `lives` is how many of them the process lives to
     ingest; it reaches the closing commit only when it lives past the last. Schedule i is
     marked by the commit of schedule i + 1, so a stop in between leaves one notified and
     unmarked, and a schedule that cannot be ingested holds up everything behind it.
     */
    method ProcessDueSchedules(w: Id, ids: seq<Id>, now: Time, lives: nat) returns (completed: bool)
      requires Valid() && w !in s.sessions && Distinct(ids)
      requires forall i :: 0 <= i < |ids| ==> ids[i] in s.schedules && Selectable(s.schedules[ids[i]], now)
      modifies this
      ensures Valid() && AfterBatch(old(s), ids, lives, completed, s)
      ensures s.sessions == old(s).sessions
      ensures completed ==> forall i :: 0 <= i < |ids| ==> ids[i] in s.schedules && s.schedules[ids[i]].processed
      ensures forall id :: id in old(s).schedules && id !in ids ==> id in s.schedules && s.schedules[id] == old(s).schedules[id]
    {
      ghost var first := s;
      ghost var requests := RequestsOf(s.schedules, ids);
      RunKeeps(history);
      OpenDue(w, ids, now);
      TablesStart(first, ids, requests, s);
      ghost var session := s.sessions[w];
      assert s.sessions - {w} == first.sessions by {
        SessionReplaced(first.sessions, w, session, session);
      }
      completed := ServeBatch(w, ids, lives, first, requests);
      MarksOf(first, ids, lives, completed, s);
    }
  }
}
