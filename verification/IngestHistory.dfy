/**
 Where notifications and marks come from: every notification repeats a request that was made,
 with a template that was active, and every marked schedule was due when it was picked.
 */
module IngestHistory {
  import opened Common
  import opened NotificationIngest

  /** A step that asks for what a request says: an ingest call, or the schedule of that id. */
  predicate Asks(a: Action, r: Request) {
    || (a.Open? && a.request == r)
    || (a.PutSchedule? && a.id == r.event && a.schedule.tenant == r.tenant && a.schedule.dedup == r.dedup
        && a.schedule.template == r.template && a.schedule.renders == r.renders)
  }

  predicate AskedFor(actions: seq<Action>, r: Request) {
    exists i :: 0 <= i < |actions| && Asks(actions[i], r)
  }

  predicate Activates(a: Action, template: Id) {
    a.SetTemplates? && template in a.active
  }

  predicate WasActive(actions: seq<Action>, template: Id) {
    exists i :: 0 <= i < |actions| && Activates(actions[i], template)
  }

  /** A scheduler picked the schedule when it was due. */
  predicate Picks(a: Action, id: Id, due: Time) {
    a.OpenBatch? && id in a.ids && due <= a.now
  }

  predicate PickedDue(actions: seq<Action>, id: Id, due: Time) {
    exists i :: 0 <= i < |actions| && Picks(actions[i], id, due)
  }

  lemma Grows(actions: seq<Action>)
    requires |actions| > 0
    ensures forall r :: AskedFor(Front(actions), r) || Asks(Last(actions), r) ==> AskedFor(actions, r)
    ensures forall t :: WasActive(Front(actions), t) || Activates(Last(actions), t) ==> WasActive(actions, t)
    ensures forall id, due :: PickedDue(Front(actions), id, due) || Picks(Last(actions), id, due) ==> PickedDue(actions, id, due)
  {
    assert forall i :: 0 <= i < |actions| - 1 ==> Front(actions)[i] == actions[i];
    assert actions[|actions| - 1] == Last(actions);
  }

  // ---- schedules ----

  function AsRequest(id: Id, schedule: Schedule): Request {
    Request(id, schedule.tenant, schedule.dedup, schedule.template, schedule.renders)
  }

  predicate SchedulesAsked(actions: seq<Action>, s: State) {
    forall id :: id in s.schedules ==> AskedFor(actions, AsRequest(id, s.schedules[id]))
  }

  /** A schedule keeps everything but its mark. */
  predicate SameSchedules(s: State, t: State) {
    forall id :: id in s.schedules ==> id in t.schedules && s.schedules[id].(processed := t.schedules[id].processed) == t.schedules[id]
  }

  lemma SchedulesByStep(s: State, a: Action, t: State)
    requires Step(s, a) == Some(t)
    ensures SameSchedules(s, t)
    ensures forall id :: id in t.schedules && id !in s.schedules ==> Asks(a, AsRequest(id, t.schedules[id]))
  {
  }

  lemma {:induction false} SchedulesKnown(actions: seq<Action>)
    requires Run(actions).Some?
    ensures SchedulesAsked(actions, Run(actions).value)
  {
    if |actions| > 0 {
      SchedulesKnown(Front(actions));
      Grows(actions);
      var s, t := Run(Front(actions)).value, Run(actions).value;
      SchedulesByStep(s, Last(actions), t);
      forall id | id in t.schedules
        ensures AskedFor(actions, AsRequest(id, t.schedules[id]))
      {
        if id in s.schedules {
          assert AsRequest(id, t.schedules[id]) == AsRequest(id, s.schedules[id]);
        }
      }
    }
  }

  // ---- sessions ----

  predicate SessionAsked(actions: seq<Action>, session: Session) {
    && (forall k :: 0 <= k < |session.pending| ==> AskedFor(actions, session.pending[k]))
    && (session.phase == Drafted && session.pending != [] ==>
          session.pending[0].renders && WasActive(actions, session.pending[0].template))
  }

  predicate SessionsAsked(actions: seq<Action>, s: State) {
    forall w :: w in s.sessions ==> SessionAsked(actions, s.sessions[w])
  }

  predicate ActiveKnown(actions: seq<Action>, s: State) {
    forall t :: t in s.active ==> WasActive(actions, t)
  }

  lemma {:induction false} ActiveLaw(actions: seq<Action>)
    requires Run(actions).Some?
    ensures ActiveKnown(actions, Run(actions).value)
  {
    if |actions| > 0 {
      ActiveLaw(Front(actions));
      Grows(actions);
    }
  }

  lemma SessionGrows(actions: seq<Action>, session: Session)
    requires |actions| > 0 && SessionAsked(Front(actions), session)
    ensures SessionAsked(actions, session)
  {
    Grows(actions);
  }

  /** What one step does to the sessions. */
  lemma SessionByStep(s: State, a: Action, t: State, w: Id)
    requires Step(s, a) == Some(t) && w in t.sessions
    ensures
      || (w in s.sessions && t.sessions[w].phase != Drafted && t.sessions[w].pending == s.sessions[w].pending)
      || (w in s.sessions && t.sessions[w] == s.sessions[w])
      || (w in s.sessions && t.sessions[w].phase == Looking && s.sessions[w].pending != [] && t.sessions[w].pending == s.sessions[w].pending[1..])
      || (w in s.sessions && t.sessions[w].pending == s.sessions[w].pending
          && s.sessions[w].pending != [] && s.sessions[w].pending[0].renders && s.sessions[w].pending[0].template in s.active)
      || (a.Open? && t.sessions[w].pending == [a.request] && t.sessions[w].phase == Looking)
      || (a.OpenBatch? && (forall i :: 0 <= i < |a.ids| ==> a.ids[i] in s.schedules)
          && t.sessions[w].phase == Looking && t.sessions[w].pending == RequestsOf(s.schedules, a.ids))
  {
  }

  lemma SessionKnown(actions: seq<Action>, s: State, a: Action, t: State, w: Id)
    requires |actions| > 0 && Last(actions) == a && Step(s, a) == Some(t) && w in t.sessions
    requires SessionsAsked(Front(actions), s) && SchedulesAsked(Front(actions), s) && ActiveKnown(Front(actions), s)
    ensures SessionAsked(actions, t.sessions[w])
  {
    SessionByStep(s, a, t, w);
    Grows(actions);
    if w in s.sessions {
      SessionGrows(actions, s.sessions[w]);
    }
    forall id | id in s.schedules
      ensures AskedFor(actions, RequestOf(id, s.schedules[id]))
    {
      assert RequestOf(id, s.schedules[id]) == AsRequest(id, s.schedules[id]);
    }
  }

  lemma {:induction false} SessionsKnown(actions: seq<Action>)
    requires Run(actions).Some?
    ensures SessionsAsked(actions, Run(actions).value)
  {
    if |actions| > 0 {
      var s, t := Run(Front(actions)).value, Run(actions).value;
      SessionsKnown(Front(actions));
      SchedulesKnown(Front(actions));
      ActiveLaw(Front(actions));
      forall w | w in t.sessions
        ensures SessionAsked(actions, t.sessions[w])
      {
        SessionKnown(actions, s, Last(actions), t, w);
      }
    }
  }

  // ---- notifications ----

  /** A notification says what a request said. */
  predicate Repeats(n: Notification, r: Request) {
    n.tenant == r.tenant && n.event == r.event && n.dedup == r.dedup && n.template == r.template
  }

  ghost predicate Justified(actions: seq<Action>, n: Notification) {
    exists r :: Repeats(n, r) && AskedFor(actions, r) && r.renders && WasActive(actions, r.template)
  }

  lemma NotificationsByStep(s: State, a: Action, t: State)
    requires Step(s, a) == Some(t)
    ensures t.notifications == s.notifications
         || (a.Insert? && a.worker in s.sessions && s.sessions[a.worker].phase == Drafted && s.sessions[a.worker].pending != []
             && |t.notifications| == |s.notifications| + 1 && t.notifications[..|s.notifications|] == s.notifications
             && Repeats(Last(t.notifications), s.sessions[a.worker].pending[0]))
  {
  }

  lemma JustifiedGrows(actions: seq<Action>, n: Notification)
    requires |actions| > 0 && Justified(Front(actions), n)
    ensures Justified(actions, n)
  {
    var r :| Repeats(n, r) && AskedFor(Front(actions), r) && r.renders && WasActive(Front(actions), r.template);
    Grows(actions);
    assert AskedFor(actions, r);
  }

  /**
   In every interleaving each notification repeats a request that was made, by a call or by a
   schedule: its tenant, event, key and template, and the template was active and took the
   request's variables.
   */
  lemma {:induction false} EveryNotificationJustified(actions: seq<Action>, i: nat)
    requires Run(actions).Some? && i < |Run(actions).value.notifications|
    ensures Justified(actions, Run(actions).value.notifications[i])
  {
    if |actions| > 0 {
      var s, a, t := Run(Front(actions)).value, Last(actions), Run(actions).value;
      NotificationsByStep(s, a, t);
      if i < |s.notifications| {
        EveryNotificationJustified(Front(actions), i);
        assert t.notifications[i] == s.notifications[i];
        JustifiedGrows(actions, t.notifications[i]);
      } else {
        SessionsKnown(Front(actions));
        SessionGrows(actions, s.sessions[a.worker]);
        var r := s.sessions[a.worker].pending[0];
        assert AskedFor(actions, r) && Repeats(t.notifications[i], r);
      }
    }
  }

  // ---- marks ----

  /** Every schedule a session works on, or marked, was due when it was picked. */
  predicate SessionDue(actions: seq<Action>, s: State, session: Session) {
    && (session.scheduled ==> forall k :: 0 <= k < |session.pending| ==>
          session.pending[k].event in s.schedules && PickedDue(actions, session.pending[k].event, s.schedules[session.pending[k].event].due))
    && (forall id :: id in session.marks ==> id in s.schedules && PickedDue(actions, id, s.schedules[id].due))
  }

  predicate MarksDue(actions: seq<Action>, s: State) {
    && (forall id :: id in s.schedules && s.schedules[id].processed ==> PickedDue(actions, id, s.schedules[id].due))
    && (forall w :: w in s.sessions ==> SessionDue(actions, s, s.sessions[w]))
  }

  lemma SessionDueGrows(actions: seq<Action>, s: State, t: State, session: Session)
    requires |actions| > 0 && SameSchedules(s, t) && SessionDue(Front(actions), s, session)
    ensures SessionDue(actions, t, session)
  {
    Grows(actions);
  }

  /** Where marks and work come from in one step. */
  lemma MarksByStep(s: State, a: Action, t: State, w: Id)
    requires Step(s, a) == Some(t) && w in t.sessions
    ensures w !in s.sessions ==>
      t.sessions[w].marks == {} &&
      (t.sessions[w].scheduled ==>
         a.OpenBatch? && (forall i :: 0 <= i < |a.ids| ==> a.ids[i] in s.schedules && s.schedules[a.ids[i]].due <= a.now)
         && t.sessions[w].pending == RequestsOf(s.schedules, a.ids))
    ensures w in s.sessions ==>
      && t.sessions[w].scheduled == s.sessions[w].scheduled
      && (t.sessions[w].pending == s.sessions[w].pending || (|s.sessions[w].pending| > 0 && t.sessions[w].pending == s.sessions[w].pending[1..]))
      && (t.sessions[w].marks <= s.sessions[w].marks
          || (s.sessions[w].scheduled && |s.sessions[w].pending| > 0 && t.sessions[w].marks == s.sessions[w].marks + {s.sessions[w].pending[0].event}))
  {
  }

  lemma MarkedByStep(s: State, a: Action, t: State, id: Id)
    requires Step(s, a) == Some(t) && id in t.schedules && t.schedules[id].processed
    ensures id in s.schedules
    ensures s.schedules[id].processed || exists w :: w in s.sessions && id in s.sessions[w].marks
  {
    if !s.schedules[id].processed {
      assert a.worker in s.sessions && id in s.sessions[a.worker].marks;
    }
  }

  lemma SessionStaysDue(actions: seq<Action>, s: State, a: Action, t: State, w: Id)
    requires |actions| > 0 && Last(actions) == a && Step(s, a) == Some(t) && w in t.sessions
    requires MarksDue(Front(actions), s)
    ensures SessionDue(actions, t, t.sessions[w])
  {
    Grows(actions);
    SchedulesByStep(s, a, t);
    MarksByStep(s, a, t, w);
    if w in s.sessions {
      SessionDueGrows(actions, s, t, s.sessions[w]);
    } else if t.sessions[w].scheduled {
      forall k | 0 <= k < |t.sessions[w].pending|
        ensures t.sessions[w].pending[k].event in t.schedules
        ensures PickedDue(actions, t.sessions[w].pending[k].event, t.schedules[t.sessions[w].pending[k].event].due)
      {
        assert t.sessions[w].pending[k].event == a.ids[k];
        assert Picks(a, a.ids[k], s.schedules[a.ids[k]].due);
      }
    }
  }

  lemma {:induction false} MarksKnown(actions: seq<Action>)
    requires Run(actions).Some?
    ensures MarksDue(actions, Run(actions).value)
  {
    if |actions| > 0 {
      var s, a, t := Run(Front(actions)).value, Last(actions), Run(actions).value;
      MarksKnown(Front(actions));
      Grows(actions);
      SchedulesByStep(s, a, t);
      forall w | w in t.sessions
        ensures SessionDue(actions, t, t.sessions[w])
      {
        SessionStaysDue(actions, s, a, t, w);
      }
      forall id | id in t.schedules && t.schedules[id].processed
        ensures PickedDue(actions, id, t.schedules[id].due)
      {
        MarkedByStep(s, a, t, id);
        if !s.schedules[id].processed {
          var w :| w in s.sessions && id in s.sessions[w].marks;
          assert SessionDue(Front(actions), s, s.sessions[w]);
        }
      }
    }
  }

  /**
   In every interleaving a schedule marked processed was due when a scheduler picked it, and
   stands as it was put: tenant, key and template.
   */
  lemma MarkedWasDue(actions: seq<Action>, id: Id)
    requires Run(actions).Some? && id in Run(actions).value.schedules
    ensures var schedule := Run(actions).value.schedules[id];
      && (schedule.processed ==> PickedDue(actions, id, schedule.due))
      && AskedFor(actions, AsRequest(id, schedule))
  {
    MarksKnown(actions);
    SchedulesKnown(actions);
  }
}
