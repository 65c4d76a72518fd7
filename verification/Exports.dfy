/**
 Report runs and export artifacts of GovInsights: queueing, the two paths of the one worker
 that process them, the storage beside the database, and the clean-up of expired artifacts.
 Every commit and every storage call is a step; the worker may die between any two.
 */
module ReportExports {
  import opened Common

  datatype Status = Queued | Running | Succeeded | Failed

  datatype Code = ReportNotFound | RowLimit | SizeLimit | TimeLimit | ExportFailed

  datatype ReportRun = ReportRun(report: Id, status: Status, rows: Option<nat>, error: Option<Code>)

  /** An artifact's storage key is a function of its identity, so its id stands for the key. */
  datatype Artifact = Artifact(run: Id, status: Status, stored: bool, expires: Time)

  datatype Event = Completed(run: Id, rows: nat) | RunFailed(run: Id, code: Code) | ExportReady(artifact: Id)

  datatype Stage = Rendering | Rendered(rows: nat) | Uploaded(rows: nat)

  datatype Job = Exporting(artifact: Id, stage: Stage) | Cleaning(pending: seq<Id>, done: set<Id>)

  datatype State = State(
    reports: set<Id>,
    runs: map<Id, ReportRun>,
    artifacts: map<Id, Artifact>,
    objects: set<Id>,
    outbox: seq<Event>,
    job: Option<Job>,
    clock: Time,
    used: set<Id>,           // history: artifact ids ever given out
    removed: set<Id>,        // history: artifacts whose object the clean-up deleted
    orphans: set<Id>)        // history: artifacts whose upload was not recorded

  const INITIAL: State := State({}, map[], map[], {}, [], None, 0, {}, {}, {})

  datatype Limits = Limits(maxRows: nat, maxBytes: nat)

  /** What counting the rows of a report comes to; another error leaves the run queued. */
  datatype Counting = Counted(rows: nat) | TimedOut | Raised

  datatype Action =
    | SetReports(reports: set<Id>)
    | Tick(now: Time)
    | Queue(run: Id, report: Id, wanted: Option<Id>, expires: Time)
    | CountRun(run: Id, counting: Counting)
    | StartExport(artifact: Id)
    | Render(rows: nat, bytes: nat)
    | Upload
    | Interrupt(timeout: bool)
    | CommitExport
    | StartCleanup(ids: seq<Id>)
    | DeleteObject
    | CommitCleanup
    | Crash

  predicate HasArtifact(s: State, run: Id) {
    exists a :: a in s.artifacts && s.artifacts[a].run == run
  }

  function Fail(r: ReportRun, code: Code): ReportRun {
    r.(status := Failed, error := Some(code))
  }

  /** The report path: one commit. */
  function CountedRun(s: State, l: Limits, run: Id, counting: Counting): State
    requires run in s.runs
  {
    var r := s.runs[run];
    if r.report !in s.reports then FailRun(s, run, ReportNotFound)
    else match counting
         case Raised => s
         case TimedOut => FailRun(s, run, TimeLimit)
         case Counted(rows) =>
           if rows > l.maxRows then FailRun(s, run, RowLimit)
           else s.(runs := s.runs[run := r.(status := Succeeded, rows := Some(rows))], outbox := s.outbox + [Completed(run, rows)])
  }

  function FailRun(s: State, run: Id, code: Code): State
    requires run in s.runs
  {
    s.(runs := s.runs[run := Fail(s.runs[run], code)], outbox := s.outbox + [RunFailed(run, code)])
  }

  /** The export's failure commit; an object already uploaded stays behind. */
  function FailExport(s: State, artifact: Id, code: Code): State
    requires artifact in s.artifacts && s.artifacts[artifact].run in s.runs
  {
    var a := s.artifacts[artifact];
    FailRun(s, a.run, code).(
      artifacts := s.artifacts[artifact := a.(status := Failed)], job := None,
      orphans := if UploadedBy(s, artifact) then s.orphans + {artifact} else s.orphans)
  }

  /** The worker uploaded this artifact's object and did not record it yet. */
  predicate UploadedBy(s: State, artifact: Id) {
    s.job.Some? && s.job.value.Exporting? && s.job.value.artifact == artifact && s.job.value.stage.Uploaded?
  }

  function StepQueue(s: State, l: Limits, a: Action): Option<State> {
    match a
    case SetReports(reports) => Some(s.(reports := reports))
    case Tick(now) => if now < s.clock then None else Some(s.(clock := now))
    case Queue(run, report, wanted, expires) =>
      if report !in s.reports || run in s.runs || (wanted.Some? && wanted.value in s.used) then None
      else
        var t := s.(runs := s.runs[run := ReportRun(report, Queued, None, None)]);
        if wanted.None? then Some(t)
        else Some(t.(artifacts := s.artifacts[wanted.value := Artifact(run, Queued, false, expires)],
                     used := s.used + {wanted.value}))
    case CountRun(run, counting) =>
      if s.job.Some? || run !in s.runs || s.runs[run].status != Queued || HasArtifact(s, run) then None
      else Some(CountedRun(s, l, run, counting))
    case _ => None
  }

  function StepExport(s: State, l: Limits, a: Action): Option<State> {
    if a.StartExport? then
      var id := a.artifact;
      if s.job.Some? || id !in s.artifacts || s.artifacts[id].status != Queued || s.artifacts[id].run !in s.runs then None
      else
        var run := s.artifacts[id].run;
        if s.runs[run].report !in s.reports then Some(FailExport(s, id, ReportNotFound))
        else Some(s.(runs := s.runs[run := s.runs[run].(status := Running)],
                     artifacts := s.artifacts[id := s.artifacts[id].(status := Running)],
                     job := Some(Exporting(id, Rendering))))
    else if s.job.None? || !s.job.value.Exporting? then None
    else
      var id, stage := s.job.value.artifact, s.job.value.stage;
      if id !in s.artifacts || s.artifacts[id].run !in s.runs then None
      else
        match a
        case Render(rows, bytes) =>
          if stage != Rendering then None
          else if rows > l.maxRows then Some(FailExport(s, id, RowLimit))
          else if bytes > l.maxBytes then Some(FailExport(s, id, SizeLimit))
          else Some(s.(job := Some(Exporting(id, Rendered(rows)))))
        case Upload =>
          if !stage.Rendered? then None
          else Some(s.(objects := s.objects + {id}, job := Some(Exporting(id, Uploaded(stage.rows)))))
        case Interrupt(timeout) =>
          Some(FailExport(s, id, if timeout then TimeLimit else ExportFailed))
        case CommitExport =>
          if !stage.Uploaded? then None
          else
            var run := s.artifacts[id].run;
            Some(s.(artifacts := s.artifacts[id := s.artifacts[id].(status := Succeeded, stored := true)],
                    runs := s.runs[run := s.runs[run].(status := Succeeded, rows := Some(stage.rows))],
                    outbox := s.outbox + [Completed(run, stage.rows), ExportReady(id)],
                    job := None))
        case _ => None
  }

  function StepCleanup(s: State, a: Action): Option<State> {
    match a
    case StartCleanup(ids) =>
      if s.job.Some? || exists i :: 0 <= i < |ids| && !(ids[i] in s.artifacts && s.artifacts[ids[i]].expires <= s.clock) then None
      else Some(s.(job := Some(Cleaning(ids, {}))))
    case DeleteObject =>
      if s.job.None? || !s.job.value.Cleaning? || s.job.value.pending == [] then None
      else
        var id := s.job.value.pending[0];
        var t := s.(job := Some(Cleaning(s.job.value.pending[1..], s.job.value.done + {id})));
        if id in s.artifacts && s.artifacts[id].stored then Some(t.(objects := s.objects - {id}, removed := s.removed + {id}))
        else Some(t)
    case CommitCleanup =>
      if s.job.None? || !s.job.value.Cleaning? || s.job.value.pending != [] then None
      else Some(s.(artifacts := s.artifacts - s.job.value.done, job := None))
    case _ => None
  }

  function Crashed(s: State): State {
    s.(job := None,
       orphans := if s.job.Some? && s.job.value.Exporting? && s.job.value.stage.Uploaded?
                  then s.orphans + {s.job.value.artifact} else s.orphans)
  }

  function Step(l: Limits, s: State, a: Action): Option<State> {
    if a.SetReports? || a.Tick? || a.Queue? || a.CountRun? then StepQueue(s, l, a)
    else if a.StartCleanup? || a.DeleteObject? || a.CommitCleanup? then StepCleanup(s, a)
    else if a.Crash? then Some(Crashed(s))
    else StepExport(s, l, a)
  }

  function Run(l: Limits, actions: seq<Action>): Option<State> {
    if |actions| == 0 then Some(INITIAL)
    else match Run(l, Front(actions))
         case None => None
         case Some(s) => Step(l, s, Last(actions))
  }

  // ---- what every step keeps ----

  predicate Terminal(status: Status) {
    status == Succeeded || status == Failed
  }

  /** An artifact always stands where its run stands, and no run has two. */
  predicate Paired(s: State) {
    && (forall a :: a in s.artifacts ==>
          s.artifacts[a].run in s.runs && s.artifacts[a].status == s.runs[s.artifacts[a].run].status && a in s.used)
    && (forall a, b :: a in s.artifacts && b in s.artifacts && s.artifacts[a].run == s.artifacts[b].run ==> a == b)
  }

  /** Only the worker's own export is between its two commits, unless a crash left it there. */
  predicate JobKnown(s: State) {
    s.job.Some? ==>
      match s.job.value
      case Exporting(a, _) => a in s.artifacts && s.artifacts[a].status == Running
      case Cleaning(pending, done) =>
        && (forall i :: 0 <= i < |pending| ==> pending[i] in s.artifacts && s.artifacts[pending[i]].expires <= s.clock)
        && (forall a :: a in done ==>
              a in s.artifacts && s.artifacts[a].expires <= s.clock && (s.artifacts[a].stored ==> a in s.removed))
  }

  predicate RowsLimited(l: Limits, s: State) {
    && (forall r :: r in s.runs ==>
          && (s.runs[r].status == Succeeded <==> s.runs[r].rows.Some?)
          && (s.runs[r].status == Failed <==> s.runs[r].error.Some?)
          && (s.runs[r].rows.Some? ==> s.runs[r].rows.value <= l.maxRows))
    && (s.job.Some? && s.job.value.Exporting? && !s.job.value.stage.Rendering? ==> s.job.value.stage.rows <= l.maxRows)
  }

  /** The events of a run that close it. */
  function Closings(outbox: seq<Event>, run: Id): seq<Event> {
    if |outbox| == 0 then []
    else
      var before, e := Closings(Front(outbox), run), Last(outbox);
      if (e.Completed? || e.RunFailed?) && e.run == run then before + [e] else before
  }

  /** What a run's row announces. */
  function Announcement(run: Id, r: ReportRun): seq<Event> {
    if r.status == Succeeded && r.rows.Some? then [Completed(run, r.rows.value)]
    else if r.status == Failed && r.error.Some? then [RunFailed(run, r.error.value)]
    else []
  }

  /** The closing events of a run are exactly what its row announces. */
  predicate AnnouncedOf(s: State, run: Id) {
    Closings(s.outbox, run) == if run in s.runs then Announcement(run, s.runs[run]) else []
  }

  ghost predicate Announced(s: State) {
    forall run :: AnnouncedOf(s, run)
  }

  /** Exactly which objects are in storage. */
  ghost predicate StorageExact(s: State) {
    && (forall a :: a in s.objects <==>
          (a in s.artifacts && s.artifacts[a].stored && a !in s.removed) || a in s.orphans || UploadedBy(s, a))
    && (forall a :: a in s.artifacts ==> (s.artifacts[a].stored <==> s.artifacts[a].status == Succeeded))
    && (forall a :: a in s.orphans ==> a in s.used && a !in s.removed && (a in s.artifacts ==> !s.artifacts[a].stored))
    && (forall a :: a in s.orphans && a in s.artifacts ==> s.artifacts[a].status == Failed || s.artifacts[a].status == Running)
    && (s.job.Some? && s.job.value.Exporting? ==> s.job.value.artifact !in s.orphans)
    && (forall a :: a in s.removed && a in s.artifacts ==> s.artifacts[a].expires <= s.clock)
    && (forall a :: a in s.removed ==> a in s.used)
    && (forall a :: a in s.artifacts && !s.artifacts[a].stored ==> a !in s.removed)
  }

  ghost predicate Kept(l: Limits, s: State) {
    Paired(s) && JobKnown(s) && RowsLimited(l, s) && Announced(s) && StorageExact(s)
  }

  lemma QueuePaired(l: Limits, s: State, a: Action, t: State)
    requires Paired(s) && JobKnown(s) && StepQueue(s, l, a) == Some(t)
    ensures Paired(t) && JobKnown(t)
  {
  }

  /** A run and its artifact change status together. */
  lemma MovedTogether(s: State, t: State, id: Id)
    requires Paired(s) && id in s.artifacts
    requires t.used == s.used && t.artifacts.Keys == s.artifacts.Keys && t.runs.Keys == s.runs.Keys
    requires t.artifacts[id].run == s.artifacts[id].run && t.artifacts[id].status == t.runs[s.artifacts[id].run].status
    requires forall b :: b in s.artifacts && b != id ==> t.artifacts[b] == s.artifacts[b]
    requires forall r :: r in s.runs && r != s.artifacts[id].run ==> t.runs[r] == s.runs[r]
    ensures Paired(t)
  {
    forall b | b in t.artifacts
      ensures t.artifacts[b].run == s.artifacts[b].run
      ensures t.artifacts[b].run in t.runs && t.artifacts[b].status == t.runs[t.artifacts[b].run].status
    {
      if b != id {
        assert s.artifacts[b].run != s.artifacts[id].run;
      }
    }
  }

  lemma ExportPaired(l: Limits, s: State, a: Action, t: State)
    requires Paired(s) && JobKnown(s) && StepExport(s, l, a) == Some(t)
    ensures Paired(t) && JobKnown(t)
  {
    var id := if a.StartExport? then a.artifact else s.job.value.artifact;
    MovedTogether(s, t, id);
  }

  lemma CleanupPaired(s: State, a: Action, t: State)
    requires Paired(s) && JobKnown(s) && StepCleanup(s, a) == Some(t)
    ensures Paired(t) && JobKnown(t)
  {
  }

  lemma StepPaired(l: Limits, s: State, a: Action, t: State)
    requires Paired(s) && JobKnown(s) && Step(l, s, a) == Some(t)
    ensures Paired(t) && JobKnown(t)
  {
    if a.SetReports? || a.Tick? || a.Queue? || a.CountRun? {
      QueuePaired(l, s, a, t);
    } else if a.StartCleanup? || a.DeleteObject? || a.CommitCleanup? {
      CleanupPaired(s, a, t);
    } else if !a.Crash? {
      ExportPaired(l, s, a, t);
    }
  }

  lemma QueueRows(l: Limits, s: State, a: Action, t: State)
    requires RowsLimited(l, s) && StepQueue(s, l, a) == Some(t)
    ensures RowsLimited(l, t)
  {
  }

  lemma ExportRows(l: Limits, s: State, a: Action, t: State)
    requires Paired(s) && JobKnown(s) && RowsLimited(l, s) && StepExport(s, l, a) == Some(t)
    ensures RowsLimited(l, t)
  {
  }

  lemma StepRows(l: Limits, s: State, a: Action, t: State)
    requires Paired(s) && JobKnown(s) && RowsLimited(l, s) && Step(l, s, a) == Some(t)
    ensures RowsLimited(l, t)
  {
    if a.SetReports? || a.Tick? || a.Queue? || a.CountRun? {
      QueueRows(l, s, a, t);
    } else if !a.StartCleanup? && !a.DeleteObject? && !a.CommitCleanup? && !a.Crash? {
      ExportRows(l, s, a, t);
    }
  }

  /** The outbox grows by at most one closing event, and what it closes. */
  lemma ClosingsAfter(outbox: seq<Event>, e: Event, run: Id)
    ensures Closings(outbox + [e], run) ==
      if (e.Completed? || e.RunFailed?) && e.run == run then Closings(outbox, run) + [e] else Closings(outbox, run)
  {
    assert Front(outbox + [e]) == outbox;
  }

  /** Changing a run's row and announcing it in the same step. */
  lemma AnnouncedTogether(s: State, run: Id, r: ReportRun, e: Event, t: State, other: Id)
    requires run in s.runs && Announcement(run, s.runs[run]) == [] && Announcement(run, r) == [e]
    requires AnnouncedOf(s, other) && t.runs == s.runs[run := r] && t.outbox == s.outbox + [e]
    ensures AnnouncedOf(t, other)
  {
    ClosingsAfter(s.outbox, e, other);
  }

  lemma FailAnnounced(s: State, run: Id, code: Code, other: Id)
    requires run in s.runs && !Terminal(s.runs[run].status) && AnnouncedOf(s, other)
    ensures AnnouncedOf(FailRun(s, run, code), other)
  {
    AnnouncedTogether(s, run, Fail(s.runs[run], code), RunFailed(run, code), FailRun(s, run, code), other);
  }

  lemma QueueAnnounced(l: Limits, s: State, a: Action, t: State, other: Id)
    requires AnnouncedOf(s, other) && StepQueue(s, l, a) == Some(t)
    ensures AnnouncedOf(t, other)
  {
    if a.CountRun? && t != s {
      var run := a.run;
      if s.runs[run].report !in s.reports {
        FailAnnounced(s, run, ReportNotFound, other);
      } else if a.counting.TimedOut? {
        FailAnnounced(s, run, TimeLimit, other);
      } else if a.counting.rows > l.maxRows {
        FailAnnounced(s, run, RowLimit, other);
      } else {
        AnnouncedTogether(s, run, t.runs[run], Completed(run, a.counting.rows), t, other);
      }
    }
  }

  lemma ExportAnnounced(l: Limits, s: State, a: Action, t: State, other: Id)
    requires Paired(s) && JobKnown(s) && AnnouncedOf(s, other) && StepExport(s, l, a) == Some(t)
    ensures AnnouncedOf(t, other)
  {
    if a.CommitExport? {
      CommitAnnounced(l, s, t, other);
    } else {
      var id := if a.StartExport? then a.artifact else s.job.value.artifact;
      ExportFails(l, s, a, t);
      if t.outbox != s.outbox {
        var run := s.artifacts[id].run;
        FailAnnounced(s, run, t.runs[run].error.value, other);
      } else {
        RunsQuiet(s, t, other);
      }
    }
  }

  lemma CommitAnnounced(l: Limits, s: State, t: State, other: Id)
    requires Paired(s) && JobKnown(s) && AnnouncedOf(s, other) && StepExport(s, l, CommitExport) == Some(t)
    ensures AnnouncedOf(t, other)
  {
    var id := s.job.value.artifact;
    var run, rows := s.artifacts[id].run, s.job.value.stage.rows;
    CommitCloses(l, s, t);
    var between := t.(outbox := s.outbox + [Completed(run, rows)]);
    AnnouncedTogether(s, run, t.runs[run], Completed(run, rows), between, other);
    ClosingsAfter(between.outbox, ExportReady(id), other);
  }

  /** The commit of an export closes its run and announces it, and then the artifact. */
  lemma CommitCloses(l: Limits, s: State, t: State)
    requires Paired(s) && JobKnown(s) && StepExport(s, l, CommitExport) == Some(t)
    ensures var id := s.job.value.artifact;
      var run, rows := s.artifacts[id].run, s.job.value.stage.rows;
      && run in s.runs && run in t.runs && t.runs == s.runs[run := t.runs[run]]
      && Announcement(run, s.runs[run]) == [] && Announcement(run, t.runs[run]) == [Completed(run, rows)]
      && t.outbox == s.outbox + [Completed(run, rows)] + [ExportReady(id)]
  {
    var id := s.job.value.artifact;
    assert s.runs[s.artifacts[id].run].status == Running;
  }

  /** A step of an export other than its commit fails it, or announces nothing and closes nothing. */
  lemma ExportFails(l: Limits, s: State, a: Action, t: State)
    requires Paired(s) && JobKnown(s) && StepExport(s, l, a) == Some(t) && !a.CommitExport?
    ensures var id := if a.StartExport? then a.artifact else s.job.value.artifact;
      var run := s.artifacts[id].run;
      && run in s.runs && !Terminal(s.runs[run].status) && t.runs.Keys == s.runs.Keys
      && (t.outbox == s.outbox ==>
            forall r :: r in s.runs ==> t.runs[r] == s.runs[r] || (!Terminal(t.runs[r].status) && !Terminal(s.runs[r].status)))
      && (t.outbox != s.outbox ==>
            && t.runs[run].error.Some?
            && t.runs == FailRun(s, run, t.runs[run].error.value).runs
            && t.outbox == FailRun(s, run, t.runs[run].error.value).outbox)
  {
  }

  /** Nothing is announced, and no run closes. */
  lemma RunsQuiet(s: State, t: State, other: Id)
    requires AnnouncedOf(s, other) && t.outbox == s.outbox && t.runs.Keys == s.runs.Keys
    requires forall r :: r in s.runs ==>
      t.runs[r] == s.runs[r] || (!Terminal(t.runs[r].status) && !Terminal(s.runs[r].status))
    ensures AnnouncedOf(t, other)
  {
    assert other in t.runs.Keys <==> other in s.runs.Keys;
  }

  lemma StepAnnounced(l: Limits, s: State, a: Action, t: State)
    requires Paired(s) && JobKnown(s) && RowsLimited(l, s) && Announced(s) && Step(l, s, a) == Some(t)
    ensures Announced(t)
  {
    forall run
      ensures AnnouncedOf(t, run)
    {
      assert AnnouncedOf(s, run);
      if a.SetReports? || a.Tick? || a.Queue? || a.CountRun? {
        QueueAnnounced(l, s, a, t, run);
      } else if !a.StartCleanup? && !a.DeleteObject? && !a.CommitCleanup? && !a.Crash? {
        ExportAnnounced(l, s, a, t, run);
      }
    }
  }

  lemma QueueStorage(l: Limits, s: State, a: Action, t: State)
    requires Paired(s) && JobKnown(s) && StorageExact(s) && StepQueue(s, l, a) == Some(t)
    ensures StorageExact(t)
  {
    if !a.Queue? {
      assert t.artifacts == s.artifacts && t.job == s.job && t.objects == s.objects && t.clock >= s.clock;
    } else {
      forall id
        ensures UploadedBy(t, id) == UploadedBy(s, id)
      {
      }
    }
  }

  lemma FailStorage(s: State, id: Id, code: Code, t: State)
    requires Paired(s) && JobKnown(s) && StorageExact(s) && id in s.artifacts && t == FailExport(s, id, code)
    requires if s.job.None? then s.artifacts[id].status == Queued else s.job.value.Exporting? && s.job.value.artifact == id
    ensures StorageExact(t)
  {
  }

  lemma ExportStorage(l: Limits, s: State, a: Action, t: State)
    requires Paired(s) && JobKnown(s) && StorageExact(s) && StepExport(s, l, a) == Some(t)
    ensures StorageExact(t)
  {
    if a.StartExport? {
      if s.runs[s.artifacts[a.artifact].run].report !in s.reports {
        FailStorage(s, a.artifact, ReportNotFound, t);
      }
    } else if a.Render? && t.job.None? {
      FailStorage(s, s.job.value.artifact, if a.rows > l.maxRows then RowLimit else SizeLimit, t);
    } else if a.Interrupt? {
      FailStorage(s, s.job.value.artifact, if a.timeout then TimeLimit else ExportFailed, t);
    }
  }

  lemma CleanupStorage(s: State, a: Action, t: State)
    requires Paired(s) && JobKnown(s) && StorageExact(s) && StepCleanup(s, a) == Some(t)
    ensures StorageExact(t)
  {
  }

  lemma StepStorage(l: Limits, s: State, a: Action, t: State)
    requires Paired(s) && JobKnown(s) && StorageExact(s) && Step(l, s, a) == Some(t)
    ensures StorageExact(t)
  {
    if a.SetReports? || a.Tick? || a.Queue? || a.CountRun? {
      QueueStorage(l, s, a, t);
    } else if a.StartCleanup? || a.DeleteObject? || a.CommitCleanup? {
      CleanupStorage(s, a, t);
    } else if !a.Crash? {
      ExportStorage(l, s, a, t);
    }
  }

  lemma {:induction false} RunKeeps(l: Limits, actions: seq<Action>)
    requires Run(l, actions).Some?
    ensures Kept(l, Run(l, actions).value)
  {
    if |actions| > 0 {
      RunKeeps(l, Front(actions));
      var s, a, t := Run(l, Front(actions)).value, Last(actions), Run(l, actions).value;
      StepPaired(l, s, a, t);
      StepRows(l, s, a, t);
      StepAnnounced(l, s, a, t);
      StepStorage(l, s, a, t);
    }
  }

  // ---- what the runs of the system guarantee ----

  /**
   A run has a closing event exactly when it succeeded or failed, never two, and the event
   carries what the run's row records: its row count within the limit, or its error.
   */
  lemma OneClosingEvent(l: Limits, actions: seq<Action>, run: Id)
    requires Run(l, actions).Some?
    ensures var s := Run(l, actions).value;
      var closings := Closings(s.outbox, run);
      && |closings| <= 1
      && (|closings| == 1 <==> run in s.runs && Terminal(s.runs[run].status))
      && (|closings| == 1 ==>
            match s.runs[run].status
            case Succeeded => s.runs[run].rows.Some? && s.runs[run].rows.value <= l.maxRows
                              && closings[0] == Completed(run, s.runs[run].rows.value)
            case _ => s.runs[run].error.Some? && closings[0] == RunFailed(run, s.runs[run].error.value))
  {
    RunKeeps(l, actions);
    assert AnnouncedOf(Run(l, actions).value, run);
  }

  /**
   An idle worker can take a queued run by exactly one of its two paths: the export path if
   the run has an artifact, which then is queued as well, else the report path.
   */
  lemma OnePathPerRun(l: Limits, actions: seq<Action>, run: Id, counting: Counting)
    requires Run(l, actions).Some?
    requires var s := Run(l, actions).value; s.job.None? && run in s.runs && s.runs[run].status == Queued
    ensures var s := Run(l, actions).value;
      && (Step(l, s, CountRun(run, counting)).Some? <==> !HasArtifact(s, run))
      && (HasArtifact(s, run) <==>
            exists a :: a in s.artifacts && s.artifacts[a].run == run && Step(l, s, StartExport(a)).Some?)
  {
    RunKeeps(l, actions);
    var s := Run(l, actions).value;
    if HasArtifact(s, run) {
      var a :| a in s.artifacts && s.artifacts[a].run == run;
      assert Step(l, s, StartExport(a)).Some?;
    }
  }

  /** A run chosen for a path stays choosable for it until the worker takes it or cleans up. */
  lemma SelectionHolds(l: Limits, s: State, a: Action, t: State, run: Id)
    requires Paired(s) && JobKnown(s) && Step(l, s, a) == Some(t)
    requires run in s.runs && s.runs[run].status == Queued
    requires !a.StartCleanup? && !a.DeleteObject? && !a.CommitCleanup?
    requires a.CountRun? ==> a.run != run
    requires a.StartExport? && a.artifact in s.artifacts ==> s.artifacts[a.artifact].run != run
    ensures run in t.runs && t.runs[run] == s.runs[run]
    ensures HasArtifact(t, run) == HasArtifact(s, run)
  {
    if HasArtifact(s, run) {
      var id :| id in s.artifacts && s.artifacts[id].run == run;
      assert id in t.artifacts && t.artifacts[id].run == run;
    }
    if HasArtifact(t, run) {
      var id :| id in t.artifacts && t.artifacts[id].run == run;
      assert id in s.artifacts && s.artifacts[id].run == run;
    }
  }

  /**
   An artifact recorded as succeeded had its object stored and its run succeed within the
   row limit, and the object is in storage for as long as the artifact is not expired.
   */
  lemma SucceededExport(l: Limits, actions: seq<Action>, a: Id)
    requires Run(l, actions).Some? && a in Run(l, actions).value.artifacts
    ensures var s := Run(l, actions).value;
      var run := s.artifacts[a].run;
      && run in s.runs && s.artifacts[a].status == s.runs[run].status
      && (s.artifacts[a].stored <==> s.artifacts[a].status == Succeeded)
      && (s.artifacts[a].stored ==> s.runs[run].rows.Some? && s.runs[run].rows.value <= l.maxRows)
      && (s.artifacts[a].stored ==> (a in s.objects || s.artifacts[a].expires <= s.clock))
  {
    RunKeeps(l, actions);
  }

  // ---- downloads: the row is checked first, the object read later ----

  datatype Refusal = NotFound | NotReady | Expired | Gone

  /** The check of the artifact's row. */
  function CheckDownload(s: State, a: Id): Option<Refusal> {
    if a !in s.artifacts then Some(NotFound)
    else if s.artifacts[a].status != Succeeded || !s.artifacts[a].stored then Some(NotReady)
    else if s.artifacts[a].expires <= s.clock then Some(Expired)
    else None
  }

  /** The read from storage by a request whose check saw `s`, when the world has moved on to `t`. */
  function Download(s: State, t: State, a: Id): Result<Id, Refusal> {
    match CheckDownload(s, a)
    case Some(refusal) => Err(refusal)
    case None => if a in t.objects then Ok(a) else Err(Gone)
  }

  /** The clean-up's next storage call deletes the object of `a`. */
  predicate DeletesNow(s: State, action: Action, a: Id) {
    action.DeleteObject? && s.job.Some? && s.job.value.Cleaning? && s.job.value.pending != [] && s.job.value.pending[0] == a
  }

  /** Among the steps `more` after `actions` the clean-up deletes the object of `a`. */
  predicate CleanedSince(l: Limits, actions: seq<Action>, more: seq<Action>, a: Id) {
    |more| > 0 &&
    (CleanedSince(l, actions, Front(more), a)
     || (Run(l, actions + Front(more)).Some? && DeletesNow(Run(l, actions + Front(more)).value, Last(more), a)))
  }

  /** What stays true of an artifact a check let through. */
  predicate SinceCheck(s: State, t: State, a: Id)
    requires a in s.artifacts
  {
    && (a in t.artifacts ==> t.artifacts[a] == s.artifacts[a])
    && (a !in t.artifacts ==> a in t.removed)
    && (a in t.removed ==> s.artifacts[a].expires <= t.clock)
    && a !in t.orphans && s.clock <= t.clock
  }

  lemma StaysChecked(l: Limits, s: State, a: Id, t: State, action: Action, u: State)
    requires CheckDownload(s, a).None? && SinceCheck(s, t, a) && a in t.used
    requires Paired(t) && JobKnown(t) && Step(l, t, action) == Some(u)
    ensures SinceCheck(s, u, a) && a in u.used
    ensures a in u.removed <==> a in t.removed || DeletesNow(t, action, a)
  {
  }

  lemma {:induction false} RunSinceCheck(l: Limits, actions: seq<Action>, more: seq<Action>, a: Id)
    requires Run(l, actions).Some? && Run(l, actions + more).Some? && CheckDownload(Run(l, actions).value, a).None?
    ensures var s, t := Run(l, actions).value, Run(l, actions + more).value;
      && SinceCheck(s, t, a) && a in t.used
      && (a in t.removed <==> CleanedSince(l, actions, more, a))
  {
    RunKeeps(l, actions);
    if |more| == 0 {
      assert actions + more == actions;
    } else {
      assert Front(actions + more) == actions + Front(more);
      RunSinceCheck(l, actions, Front(more), a);
      RunKeeps(l, actions + Front(more));
      StaysChecked(l, Run(l, actions).value, a, Run(l, actions + Front(more)).value, Last(more), Run(l, actions + more).value);
    }
  }

  /**
   When a download finds its object gone: for a request whose check passed, whatever happens
   before its read, exactly if the clean-up deleted the object in between; and then the
   artifact expired in between.
   */
  lemma DownloadGoneExactly(l: Limits, actions: seq<Action>, more: seq<Action>, a: Id)
    requires Run(l, actions).Some? && Run(l, actions + more).Some? && CheckDownload(Run(l, actions).value, a).None?
    ensures var s, t := Run(l, actions).value, Run(l, actions + more).value;
      && (Download(s, t, a) == Err(Gone) <==> CleanedSince(l, actions, more, a))
      && (Download(s, t, a) == Err(Gone) ==> s.clock < s.artifacts[a].expires <= t.clock)
  {
    RunSinceCheck(l, actions, more, a);
    RunKeeps(l, actions + more);
  }

  /** Without anything in between, a download is served exactly if ready and not expired, and never finds its object gone. */
  lemma DownloadNeverGone(l: Limits, actions: seq<Action>, a: Id)
    requires Run(l, actions).Some?
    ensures var s := Run(l, actions).value;
      && Download(s, s, a) != Err(Gone)
      && (Download(s, s, a).Ok? <==> a in s.artifacts && s.artifacts[a].status == Succeeded && s.clock < s.artifacts[a].expires)
  {
    RunKeeps(l, actions);
  }

  lemma RunOn(l: Limits, actions: seq<Action>, a: Action) returns (longer: seq<Action>)
    requires Run(l, actions).Some?
    ensures longer == actions + [a] && Run(l, longer) == Step(l, Run(l, actions).value, a)
  {
    longer := actions + [a];
    assert Front(longer) == actions;
  }

  /** A queued export. */
  lemma QueuedRun(l: Limits) returns (actions: seq<Action>)
    ensures Run(l, actions).Some?
    ensures var s := Run(l, actions).value;
      && s.job.None? && s.clock == 0 && s.reports == {0}
      && 0 in s.runs && s.runs[0] == ReportRun(0, Queued, None, None)
      && 0 in s.artifacts && s.artifacts[0] == Artifact(0, Queued, false, 1)
  {
    actions := [];
    assert Run(l, actions) == Some(INITIAL);
    actions := RunOn(l, actions, SetReports({0}));
    assert Run(l, actions) == Some(INITIAL.(reports := {0}));
    actions := RunOn(l, actions, Queue(0, 0, Some(0), 1));
  }

  /** An export that is under way. */
  lemma StartedRun(l: Limits) returns (actions: seq<Action>)
    ensures Run(l, actions).Some?
    ensures var s := Run(l, actions).value;
      && s.job == Some(Exporting(0, Rendering)) && s.clock == 0 && 0 in s.runs
      && 0 in s.artifacts && s.artifacts[0] == Artifact(0, Running, false, 1)
  {
    actions := QueuedRun(l);
    actions := RunOn(l, actions, StartExport(0));
  }

  /** An artifact that is exported and ready, a moment before it expires. */
  lemma ReadyRun(l: Limits) returns (actions: seq<Action>)
    ensures Run(l, actions).Some? && CheckDownload(Run(l, actions).value, 0).None?
    ensures Run(l, actions).value.job.None? && Run(l, actions).value.clock == 0
    ensures Run(l, actions).value.artifacts[0].expires == 1
  {
    actions := StartedRun(l);
    actions := RunOn(l, actions, Render(0, 0));
    assert Run(l, actions).value.job == Some(Exporting(0, Rendered(0)));
    actions := RunOn(l, actions, Upload);
    assert Run(l, actions).value.job == Some(Exporting(0, Uploaded(0)));
    actions := RunOn(l, actions, CommitExport);
  }

  /** It does happen: the check passes, the artifact expires, the clean-up deletes, the read finds nothing. */
  lemma GoneRun(l: Limits) returns (actions: seq<Action>, more: seq<Action>)
    ensures Run(l, actions).Some? && Run(l, actions + more).Some? && CheckDownload(Run(l, actions).value, 0).None?
    ensures Download(Run(l, actions).value, Run(l, actions + more).value, 0) == Err(Gone)
  {
    actions := ReadyRun(l);
    RunKeeps(l, actions);
    var all := RunOn(l, actions, Tick(1));
    all := RunOn(l, all, StartCleanup([0]));
    all := RunOn(l, all, DeleteObject);
    more := [Tick(1), StartCleanup([0]), DeleteObject];
    assert all == actions + more;
  }

  /** An upload that was not recorded is never cleaned up: its object stays in storage. */
  lemma {:induction false} OrphansStay(l: Limits, actions: seq<Action>, more: seq<Action>, a: Id)
    requires Run(l, actions).Some? && Run(l, actions + more).Some?
    requires a in Run(l, actions).value.orphans
    ensures a in Run(l, actions + more).value.orphans && a in Run(l, actions + more).value.objects
  {
    RunKeeps(l, actions + more);
    if |more| == 0 {
      assert actions + more == actions;
    } else {
      assert Front(actions + more) == actions + Front(more);
      OrphansStay(l, actions, Front(more), a);
      OrphansGrow(l, Run(l, actions + Front(more)).value, Last(more));
    }
  }

  lemma OrphansGrow(l: Limits, s: State, a: Action)
    requires Step(l, s, a).Some?
    ensures s.orphans <= Step(l, s, a).value.orphans
  {
  }

  /** The worker is not on its way to a commit of this run. */
  predicate Abandoned(s: State, run: Id) {
    && run in s.runs && s.runs[run].status == Running
    && (s.job.Some? && s.job.value.Exporting? && s.job.value.artifact in s.artifacts ==>
          s.artifacts[s.job.value.artifact].run != run)
  }

  lemma StaysAbandoned(l: Limits, s: State, a: Action, t: State, run: Id)
    requires Paired(s) && JobKnown(s) && Abandoned(s, run) && Step(l, s, a) == Some(t)
    ensures Abandoned(t, run) && t.runs[run] == s.runs[run]
  {
  }

  /** There is no way back for a run the worker left between its two commits. */
  lemma {:induction false} RunningForGood(l: Limits, actions: seq<Action>, more: seq<Action>, run: Id)
    requires Run(l, actions).Some? && Run(l, actions + more).Some?
    requires Abandoned(Run(l, actions).value, run)
    ensures Abandoned(Run(l, actions + more).value, run)
    ensures Closings(Run(l, actions + more).value.outbox, run) == []
  {
    RunKeeps(l, actions + more);
    assert AnnouncedOf(Run(l, actions + more).value, run);
    if |more| == 0 {
      assert actions + more == actions;
    } else {
      assert Front(actions + more) == actions + Front(more);
      RunningForGood(l, actions, Front(more), run);
      RunKeeps(l, actions + Front(more));
      StaysAbandoned(l, Run(l, actions + Front(more)).value, Last(more), Run(l, actions + more).value, run);
    }
  }

  // ---- the worker ----

  /** How far the worker gets with an export that passes its limits. */
  datatype Fate = Finishes | FailsEarly(timeout: bool) | FailsLate(timeout: bool) | DiesEarly | DiesLate

  /** The error an export of `rows` rows and `bytes` bytes is recorded with, if any. */
  function ExportError(l: Limits, found: bool, rows: nat, bytes: nat, fate: Fate): Option<Code> {
    if !found then Some(ReportNotFound)
    else if fate.DiesEarly? then None
    else if fate.FailsEarly? then Some(if fate.timeout then TimeLimit else ExportFailed)
    else if rows > l.maxRows then Some(RowLimit)
    else if bytes > l.maxBytes then Some(SizeLimit)
    else if fate.FailsLate? then Some(if fate.timeout then TimeLimit else ExportFailed)
    else None
  }

  /** A run's row after the report path took it. */
  function AfterCounting(l: Limits, reports: set<Id>, r: ReportRun, counting: Counting): ReportRun {
    if r.report !in reports then Fail(r, ReportNotFound)
    else match counting
         case Raised => r
         case TimedOut => Fail(r, TimeLimit)
         case Counted(rows) => if rows > l.maxRows then Fail(r, RowLimit) else r.(status := Succeeded, rows := Some(rows))
  }

  /** Counting raises: the run's report is there, and an error other than a timeout leaves the function. */
  predicate Raises(reports: set<Id>, r: ReportRun, counting: Counting) {
    r.report in reports && counting.Raised?
  }

  type Runs = map<Id, ReportRun>

  /** The runs after the report path took these one after the other. */
  function RunsAfter(l: Limits, reports: set<Id>, runs: Runs, ids: seq<Id>, countings: seq<Counting>): Runs
    requires |countings| == |ids|
  {
    if |ids| == 0 then runs
    else
      var before, id := RunsAfter(l, reports, runs, Front(ids), Front(countings)), Last(ids);
      if id in runs then before[id := AfterCounting(l, reports, runs[id], Last(countings))] else before
  }

  /** The closing events of these runs, in their order. */
  function Closed(l: Limits, reports: set<Id>, runs: Runs, ids: seq<Id>, countings: seq<Counting>): seq<Event>
    requires |countings| == |ids|
  {
    if |ids| == 0 then []
    else
      Closed(l, reports, runs, Front(ids), Front(countings)) +
      if Last(ids) in runs then Announcement(Last(ids), AfterCounting(l, reports, runs[Last(ids)], Last(countings))) else []
  }

  /** Each run taken holds its own outcome, and every other run is as it was. */
  lemma {:induction false} RunsAfterExactly(l: Limits, reports: set<Id>, runs: Runs, ids: seq<Id>, countings: seq<Counting>)
    requires |countings| == |ids| && Distinct(ids)
    ensures RunsAfter(l, reports, runs, ids, countings).Keys == runs.Keys
    ensures forall i :: 0 <= i < |ids| && ids[i] in runs ==>
      RunsAfter(l, reports, runs, ids, countings)[ids[i]] == AfterCounting(l, reports, runs[ids[i]], countings[i])
    ensures forall r :: r in runs && r !in ids ==> RunsAfter(l, reports, runs, ids, countings)[r] == runs[r]
  {
    if |ids| > 0 {
      RunsAfterExactly(l, reports, runs, Front(ids), Front(countings));
      assert Last(ids) !in Front(ids);
    }
  }

  lemma RunsAfterOthers(l: Limits, reports: set<Id>, runs: Runs, ids: seq<Id>, countings: seq<Counting>, i: nat)
    requires |countings| == |ids| && i < |ids| && Distinct(ids) && ids[i] in runs
    ensures ids[i] in RunsAfter(l, reports, runs, ids[..i], countings[..i])
    ensures RunsAfter(l, reports, runs, ids[..i], countings[..i])[ids[i]] == runs[ids[i]]
  {
    RunsAfterExactly(l, reports, runs, ids[..i], countings[..i]);
    assert ids[i] !in ids[..i];
  }

  lemma BatchExtends(l: Limits, reports: set<Id>, runs: Runs, ids: seq<Id>, countings: seq<Counting>, i: nat)
    requires |countings| == |ids| && i < |ids| && ids[i] in runs
    ensures var outcome := AfterCounting(l, reports, runs[ids[i]], countings[i]);
      && RunsAfter(l, reports, runs, ids[..i + 1], countings[..i + 1]) == RunsAfter(l, reports, runs, ids[..i], countings[..i])[ids[i] := outcome]
      && Closed(l, reports, runs, ids[..i + 1], countings[..i + 1]) ==
           Closed(l, reports, runs, ids[..i], countings[..i]) + Announcement(ids[i], outcome)
  {
    assert Front(ids[..i + 1]) == ids[..i] && Front(countings[..i + 1]) == countings[..i];
  }

  /** What an export leaves behind: both rows, the events, and whether an object was stored. */
  predicate ExportRecorded(s: State, id: Id, rows: nat, error: Option<Code>, fate: Fate, stored: bool, t: State)
    requires id in s.artifacts && s.artifacts[id].run in s.runs
  {
    var run := s.artifacts[id].run;
    && t.artifacts.Keys == s.artifacts.Keys && t.runs.Keys == s.runs.Keys
    && (forall b :: b in s.artifacts && b != id ==> t.artifacts[b] == s.artifacts[b])
    && (forall r :: r in s.runs && r != run ==> t.runs[r] == s.runs[r])
    && (error.Some? ==>
          && t.artifacts[id].status == Failed && t.runs[run].status == Failed && t.runs[run].error == error
          && t.outbox == s.outbox + [RunFailed(run, error.value)])
    && (error.None? && fate.Finishes? ==>
          && t.artifacts[id].status == Succeeded && t.artifacts[id].stored && id in t.objects
          && t.runs[run].status == Succeeded && t.runs[run].rows == Some(rows)
          && t.outbox == s.outbox + [Completed(run, rows), ExportReady(id)])
    && (error.None? && !fate.Finishes? ==>
          && t.artifacts[id].status == Running && t.runs[run].status == Running
          && t.outbox == s.outbox)
    && t.objects == s.objects + (if stored then {id} else {})
  }

  /** How an export of `rows` rows and `bytes` bytes ends, in the order in which things can stop it. */
  predicate Ends(l: Limits, found: bool, rows: nat, bytes: nat, fate: Fate, status: Status, error: Option<Code>) {
    var fits, early := rows <= l.maxRows && bytes <= l.maxBytes, fate.DiesEarly? || fate.FailsEarly?;
    && (status == Succeeded <==> found && fits && fate.Finishes?)
    && (status == Running <==> found && (fate.DiesEarly? || (fits && fate.DiesLate?)))
    && (status == Failed <==> status != Succeeded && status != Running)
    && (status == Failed <==> error.Some?)
    && (error == Some(ReportNotFound) <==> !found)
    && (error == Some(RowLimit) <==> found && !early && rows > l.maxRows)
    && (error == Some(SizeLimit) <==> found && !early && rows <= l.maxRows && bytes > l.maxBytes)
    && (error == Some(TimeLimit) <==> found && (fate == FailsEarly(true) || (fits && fate == FailsLate(true))))
    && (error == Some(ExportFailed) <==> found && (fate == FailsEarly(false) || (fits && fate == FailsLate(false))))
  }

  lemma ExportEnds(l: Limits, found: bool, rows: nat, bytes: nat, fate: Fate, status: Status)
    requires var error := ExportError(l, found, rows, bytes, fate);
      status == if error.Some? then Failed else if fate.Finishes? then Succeeded else Running
    ensures Ends(l, found, rows, bytes, fate, status, ExportError(l, found, rows, bytes, fate))
  {
  }

  /** How counting a queued run ends. */
  lemma CountingEnds(l: Limits, reports: set<Id>, r: ReportRun, counting: Counting)
    requires r.status == Queued && r.rows.None? && r.error.None?
    ensures var t := AfterCounting(l, reports, r, counting);
      && t.report == r.report
      && (t.status == Succeeded <==> r.report in reports && counting.Counted? && counting.rows <= l.maxRows)
      && (t.status == Succeeded <==> t.rows.Some?) && (t.rows.Some? ==> counting == Counted(t.rows.value))
      && (t.status == Failed <==> t.error.Some?)
      && (t.error == Some(ReportNotFound) <==> r.report !in reports)
      && (t.error == Some(TimeLimit) <==> r.report in reports && counting.TimedOut?)
      && (t.error == Some(RowLimit) <==> r.report in reports && counting.Counted? && counting.rows > l.maxRows)
      && (t == r <==> t.status == Queued) && (t == r <==> r.report in reports && counting.Raised?)
      && (Raises(reports, r, counting) <==> t == r)
  {
  }

  /** Why a download is refused: no such artifact, not exported yet or failed, or expired. */
  lemma RefusedExactly(l: Limits, actions: seq<Action>, a: Id)
    requires Run(l, actions).Some?
    ensures var s := Run(l, actions).value;
      && (CheckDownload(s, a) == Some(NotFound) <==> a !in s.artifacts)
      && (CheckDownload(s, a) == Some(NotReady) <==> a in s.artifacts && s.artifacts[a].status != Succeeded)
      && (CheckDownload(s, a) == Some(Expired) <==>
            a in s.artifacts && s.artifacts[a].status == Succeeded && s.artifacts[a].expires <= s.clock)
  {
    RunKeeps(l, actions);
  }

  /** An artifact's row is only ever removed once it has expired. */
  lemma {:induction false} RowStays(l: Limits, actions: seq<Action>, more: seq<Action>, a: Id)
    requires Run(l, actions).Some? && Run(l, actions + more).Some? && a in Run(l, actions).value.artifacts
    ensures var s, t := Run(l, actions).value, Run(l, actions + more).value;
      && s.clock <= t.clock
      && (a in t.artifacts ==> t.artifacts[a].run == s.artifacts[a].run && t.artifacts[a].expires == s.artifacts[a].expires)
      && (a !in t.artifacts ==> a in t.used && s.artifacts[a].expires <= t.clock)
  {
    if |more| == 0 {
      assert actions + more == actions;
    } else {
      assert Front(actions + more) == actions + Front(more);
      RowStays(l, actions, Front(more), a);
      RunKeeps(l, actions + Front(more));
      RowByStep(l, Run(l, actions + Front(more)).value, Last(more), Run(l, actions + more).value, a);
    }
  }

  lemma RowByStep(l: Limits, s: State, a: Action, t: State, id: Id)
    requires Paired(s) && JobKnown(s) && Step(l, s, a) == Some(t) && id in s.used
    ensures s.clock <= t.clock && id in t.used
    ensures id !in s.artifacts ==> id !in t.artifacts
    ensures id in s.artifacts && id in t.artifacts ==>
      t.artifacts[id].run == s.artifacts[id].run && t.artifacts[id].expires == s.artifacts[id].expires
    ensures id in s.artifacts && id !in t.artifacts ==> s.artifacts[id].expires <= t.clock
  {
  }

  /** Whether an export gets as far as storing its object: nothing stops it before the upload. */
  predicate Stores(l: Limits, found: bool, rows: nat, bytes: nat, fate: Fate) {
    found && !fate.DiesEarly? && !fate.FailsEarly? && rows <= l.maxRows && bytes <= l.maxBytes
  }

  lemma RunLimits(l: Limits, actions: seq<Action>)
    requires Run(l, actions).Some?
    ensures RowsLimited(l, Run(l, actions).value)
  {
    RunKeeps(l, actions);
  }

  /** The first `k` of the selected runs are taken. */
  predicate TakenTo(l: Limits, first: State, ids: seq<Id>, countings: seq<Counting>, k: nat, s: State)
    requires |countings| == |ids| && k <= |ids|
  {
    && s == first.(runs := s.runs, outbox := s.outbox)
    && s.runs == RunsAfter(l, first.reports, first.runs, ids[..k], countings[..k])
    && s.outbox == first.outbox + Closed(l, first.reports, first.runs, ids[..k], countings[..k])
  }

  lemma NextTaken(l: Limits, first: State, ids: seq<Id>, countings: seq<Counting>, k: nat, s: State, t: State)
    requires |countings| == |ids| && k < |ids| && Distinct(ids) && ids[k] in first.runs && TakenTo(l, first, ids, countings, k, s)
    requires var outcome := AfterCounting(l, first.reports, first.runs[ids[k]], countings[k]);
      t == s.(runs := s.runs[ids[k] := outcome], outbox := s.outbox + Announcement(ids[k], outcome))
    ensures TakenTo(l, first, ids, countings, k + 1, t)
  {
    BatchExtends(l, first.reports, first.runs, ids, countings, k);
  }

  /** What the rows show after an export. */
  lemma RecordedEnds(l: Limits, s: State, id: Id, rows: nat, bytes: nat, fate: Fate, t: State)
    requires id in s.artifacts && s.artifacts[id].run in s.runs && RowsLimited(l, t)
    requires var found := s.runs[s.artifacts[id].run].report in s.reports;
      ExportRecorded(s, id, rows, ExportError(l, found, rows, bytes, fate), fate, Stores(l, found, rows, bytes, fate), t)
    ensures var run := s.artifacts[id].run;
      id in t.artifacts && run in t.runs && Ends(l, s.runs[run].report in s.reports, rows, bytes, fate, t.artifacts[id].status, t.runs[run].error)
  {
    var run := s.artifacts[id].run;
    assert id in t.artifacts.Keys && run in t.runs.Keys;
    ExportEnds(l, s.runs[run].report in s.reports, rows, bytes, fate, t.artifacts[id].status);
  }

  class Worker {
    const limits: Limits
    var s: State
    ghost var history: seq<Action>

    ghost predicate Valid()
      reads this
    {
      Run(limits, history) == Some(s)
    }

    constructor (limits: Limits)
      ensures Valid() && s == INITIAL && this.limits == limits
    {
      this.limits, s, history := limits, INITIAL, [];
    }

    method Call(a: Action)
      requires Valid() && Step(limits, s, a).Some?
      modifies this
      ensures Valid() && s == Step(limits, old(s), a).value && history == old(history) + [a]
    {
      s := Step(limits, s, a).value;
      history := history + [a];
      assert Front(history) == old(history);
    }

    /** Queues a run, and its artifact if an export is wanted, in one commit. */
    method QueueReportRun(run: Id, report: Id, wanted: Option<Id>, expires: Time) returns (found: bool)
      requires Valid() && run !in s.runs && (wanted.Some? ==> wanted.value !in s.used)
      modifies this
      ensures Valid() && (found <==> report in old(s).reports)
      ensures !found ==> s == old(s)
      ensures found ==> s.runs == old(s).runs[run := ReportRun(report, Queued, None, None)]
      ensures found && wanted.None? ==> s.artifacts == old(s).artifacts
      ensures found && wanted.Some? ==> s.artifacts == old(s).artifacts[wanted.value := Artifact(run, Queued, false, expires)]
      ensures s.outbox == old(s).outbox && s.objects == old(s).objects && s.job == old(s).job
    {
      found := report in s.reports;
      if found {
        Call(Queue(run, report, wanted, expires));
      }
    }

    /** The upload and what follows it. */
    method StoreExport(id: Id, rows: nat, fate: Fate)
      requires Valid() && s.job == Some(Exporting(id, Rendered(rows))) && id in s.artifacts && s.artifacts[id].run in s.runs
      requires s.artifacts[id].status == Running && s.runs[s.artifacts[id].run].status == Running
      requires !fate.DiesEarly? && !fate.FailsEarly?
      modifies this
      ensures Valid() && s.job.None?
      ensures var error := if fate.FailsLate? then Some(if fate.timeout then TimeLimit else ExportFailed) else None;
        ExportRecorded(old(s), id, rows, error, fate, true, s)
    {
      Call(Upload);
      if fate.DiesLate? {
        Call(Crash);
      } else if fate.FailsLate? {
        Call(Interrupt(fate.timeout));
      } else {
        Call(CommitExport);
      }
    }

    /** The second half of an export, after the commit that marks it running. */
    method FinishExport(id: Id, rows: nat, bytes: nat, fate: Fate)
      requires Valid() && s.job == Some(Exporting(id, Rendering)) && id in s.artifacts && s.artifacts[id].run in s.runs
      requires s.artifacts[id].status == Running && s.runs[s.artifacts[id].run].status == Running
      modifies this
      ensures Valid() && s.job.None?
      ensures ExportRecorded(old(s), id, rows, ExportError(limits, true, rows, bytes, fate), fate, Stores(limits, true, rows, bytes, fate), s)
    {
      if fate.DiesEarly? {
        Call(Crash);
      } else if fate.FailsEarly? {
        Call(Interrupt(fate.timeout));
      } else {
        Call(Render(rows, bytes));
        if s.job.Some? {
          StoreExport(id, rows, fate);
        }
      }
    }

    /** One export, whose report may be missing. */
    method RunExport(id: Id, rows: nat, bytes: nat, fate: Fate)
      requires Valid() && s.job.None? && id in s.artifacts && s.artifacts[id].status == Queued
      modifies this
      ensures Valid() && s.job.None?
      ensures old(s).artifacts[id].run in old(s).runs
      ensures var found := old(s).runs[old(s).artifacts[id].run].report in old(s).reports;
        ExportRecorded(old(s), id, rows, ExportError(limits, found, rows, bytes, fate), fate, Stores(limits, found, rows, bytes, fate), s)
    {
      RunKeeps(limits, history);
      Call(StartExport(id));
      if s.job.Some? {
        FinishExport(id, rows, bytes, fate);
      }
    }

    /** Renders, uploads and records one export; `fate` says where an error or crash strikes. */
    method ProcessExport(id: Id, rows: nat, bytes: nat, fate: Fate)
      requires Valid() && s.job.None? && id in s.artifacts && s.artifacts[id].status == Queued
      modifies this
      ensures Valid() && s.job.None?
      ensures old(s).artifacts[id].run in old(s).runs
      ensures var found := old(s).runs[old(s).artifacts[id].run].report in old(s).reports;
        ExportRecorded(old(s), id, rows, ExportError(limits, found, rows, bytes, fate), fate, Stores(limits, found, rows, bytes, fate), s)
      ensures id in s.artifacts && old(s).artifacts[id].run in s.runs
      ensures var run := old(s).artifacts[id].run;
        Ends(limits, old(s).runs[run].report in old(s).reports, rows, bytes, fate, s.artifacts[id].status, s.runs[run].error)
    {
      ghost var before := s;
      RunExport(id, rows, bytes, fate);
      RunLimits(limits, history);
      RecordedEnds(limits, before, id, rows, bytes, fate, s);
    }

    /** Counts the rows of one queued run without an export and records the outcome. */
    method ProcessReportRun(run: Id, counting: Counting)
      requires Valid() && s.job.None? && run in s.runs && s.runs[run].status == Queued && !HasArtifact(s, run)
      modifies this
      ensures Valid() && s.runs == old(s).runs[run := AfterCounting(limits, old(s).reports, old(s).runs[run], counting)]
      ensures s == old(s).(runs := s.runs, outbox := s.outbox)
      ensures s.outbox == old(s).outbox + Announcement(run, s.runs[run])
    {
      Call(CountRun(run, counting));
    }

    /** Takes the next of the selected runs; one whose counting raises stays as it is. */
    method TakeRun(ids: seq<Id>, countings: seq<Counting>, k: nat, ghost first: State) returns (raised: bool)
      requires Valid() && |countings| == |ids| && k < |ids| && Distinct(ids) && TakenTo(limits, first, ids, countings, k, s)
      requires first.job.None? && ids[k] in first.runs && first.runs[ids[k]].status == Queued && !HasArtifact(first, ids[k])
      modifies this
      ensures Valid() && raised == Raises(first.reports, first.runs[ids[k]], countings[k])
      ensures TakenTo(limits, first, ids, countings, if raised then k else k + 1, s)
    {
      ghost var before := s;
      RunsAfterOthers(limits, first.reports, first.runs, ids, countings, k);
      assert HasArtifact(s, ids[k]) == HasArtifact(first, ids[k]);
      raised := Raises(s.reports, s.runs[ids[k]], countings[k]);
      ProcessReportRun(ids[k], countings[k]);
      if raised {
        assert before.runs[ids[k] := before.runs[ids[k]]] == before.runs;
      } else {
        NextTaken(limits, first, ids, countings, k, before, s);
      }
    }

    /**
     Takes the selected runs one after the other. An error other than a timeout leaves its run
     queued and ends the loop, and the worker's iteration with it: later runs stay queued.
     */
    method ProcessReportRuns(ids: seq<Id>, countings: seq<Counting>) returns (taken: nat)
      requires Valid() && s.job.None? && Distinct(ids) && |countings| == |ids|
      requires forall i :: 0 <= i < |ids| ==> ids[i] in s.runs && s.runs[ids[i]].status == Queued && !HasArtifact(s, ids[i])
      modifies this
      ensures Valid() && s == old(s).(runs := s.runs, outbox := s.outbox)
      ensures taken <= |ids| && (taken < |ids| ==> Raises(old(s).reports, old(s).runs[ids[taken]], countings[taken]))
      ensures forall i :: 0 <= i < taken ==> !Raises(old(s).reports, old(s).runs[ids[i]], countings[i])
      ensures s.runs == RunsAfter(limits, old(s).reports, old(s).runs, ids[..taken], countings[..taken])
      ensures s.outbox == old(s).outbox + Closed(limits, old(s).reports, old(s).runs, ids[..taken], countings[..taken])
    {
      ghost var first := s;
      taken := 0;
      while taken < |ids|
        invariant taken <= |ids| && Valid()
        invariant forall i :: 0 <= i < taken ==> !Raises(first.reports, first.runs[ids[i]], countings[i])
        invariant TakenTo(limits, first, ids, countings, taken, s)
      {
        var raised := TakeRun(ids, countings, taken, first);
        if raised {
          return;
        }
        taken := taken + 1;
      }
    }

    /** Deletes the objects of expired artifacts, then their rows in one commit. */
    method CleanupExpired(ids: seq<Id>, survives: nat) returns (recorded: bool)
      requires Valid() && s.job.None? && Distinct(ids)
      requires forall i :: 0 <= i < |ids| ==> ids[i] in s.artifacts && s.artifacts[ids[i]].expires <= s.clock
      modifies this
      ensures Valid() && s.job.None? && s.runs == old(s).runs && s.outbox == old(s).outbox
      ensures recorded <==> survives > |ids|
      ensures s.artifacts == if recorded then old(s).artifacts - Elements(ids) else old(s).artifacts
      ensures forall a :: a in s.objects <==>
        a in old(s).objects && !(a in ids[..Min(survives, |ids|)] && old(s).artifacts[a].stored)
    {
      ghost var first := s;
      Call(StartCleanup(ids));
      var i := 0;
      assert ids[0..] == ids && Elements(ids[..0]) == {};
      while i < |ids| && i < survives
        invariant i <= |ids| && i <= survives && Valid()
        invariant s.runs == first.runs && s.outbox == first.outbox && s.artifacts == first.artifacts
        invariant s.job == Some(Cleaning(ids[i..], Elements(ids[..i])))
        invariant forall a :: a in s.objects <==> a in first.objects && !(a in ids[..i] && first.artifacts[a].stored)
      {
        assert ids[..i + 1] == ids[..i] + [ids[i]];
        assert Elements(ids[..i + 1]) == Elements(ids[..i]) + {ids[i]};
        assert ids[i..][0] == ids[i] && ids[i..][1..] == ids[i + 1..];
        Call(DeleteObject);
        i := i + 1;
      }
      recorded := survives > |ids|;
      if recorded {
        assert ids[..i] == ids;
        Call(CommitCleanup);
      } else {
        Call(Crash);
      }
    }
  }
}
