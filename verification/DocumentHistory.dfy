/**
 What a document's history decides: the row's deletion, archiving, retention and lock, and
 the state of every version, in terms of the steps that were taken; and which edits and
 uploads the row lets through, in terms of the row alone.
 */
module DocumentHistory {
  import opened Common
  import opened DocumentService

  // ---- retention ----

  /**
   On a row nobody holds, deletion goes through exactly if the retention date is past or there
   is none; archiving and restoring always do, and no other action is known.
   */
  lemma LifecycleExactly(s: State, action: LifecycleAction, today: int)
    requires s.document.Some? && s.upload.None?
    ensures Step(s, Lifecycle(Delete, today)).Some? <==>
      s.document.value.retentionUntil.None? || s.document.value.retentionUntil.value <= today
    ensures Step(s, Lifecycle(Archive, today)).Some? && Step(s, Lifecycle(Restore, today)).Some?
    ensures Step(s, Lifecycle(OtherAction, today)).None?
    ensures LifecycleError(s, action, today) ==
      if action == OtherAction then Some(UnknownAction)
      else if Step(s, Lifecycle(action, today)).None? then Some(Conflict)
      else None
  {
  }

  /** A document under retention on the day of a step is not deleted by it, whatever the step is. */
  lemma ProtectedStaysUndeleted(s: State, a: Action, t: State)
    requires s.document.Some? && !s.document.value.deleted && Step(s, a) == Some(t)
    ensures t.document.Some?
    ensures t.document.value.deleted ==>
      && a.Lifecycle? && a.action == Delete
      && forall until :: s.document.value.retentionUntil == Some(until) ==> until <= a.today
  {
    assert s.document.value.retentionUntil.Some? ==> s.document.value.retentionUntil == Some(s.document.value.retentionUntil.value);
  }

  // ---- what the row says, from the steps taken ----

  /** Step i is the last one that speaks. */
  ghost predicate LastOf(actions: seq<Action>, speaks: Action -> bool, i: nat) {
    i < |actions| && speaks(actions[i]) && forall j :: i < j < |actions| ==> !speaks(actions[j])
  }

  lemma LastOfFront(actions: seq<Action>, speaks: Action -> bool, i: nat)
    requires LastOf(actions, speaks, i) && i < |actions| - 1
    ensures LastOf(Front(actions), speaks, i) && !speaks(Last(actions))
  {
    assert Front(actions)[i] == actions[i];
    assert forall j :: i < j < |Front(actions)| ==> Front(actions)[j] == actions[j];
  }

  predicate MovesDeletion(a: Action) {
    a.Create? || (a.Lifecycle? && (a.action == Delete || a.action == Restore))
  }

  predicate MovesArchive(a: Action) {
    a.Create? || (a.Lifecycle? && a.action == Archive)
  }

  predicate MovesRetention(a: Action) {
    a.Create? || (a.EditMetadata? && a.retention.Some?)
  }

  lemma OneStep(s: State, a: Action, t: State)
    requires Step(s, a) == Some(t)
    ensures a.Create? ==>
      t.document.Some? && !t.document.value.deleted && !t.document.value.archived && t.document.value.retentionUntil == a.retentionUntil
    ensures !a.Create? ==> (t.document.Some? <==> s.document.Some?)
    ensures !a.Create? && t.document.Some? ==>
      && t.document.value.deleted == (if MovesDeletion(a) then a.action == Delete else s.document.value.deleted)
      && t.document.value.archived == (MovesArchive(a) || s.document.value.archived)
      && t.document.value.retentionUntil == if MovesRetention(a) then a.retention.value else s.document.value.retentionUntil
  {
  }

  /** A document is deleted exactly if the last of its creation, deletions and restorations is a deletion. */
  lemma {:induction false} DeletedExactly(actions: seq<Action>, i: nat)
    requires Run(actions).Some? && Run(actions).value.document.Some? && LastOf(actions, MovesDeletion, i)
    ensures Run(actions).value.document.value.deleted <==> actions[i].Lifecycle? && actions[i].action == Delete
  {
    OneStep(Run(Front(actions)).value, Last(actions), Run(actions).value);
    if i < |actions| - 1 {
      LastOfFront(actions, MovesDeletion, i);
      DeletedExactly(Front(actions), i);
    }
  }

  /** It is archived exactly if it was ever archived: restoring does not undo that. */
  lemma {:induction false} ArchivedExactly(actions: seq<Action>)
    requires Run(actions).Some? && Run(actions).value.document.Some?
    ensures Run(actions).value.document.value.archived <==>
      exists i :: 0 <= i < |actions| && actions[i].Lifecycle? && actions[i].action == Archive
  {
    var s, a, t := Run(Front(actions)).value, Last(actions), Run(actions).value;
    OneStep(s, a, t);
    if a.Create? {
      NothingBefore(Front(actions));
    } else {
      ArchivedExactly(Front(actions));
    }
    assert forall i :: 0 <= i < |actions| - 1 ==> Front(actions)[i] == actions[i];
    if a.Lifecycle? && a.action == Archive {
      assert actions[|actions| - 1] == a;
    }
  }

  /** Without a document nothing was done to its row. */
  lemma {:induction false} NothingBefore(actions: seq<Action>)
    requires Run(actions).Some? && Run(actions).value.document.None?
    ensures forall i :: 0 <= i < |actions| ==> !actions[i].Lifecycle? && !actions[i].EditMetadata? && !actions[i].ChangeLink? && !actions[i].Create?
  {
    if |actions| > 0 {
      OneStep(Run(Front(actions)).value, Last(actions), Run(actions).value);
      NothingBefore(Front(actions));
      assert forall i :: 0 <= i < |actions| - 1 ==> Front(actions)[i] == actions[i];
    }
  }

  /** The retention date is the one last set, or cleared, since the creation set it. */
  lemma {:induction false} RetentionExactly(actions: seq<Action>, i: nat)
    requires Run(actions).Some? && Run(actions).value.document.Some? && LastOf(actions, MovesRetention, i)
    ensures Run(actions).value.document.value.retentionUntil ==
      if actions[i].Create? then actions[i].retentionUntil else actions[i].retention.value
  {
    OneStep(Run(Front(actions)).value, Last(actions), Run(actions).value);
    if i < |actions| - 1 {
      LastOfFront(actions, MovesRetention, i);
      RetentionExactly(Front(actions), i);
    }
  }

  predicate MovesLock(a: Action) {
    a.Create? || a.CommitUpload? || a.EditMetadata? || a.ChangeLink? || a.Lifecycle?
  }

  predicate AddsVersion(a: Action) {
    a.Create? || a.CommitUpload?
  }

  function CountOf(actions: seq<Action>, counts: Action -> bool): nat {
    if |actions| == 0 then 0 else CountOf(Front(actions), counts) + if counts(Last(actions)) then 1 else 0
  }

  /** The lock version counts the creation and every committed upload, edit, link and lifecycle change since. */
  lemma {:induction false} LockCounts(actions: seq<Action>)
    requires Run(actions).Some?
    ensures var s := Run(actions).value;
      && CountOf(actions, MovesLock) == (if s.document.Some? then s.document.value.lock else 0)
      && CountOf(actions, AddsVersion) == |s.versions|
  {
    AlwaysConsistent(actions);
    if |actions| > 0 {
      LockCounts(Front(actions));
      AlwaysConsistent(Front(actions));
      OneLock(Run(Front(actions)).value, Last(actions), Run(actions).value);
    }
  }

  lemma OneLock(s: State, a: Action, t: State)
    requires Consistent(s) && Step(s, a) == Some(t)
    ensures |t.versions| == |s.versions| + if AddsVersion(a) then 1 else 0
    ensures s.document.Some? || MovesLock(a) ==>
      t.document.Some? && t.document.value.lock == (if s.document.Some? then s.document.value.lock else 0) + if MovesLock(a) then 1 else 0
    ensures s.document.None? && !MovesLock(a) ==> t.document.None?
  {
  }

  // ---- uploads ----

  /**
   An upload may begin exactly if no other one is open, the document is there and not deleted,
   the caller names its lock version, and no version has the same content.
   */
  lemma UploadBeginsExactly(s: State, actor: Id, expected: nat, checksum: Id)
    ensures Step(s, BeginUpload(actor, expected, checksum)).Some? <==>
      && s.upload.None? && s.document.Some? && !s.document.value.deleted && s.document.value.lock == expected
      && forall v :: v in s.versions ==> v.checksum != checksum
    ensures UploadError(s, expected, checksum) == Some(NotFound) <==> s.document.None? || s.document.value.deleted
    ensures UploadError(s, expected, checksum) == Some(Conflict) <==>
      && s.document.Some? && !s.document.value.deleted
      && (s.document.value.lock != expected || exists v :: v in s.versions && v.checksum == checksum)
    ensures UploadError(s, expected, checksum) in {None, Some(NotFound), Some(Conflict)}
  {
    if HasChecksum(s, checksum) {
      var i :| 0 <= i < |s.versions| && s.versions[i].checksum == checksum;
      assert s.versions[i] in s.versions;
    }
    if v :| v in s.versions && v.checksum == checksum {
      var i :| 0 <= i < |s.versions| && s.versions[i] == v;
      assert HasChecksum(s, checksum);
    }
  }

  // ---- the state of every version, from the steps taken ----

  /**
   What a step says of version n, when there are `made` versions before it: trusted or not
   when it is made, claimed, released, or judged.
   */
  function Says(a: Action, made: nat, n: nat): Option<Condition> {
    match a
    case Create(_, _, trusted, _) => if n != 1 then None else if trusted then Some(Available) else Some(Quarantined)
    case CommitUpload(trusted) => if made + 1 != n then None else if trusted then Some(Available) else Some(Quarantined)
    case Claim(_, numbers) => if n in numbers then Some(Scanning) else None
    case Release(_, number) => if number == n then Some(Quarantined) else None
    case Complete(_, number, clean) =>
      if number != n then None else if clean then Some(Available) else Some(Rejected)
    case _ => None
  }

  /** What step i says of version n. */
  function SaidOf(actions: seq<Action>, i: nat, n: nat): Option<Condition>
    requires i < |actions|
  {
    Says(actions[i], CountOf(actions[..i], AddsVersion), n)
  }

  predicate LastSaid(actions: seq<Action>, n: nat, i: nat) {
    i < |actions| && SaidOf(actions, i, n).Some? && forall j :: i < j < |actions| ==> SaidOf(actions, j, n).None?
  }

  lemma LastSaidFront(actions: seq<Action>, n: nat, i: nat)
    requires LastSaid(actions, n, i) && i < |actions| - 1
    ensures LastSaid(Front(actions), n, i) && SaidOf(Front(actions), i, n) == SaidOf(actions, i, n)
    ensures SaidOf(actions, |actions| - 1, n).None?
  {
    forall j | 0 <= j < |actions| - 1
      ensures SaidOf(Front(actions), j, n) == SaidOf(actions, j, n)
    {
      assert Front(actions)[..j] == actions[..j];
    }
  }

  /** One step leaves a version as it is unless it says something of it. */
  lemma OneCondition(actions: seq<Action>, n: nat)
    requires |actions| > 0 && Run(actions).Some? && n >= 1
    ensures var s, t := Run(Front(actions)).value, Run(actions).value;
      && (SaidOf(actions, |actions| - 1, n).Some? ==>
            n <= |t.versions| && t.versions[n - 1].condition == SaidOf(actions, |actions| - 1, n).value)
      && (SaidOf(actions, |actions| - 1, n).None? && n <= |s.versions| ==>
            n <= |t.versions| && t.versions[n - 1].condition == s.versions[n - 1].condition)
  {
    assert actions[..|actions| - 1] == Front(actions);
    AlwaysConsistent(Front(actions));
    LockCounts(Front(actions));
    ConditionByStep(Run(Front(actions)).value, Last(actions), Run(actions).value, n);
  }

  lemma ConditionByStep(s: State, a: Action, t: State, n: nat)
    requires Consistent(s) && Step(s, a) == Some(t) && n >= 1
    ensures Says(a, |s.versions|, n).Some? ==> n <= |t.versions| && t.versions[n - 1].condition == Says(a, |s.versions|, n).value
    ensures Says(a, |s.versions|, n).None? && n <= |s.versions| ==>
      n <= |t.versions| && t.versions[n - 1].condition == s.versions[n - 1].condition
  {
    if a.Claim? {
      ClaimStartsScan(s, a.worker, a.numbers);
      if n <= |s.versions| {
        assert t.versions[n - 1].condition == if n in a.numbers then Scanning else s.versions[n - 1].condition;
      }
    } else if a.Release? {
      JudgedFrame(s, a.number, Quarantined);
    } else if a.Complete? {
      JudgedFrame(s, a.number, if a.clean then Available else Rejected);
    }
  }

  /**
   Every version stands as the last step that says something of it said: available exactly if
   it was trusted when made or found clean, rejected exactly if found infected, being scanned
   exactly if claimed since, and in quarantine otherwise.
   */
  lemma {:induction false} ConditionLaw(actions: seq<Action>, n: nat, i: nat)
    requires Run(actions).Some? && n >= 1 && LastSaid(actions, n, i)
    ensures n <= |Run(actions).value.versions|
    ensures Run(actions).value.versions[n - 1].condition == SaidOf(actions, i, n).value
  {
    OneCondition(actions, n);
    if i < |actions| - 1 {
      LastSaidFront(actions, n, i);
      ConditionLaw(Front(actions), n, i);
    }
  }
}
