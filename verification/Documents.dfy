/**
 One document of GovDocuments: its row, its versions, the object storage beside the
 database, uploads under the row lock and the malware scan. Uploads, new versions, scan
 claims, releases and completions of several workers interleave; processes may die.
 */
module DocumentService {
  import opened Common

  datatype Condition = Quarantined | Scanning | Available | Rejected

  datatype Version = Version(number: nat, checksum: Id, storageKey: Id, condition: Condition)

  datatype Document = Document(
    condition: Condition, current: nat, lock: nat, retentionUntil: Option<int>, archived: bool, deleted: bool)

  /** An open add-version transaction: it holds the row lock and maybe a stored object. */
  datatype Upload = Upload(actor: Id, checksum: Id, stored: Option<Id>)

  datatype State = State(
    document: Option<Document>,
    versions: seq<Version>,
    objects: set<Id>,            // keys present in object storage
    discarded: set<Id>,          // objects of rolled-back uploads, about to be deleted
    upload: Option<Upload>,
    claims: map<Id, set<nat>>,   // per scan worker: the version numbers it is scanning
    cleared: set<nat>)           // history: versions trusted at upload or found clean

  const INITIAL: State := State(None, [], {}, {}, None, map[], {})

  datatype Error = NotFound | Conflict | Unavailable | StorageFailed | UnknownAction

  datatype LifecycleAction = Archive | Delete | Restore | OtherAction

  datatype Action =
    | Create(key: Id, checksum: Id, trusted: bool, retentionUntil: Option<int>)
    | PutObject(key: Id)                            // an upload that dies before its commit leaves only this
    | BeginUpload(actor: Id, expected: nat, checksum: Id)
    | StoreUpload(key: Id)
    | CommitUpload(trusted: bool)
    | RollbackUpload                                // integrity error: the object is deleted next
    | AbandonUpload                                 // storage refuses, or the process dies: a stored object stays behind
    | DeleteDiscarded(key: Id)
    | EditMetadata(expected: nat, retention: Option<Option<int>>)   // a retention date to set, or to clear
    | ChangeLink
    | Lifecycle(action: LifecycleAction, today: int)
    | Claim(worker: Id, numbers: set<nat>)
    | Release(worker: Id, number: nat)
    | Complete(worker: Id, number: nat, clean: bool)
    | CrashWorker(worker: Id)

  function InitialCondition(trusted: bool): Condition {
    if trusted then Available else Quarantined
  }

  function ClaimsOf(s: State, w: Id): set<nat> {
    if w in s.claims then s.claims[w] else {}
  }

  predicate HasChecksum(s: State, checksum: Id) {
    exists i :: 0 <= i < |s.versions| && s.versions[i].checksum == checksum
  }

  predicate KeyUsed(s: State, key: Id) {
    || key in s.objects || key in s.discarded
    || (s.upload.Some? && s.upload.value.stored == Some(key))
    || exists i :: 0 <= i < |s.versions| && s.versions[i].storageKey == key
  }

  /** What stops an add-version call before it stores anything. */
  function UploadError(s: State, expected: nat, checksum: Id): Option<Error> {
    if s.document.None? || s.document.value.deleted then Some(NotFound)
    else if s.document.value.lock != expected then Some(Conflict)
    else if HasChecksum(s, checksum) then Some(Conflict)
    else None
  }

  function LifecycleError(s: State, action: LifecycleAction, today: int): Option<Error> {
    if s.document.None? then Some(NotFound)
    else
      var d := s.document.value;
      if action == OtherAction then Some(UnknownAction)
      else if action == Delete && d.retentionUntil.Some? && d.retentionUntil.value > today then Some(Conflict)
      else None
  }

  function Judged(s: State, number: nat, condition: Condition): seq<Version>
    requires 1 <= number <= |s.versions|
  {
    s.versions[number - 1 := s.versions[number - 1].(condition := condition)]
  }

  function ClaimAll(versions: seq<Version>, numbers: set<nat>): seq<Version> {
    seq(|versions|, i requires 0 <= i < |versions| =>
      if versions[i].number in numbers then versions[i].(condition := Scanning) else versions[i])
  }

  /** The row is free: no add-version transaction holds its lock. */
  predicate Unlocked(s: State) {
    s.document.Some? && s.upload.None?
  }

  function Edited(s: State, d: Document): State {
    s.(document := Some(d.(lock := d.lock + 1)))
  }

  function StepUpload(s: State, a: Action): Option<State> {
    match a
    case Create(key, checksum, trusted, retention) =>
      if s.document.Some? || KeyUsed(s, key) then None
      else
        var condition := InitialCondition(trusted);
        Some(s.(document := Some(Document(condition, 1, 1, retention, false, false)),
                versions := [Version(1, checksum, key, condition)],
                objects := s.objects + {key},
                cleared := if trusted then {1} else {}))
    case PutObject(key) =>
      if KeyUsed(s, key) then None else Some(s.(objects := s.objects + {key}))
    case BeginUpload(actor, expected, checksum) =>
      if s.upload.Some? || UploadError(s, expected, checksum).Some? then None
      else Some(s.(upload := Some(Upload(actor, checksum, None))))
    case StoreUpload(key) =>
      if s.upload.None? || s.upload.value.stored.Some? || KeyUsed(s, key) then None
      else Some(s.(upload := Some(s.upload.value.(stored := Some(key))), objects := s.objects + {key}))
    case CommitUpload(trusted) =>
      if s.document.None? || s.upload.None? || s.upload.value.stored.None? then None
      else
        var condition, number := InitialCondition(trusted), s.document.value.current + 1;
        var d := s.document.value.(current := number, condition := condition);
        Some(Edited(s, d).(versions := s.versions + [Version(number, s.upload.value.checksum, s.upload.value.stored.value, condition)],
                           upload := None,
                           cleared := if trusted then s.cleared + {number} else s.cleared))
    case RollbackUpload =>
      if s.upload.None? || s.upload.value.stored.None? then None
      else Some(s.(upload := None, discarded := s.discarded + {s.upload.value.stored.value}))
    case AbandonUpload =>
      Some(s.(upload := None))
    case DeleteDiscarded(key) =>
      if key !in s.discarded then None
      else Some(s.(objects := s.objects - {key}))
    case _ => None
  }

  function StepEdit(s: State, a: Action): Option<State> {
    if !Unlocked(s) then None
    else
      var d := s.document.value;
      match a
      case EditMetadata(expected, retention) =>
        if d.lock != expected then None
        else Some(Edited(s, if retention.Some? then d.(retentionUntil := retention.value) else d))
      case ChangeLink => Some(Edited(s, d))
      case Lifecycle(action, today) =>
        if LifecycleError(s, action, today).Some? then None
        else if action == Archive then Some(Edited(s, d.(archived := true)))
        else Some(Edited(s, d.(deleted := action == Delete)))
      case _ => None
  }

  function StepScan(s: State, a: Action): Option<State> {
    match a
    case Claim(w, numbers) =>
      if exists n :: n in numbers && !(1 <= n <= |s.versions| && s.versions[n - 1].condition == Quarantined) then None
      else Some(s.(versions := ClaimAll(s.versions, numbers), claims := s.claims[w := ClaimsOf(s, w) + numbers]))
    case Release(w, n) =>
      if n !in ClaimsOf(s, w) || !(1 <= n <= |s.versions|) then None
      else Some(s.(versions := Judged(s, n, Quarantined), claims := s.claims[w := ClaimsOf(s, w) - {n}]))
    case Complete(w, n, clean) =>
      if n !in ClaimsOf(s, w) || !(1 <= n <= |s.versions|) || s.document.None? then None
      else if s.document.value.current == n && s.upload.Some? then None   // waits for the row lock
      else Some(Completed(s, w, n, clean, s.document.value.current))
    case CrashWorker(w) =>
      Some(s.(claims := s.claims - {w}))
    case _ => None
  }

  /**
   The commit of a scan verdict. `read` is the current version number the worker read; the
   document row follows the verdict when it named this version.
   */
  function Completed(s: State, w: Id, n: nat, clean: bool, read: nat): State
    requires n in ClaimsOf(s, w) && 1 <= n <= |s.versions| && s.document.Some?
  {
    var condition := if clean then Available else Rejected;
    s.(versions := Judged(s, n, condition),
       document := Some(if read == n then s.document.value.(condition := condition) else s.document.value),
       claims := s.claims[w := ClaimsOf(s, w) - {n}],
       cleared := if clean then s.cleared + {n} else s.cleared)
  }

  function Step(s: State, a: Action): Option<State> {
    if a.EditMetadata? || a.ChangeLink? || a.Lifecycle? then StepEdit(s, a)
    else if a.Claim? || a.Release? || a.Complete? || a.CrashWorker? then StepScan(s, a)
    else StepUpload(s, a)
  }

  function Run(actions: seq<Action>): Option<State> {
    if |actions| == 0 then Some(INITIAL)
    else match Run(Front(actions))
         case None => None
         case Some(s) => Step(s, Last(actions))
  }

  // ---- consistency ----

  /** What the document row shows for a version: a scan in progress still reads as quarantine. */
  function AsDocument(c: Condition): Condition {
    if c == Scanning then Quarantined else c
  }

  predicate NumbersExact(s: State) {
    && (s.document.None? <==> s.versions == [])
    && (s.document.Some? ==> s.document.value.current == |s.versions|)
    && forall i :: 0 <= i < |s.versions| ==> s.versions[i].number == i + 1
  }

  predicate ContentsDistinct(s: State) {
    && (forall i, j :: 0 <= i < j < |s.versions| ==> s.versions[i].checksum != s.versions[j].checksum)
    && (s.upload.Some? ==> s.document.Some? && !HasChecksum(s, s.upload.value.checksum))
  }

  predicate ObjectsPresent(s: State) {
    && (forall i, j :: 0 <= i < j < |s.versions| ==> s.versions[i].storageKey != s.versions[j].storageKey)
    && (forall i :: 0 <= i < |s.versions| ==>
          s.versions[i].storageKey in s.objects && s.versions[i].storageKey !in s.discarded)
    && (s.upload.Some? && s.upload.value.stored.Some? ==>
          var key := s.upload.value.stored.value;
          && key in s.objects && key !in s.discarded
          && forall i :: 0 <= i < |s.versions| ==> s.versions[i].storageKey != key)
  }

  predicate RowFollowsVersion(s: State) {
    s.document.Some? ==>
      |s.versions| > 0 && s.document.value.condition == AsDocument(s.versions[|s.versions| - 1].condition)
  }

  /** A claimed version is being scanned, by one worker only. */
  predicate ClaimsExclusive(s: State) {
    && (forall w, n :: w in s.claims && n in s.claims[w] ==>
          1 <= n <= |s.versions| && s.versions[n - 1].condition == Scanning)
    && (forall v, w, n :: v in s.claims && w in s.claims && n in s.claims[v] && n in s.claims[w] ==> v == w)
  }

  predicate OnlyClearedAvailable(s: State) {
    forall i :: 0 <= i < |s.versions| && s.versions[i].condition == Available ==> i + 1 in s.cleared
  }

  predicate Consistent(s: State) {
    && NumbersExact(s) && ContentsDistinct(s) && ObjectsPresent(s) && RowFollowsVersion(s)
    && ClaimsExclusive(s) && OnlyClearedAvailable(s)
    && (s.document.None? ==> s.cleared == {})
  }

  lemma CreateKeeps(s: State, a: Action, t: State)
    requires Consistent(s) && a.Create? && StepUpload(s, a) == Some(t)
    ensures Consistent(t)
  {
  }

  /** A committed upload appends one version with new content and its own object. */
  lemma CommitAppends(s: State, a: Action, t: State)
    requires Consistent(s) && a.CommitUpload? && StepUpload(s, a) == Some(t)
    ensures NumbersExact(t) && ContentsDistinct(t) && ObjectsPresent(t)
  {
    assert forall i :: 0 <= i < |s.versions| ==> t.versions[i] == s.versions[i];
  }

  lemma CommitKeeps(s: State, a: Action, t: State)
    requires Consistent(s) && a.CommitUpload? && StepUpload(s, a) == Some(t)
    ensures Consistent(t)
  {
    CommitAppends(s, a, t);
    assert forall i :: 0 <= i < |s.versions| ==> t.versions[i] == s.versions[i];
  }

  lemma UploadKeeps(s: State, a: Action, t: State)
    requires Consistent(s) && StepUpload(s, a) == Some(t) && !a.Create? && !a.CommitUpload?
    ensures Consistent(t)
  {
  }

  lemma EditKeeps(s: State, a: Action, t: State)
    requires Consistent(s) && StepEdit(s, a) == Some(t)
    ensures Consistent(t)
  {
  }

  /** Same numbers, contents and objects, whatever the conditions. */
  predicate SameContents(a: seq<Version>, b: seq<Version>) {
    && |a| == |b|
    && forall i :: 0 <= i < |a| ==>
         a[i].number == b[i].number && a[i].checksum == b[i].checksum && a[i].storageKey == b[i].storageKey
  }

  /** Changing conditions only cannot disturb numbers, contents or objects. */
  lemma ContentsKept(s: State, t: State)
    requires Consistent(s) && SameContents(s.versions, t.versions)
    requires t.upload == s.upload && t.objects == s.objects && t.discarded == s.discarded
    requires s.document.Some? && t.document.Some? && t.document.value.current == s.document.value.current
    ensures NumbersExact(t) && ContentsDistinct(t) && ObjectsPresent(t)
  {
    forall checksum
      ensures HasChecksum(t, checksum) == HasChecksum(s, checksum)
    {
      if HasChecksum(t, checksum) {
        var i :| 0 <= i < |t.versions| && t.versions[i].checksum == checksum;
        assert s.versions[i].checksum == checksum;
      }
      if HasChecksum(s, checksum) {
        var i :| 0 <= i < |s.versions| && s.versions[i].checksum == checksum;
        assert t.versions[i].checksum == checksum;
      }
    }
  }

  /** A claim starts the scan of the claimed versions and leaves the others alone. */
  lemma ClaimStartsScan(s: State, w: Id, numbers: set<nat>)
    requires Consistent(s) && StepScan(s, Claim(w, numbers)).Some?
    ensures var t := StepScan(s, Claim(w, numbers)).value;
      && |t.versions| == |s.versions| && t.upload == s.upload
      && ClaimsOf(t, w) == ClaimsOf(s, w) + numbers
      && forall i :: 0 <= i < |s.versions| ==>
           if i + 1 in numbers then t.versions[i].condition == Scanning else t.versions[i] == s.versions[i]
  {
    forall i | 0 <= i < |s.versions|
      ensures s.versions[i].number == i + 1
    {
    }
  }

  lemma ClaimExclusive(s: State, w: Id, numbers: set<nat>, t: State)
    requires Consistent(s) && StepScan(s, Claim(w, numbers)) == Some(t)
    ensures ClaimsExclusive(t)
  {
    forall v, n | v in t.claims && n in t.claims[v]
      ensures 1 <= n <= |t.versions| && t.versions[n - 1].condition == Scanning
      ensures n in numbers ==> v == w
      ensures n !in numbers ==> v in s.claims && n in s.claims[v]
    {
      if n in numbers {
        assert s.versions[n - 1].number == n && s.versions[n - 1].condition == Quarantined;
      } else {
        assert v in s.claims && n in s.claims[v];
      }
    }
  }

  lemma ClaimKeeps(s: State, w: Id, numbers: set<nat>, t: State)
    requires Consistent(s) && StepScan(s, Claim(w, numbers)) == Some(t)
    ensures Consistent(t)
  {
    ClaimExclusive(s, w, numbers, t);
    forall i | 0 <= i < |s.versions|
      ensures AsDocument(t.versions[i].condition) == AsDocument(s.versions[i].condition)
      ensures t.versions[i].condition == s.versions[i].condition || t.versions[i].condition == Scanning
    {
      assert s.versions[i].number == i + 1;
    }
    if s.document.Some? {
      ContentsKept(s, t);
    }
  }

  /** A verdict on one version, or its release, touches nothing else of the versions. */
  lemma JudgedFrame(s: State, n: nat, condition: Condition)
    requires Consistent(s) && 1 <= n <= |s.versions|
    ensures var versions := Judged(s, n, condition);
      && |versions| == |s.versions|
      && (forall i :: 0 <= i < |versions| ==>
            && versions[i].number == i + 1
            && versions[i].checksum == s.versions[i].checksum
            && versions[i].storageKey == s.versions[i].storageKey)
      && (forall i :: 0 <= i < |versions| && i != n - 1 ==> versions[i] == s.versions[i])
  {
  }

  lemma ClaimDropped(s: State, w: Id, n: nat, condition: Condition, t: State)
    requires Consistent(s) && n in ClaimsOf(s, w) && 1 <= n <= |s.versions|
    requires t.versions == Judged(s, n, condition) && t.claims == s.claims[w := ClaimsOf(s, w) - {n}]
    ensures ClaimsExclusive(t)
  {
    forall v, m | v in t.claims && m in t.claims[v]
      ensures m != n && v in s.claims && m in s.claims[v]
    {
    }
  }

  lemma ReleaseKeeps(s: State, w: Id, n: nat, t: State)
    requires Consistent(s) && StepScan(s, Release(w, n)) == Some(t)
    ensures Consistent(t)
  {
    JudgedFrame(s, n, Quarantined);
    ClaimDropped(s, w, n, Quarantined, t);
    assert s.versions[n - 1].condition == Scanning;
    ContentsKept(s, t);
  }

  lemma CompleteKeeps(s: State, w: Id, n: nat, clean: bool, t: State)
    requires Consistent(s) && StepScan(s, Complete(w, n, clean)) == Some(t)
    ensures Consistent(t)
  {
    var condition := if clean then Available else Rejected;
    JudgedFrame(s, n, condition);
    ClaimDropped(s, w, n, condition, t);
    ContentsKept(s, t);
  }

  lemma StepKeeps(s: State, a: Action, t: State)
    requires Consistent(s) && Step(s, a) == Some(t)
    ensures Consistent(t)
  {
    match a
    case Create(_, _, _, _) => CreateKeeps(s, a, t);
    case CommitUpload(_) => CommitKeeps(s, a, t);
    case EditMetadata(_, _) => EditKeeps(s, a, t);
    case ChangeLink => EditKeeps(s, a, t);
    case Lifecycle(_, _) => EditKeeps(s, a, t);
    case Claim(w, numbers) => ClaimKeeps(s, w, numbers, t);
    case Release(w, n) => ReleaseKeeps(s, w, n, t);
    case Complete(w, n, clean) => CompleteKeeps(s, w, n, clean, t);
    case CrashWorker(_) =>
    case PutObject(_) => UploadKeeps(s, a, t);
    case BeginUpload(_, _, _) => UploadKeeps(s, a, t);
    case StoreUpload(_) => UploadKeeps(s, a, t);
    case RollbackUpload => UploadKeeps(s, a, t);
    case AbandonUpload => UploadKeeps(s, a, t);
    case DeleteDiscarded(_) => UploadKeeps(s, a, t);
  }

  /**
   In every reachable interleaving version numbers are exactly 1..current, contents are
   distinct, every version's object is in storage, and the document row shows the state of
   its current version with a running scan read as quarantine.
   */
  lemma {:induction false} AlwaysConsistent(actions: seq<Action>)
    requires Run(actions).Some?
    ensures Consistent(Run(actions).value)
  {
    if |actions| > 0 {
      AlwaysConsistent(Front(actions));
      StepKeeps(Run(Front(actions)).value, Last(actions), Run(actions).value);
    }
  }

  // ---- verdicts are final ----

  predicate Terminal(c: Condition) {
    c == Available || c == Rejected
  }

  /** Versions are never removed or altered, and a verdict once given stays. */
  predicate Preserves(s: State, t: State) {
    && |s.versions| <= |t.versions|
    && s.cleared <= t.cleared
    && forall i :: 0 <= i < |s.versions| ==>
         && t.versions[i].checksum == s.versions[i].checksum
         && t.versions[i].storageKey == s.versions[i].storageKey
         && (Terminal(s.versions[i].condition) ==> t.versions[i].condition == s.versions[i].condition)
  }

  lemma StepPreserves(s: State, a: Action, t: State)
    requires Consistent(s) && Step(s, a) == Some(t)
    ensures Preserves(s, t)
  {
    if a.Create? {
      assert s.versions == [];
    }
    if a.Release? || a.Complete? {
      assert a.worker in s.claims && a.number in s.claims[a.worker];
      assert s.versions[a.number - 1].condition == Scanning;
    }
    if a.Claim? {
      ClaimStartsScan(s, a.worker, a.numbers);
      forall i | 0 <= i < |s.versions| && Terminal(s.versions[i].condition)
        ensures t.versions[i] == s.versions[i]
      {
        assert s.versions[i].number == i + 1;
      }
    }
  }

  /** Whatever happens later, a version found clean or infected stays so, with its content. */
  lemma {:induction false} VerdictsFinal(actions: seq<Action>, more: seq<Action>)
    requires Run(actions + more).Some? && Run(actions).Some?
    ensures Preserves(Run(actions).value, Run(actions + more).value)
  {
    if |more| == 0 {
      assert actions + more == actions;
    } else {
      assert Front(actions + more) == actions + Front(more);
      VerdictsFinal(actions, Front(more));
      AlwaysConsistent(actions + Front(more));
      StepPreserves(Run(actions + Front(more)).value, Last(more), Run(actions + more).value);
    }
  }

  /** Two states of a row that agree in everything but what a scan verdict sets. */
  predicate SameRow(d: Document, e: Document) {
    d.(condition := e.condition) == e
  }

  /** The lock version never falls, and a step that leaves it leaves the row but for its condition. */
  lemma StepLocks(s: State, a: Action, t: State)
    requires Step(s, a) == Some(t) && s.document.Some?
    ensures t.document.Some? && s.document.value.lock <= t.document.value.lock
    ensures s.document.value.lock == t.document.value.lock ==> SameRow(s.document.value, t.document.value)
  {
  }

  lemma {:induction false} RowSince(actions: seq<Action>, more: seq<Action>)
    requires Run(actions).Some? && Run(actions).value.document.Some? && Run(actions + more).Some?
    ensures var s, t := Run(actions).value, Run(actions + more).value;
      && t.document.Some? && s.document.value.lock <= t.document.value.lock
      && (s.document.value.lock == t.document.value.lock ==> SameRow(s.document.value, t.document.value))
  {
    if |more| == 0 {
      assert actions + more == actions;
    } else {
      assert Front(actions + more) == actions + Front(more);
      RowSince(actions, Front(more));
      StepLocks(Run(actions + Front(more)).value, Last(more), Run(actions + more).value);
    }
  }

  /**
   No lost update: an upload or a metadata edit that names the lock version its caller read
   goes through only if the row still is what the caller read: the same current version,
   retention, archiving and deletion. Only a scan verdict may have come in between.
   */
  lemma NoLostUpdate(actions: seq<Action>, more: seq<Action>, a: Action)
    requires Run(actions).Some? && Run(actions).value.document.Some? && Run(actions + more).Some?
    requires a.BeginUpload? || a.EditMetadata?
    requires a.expected == Run(actions).value.document.value.lock
    requires Step(Run(actions + more).value, a).Some?
    ensures Run(actions + more).value.document.Some?
    ensures SameRow(Run(actions).value.document.value, Run(actions + more).value.document.value)
  {
    RowSince(actions, more);
  }

  // ---- downloads ----

  function FindVersion(versions: seq<Version>, number: nat): Option<Version> {
    if |versions| == 0 then None
    else if versions[0].number == number then Some(versions[0])
    else FindVersion(versions[1..], number)
  }

  /** Version number 0 counts as no number at all. */
  function Download(s: State, requested: Option<nat>): Result<Version, Error> {
    if s.document.None? || s.document.value.deleted then Err(NotFound)
    else
      var selected := if requested.None? || requested.value == 0 then s.document.value.current else requested.value;
      match FindVersion(s.versions, selected)
      case None => Err(NotFound)
      case Some(v) => if v.condition != Available then Err(Unavailable) else Ok(v)
  }

  lemma {:induction false} FindExact(versions: seq<Version>, first: nat, number: nat)
    requires forall i :: 0 <= i < |versions| ==> versions[i].number == first + i
    ensures FindVersion(versions, number) ==
      if first <= number < first + |versions| then Some(versions[number - first]) else None
  {
    if |versions| > 0 && versions[0].number != number {
      FindExact(versions[1..], first + 1, number);
    }
  }

  /**
   A download succeeds exactly for a version that exists and is available of a document that
   is not deleted; what it serves was trusted at upload or found clean, and is in storage.
   */
  lemma DownloadServesClearedContent(actions: seq<Action>, requested: Option<nat>)
    requires Run(actions).Some?
    ensures var s := Run(actions).value;
      var n := if s.document.None? then 0
               else if requested.None? || requested.value == 0 then s.document.value.current else requested.value;
      && (Download(s, requested).Ok? <==>
            s.document.Some? && !s.document.value.deleted && 1 <= n <= |s.versions| && s.versions[n - 1].condition == Available)
      && (Download(s, requested).Ok? ==>
            var v := Download(s, requested).value;
            v == s.versions[n - 1] && v.storageKey in s.objects && n in s.cleared)
  {
    AlwaysConsistent(actions);
    var s := Run(actions).value;
    if s.document.Some? {
      FindExact(s.versions, 1, if requested.None? || requested.value == 0 then s.document.value.current else requested.value);
    }
  }

  // ---- a completion that read the document row too early ----

  /**
   The completion reads the document row without a lock. With a stale current version
   number the row keeps following its version exactly when the staleness makes no
   difference: the two numbers agree on whether this version is the current one, or the
   verdict happens to be what the new current version shows.
   */
  lemma StaleCompletion(s: State, w: Id, n: nat, clean: bool, read: nat)
    requires Consistent(s) && n in ClaimsOf(s, w) && 1 <= n <= |s.versions|
    ensures RowFollowsVersion(Completed(s, w, n, clean, read)) <==>
      || (read == n <==> s.document.value.current == n)
      || (read == n && AsDocument(s.versions[|s.versions| - 1].condition) == if clean then Available else Rejected)
  {
    assert s.versions[n - 1].condition == Scanning;
  }

  lemma RunOn(actions: seq<Action>, a: Action) returns (longer: seq<Action>)
    requires Run(actions).Some?
    ensures longer == actions + [a] && Run(longer) == Step(Run(actions).value, a)
  {
    longer := actions + [a];
    assert Front(longer) == actions;
  }

  /** A first version in quarantine. */
  lemma CreatedRun() returns (actions: seq<Action>)
    ensures Run(actions).Some?
    ensures var s := Run(actions).value;
      && s.upload.None? && s.document == Some(Document(Quarantined, 1, 1, None, false, false))
      && |s.versions| == 1 && s.versions[0] == Version(1, 0, 0, Quarantined)
      && s.objects == {0} && s.discarded == {} && ClaimsOf(s, 0) == {}
  {
    actions := [];
    assert Run(actions) == Some(INITIAL);
    actions := RunOn(actions, Create(0, 0, false, None));
  }

  /** A first version that a worker is scanning. */
  lemma ScanningRun() returns (actions: seq<Action>)
    ensures Run(actions).Some?
    ensures var s := Run(actions).value;
      && s.upload.None? && s.document.Some? && s.document.value.lock == 1 && s.document.value.current == 1
      && !s.document.value.deleted && |s.versions| == 1 && s.versions[0] == Version(1, 0, 0, Scanning)
      && s.objects == {0} && s.discarded == {} && ClaimsOf(s, 0) == {1}
  {
    actions := CreatedRun();
    var s := Run(actions).value;
    actions := RunOn(actions, Claim(0, {1}));
    assert Run(actions).value.versions == ClaimAll(s.versions, {1});
  }

  /**
   It does break: while version 1 is scanned, version 2 is uploaded and quarantined; the
   completion of version 1 that read the row before makes the document available.
   */
  lemma StaleCompletionBreaks() returns (actions: seq<Action>)
    ensures Run(actions).Some?
    ensures var s := Run(actions).value;
      && 1 in ClaimsOf(s, 0) && 1 <= |s.versions| && s.document.Some? && s.document.value.current == 2
      && RowFollowsVersion(s) && !RowFollowsVersion(Completed(s, 0, 1, true, 1))
  {
    actions := ScanningRun();
    actions := RunOn(actions, BeginUpload(0, 1, 1));
    actions := RunOn(actions, StoreUpload(1));
    actions := RunOn(actions, CommitUpload(false));
  }

  // ---- the calls as they are written ----

  class Service {
    var s: State
    ghost var history: seq<Action>

    ghost predicate Valid()
      reads this
    {
      Run(history) == Some(s)
    }

    constructor ()
      ensures Valid() && s == INITIAL
    {
      s, history := INITIAL, [];
    }

    method Call(a: Action)
      requires Valid() && Step(s, a).Some?
      modifies this
      ensures Valid() && s == Step(old(s), a).value && history == old(history) + [a]
    {
      s := Step(s, a).value;
      history := history + [a];
      assert Front(history) == old(history);
    }

    /**
     Adds a version: checks under the row lock, stores the object, commits the row. Storage
     may refuse the object, and then the transaction is rolled back; the commit may fail, and
     then the object is deleted again.
     */
    method AddVersion(actor: Id, expected: nat, checksum: Id, key: Id, trusted: bool, stores: bool, commits: bool)
      returns (error: Option<Error>)
      requires Valid() && s.upload.None? && !KeyUsed(s, key)
      modifies this
      ensures Valid()
      ensures UploadError(old(s), expected, checksum).Some? ==>
        error == UploadError(old(s), expected, checksum) && s == old(s)
      ensures UploadError(old(s), expected, checksum).None? && !stores ==> error == Some(StorageFailed) && s == old(s)
      ensures UploadError(old(s), expected, checksum).None? && stores && commits ==>
        && error.None?
        && s.versions == old(s).versions +
           [Version(old(s).document.value.current + 1, checksum, key, InitialCondition(trusted))]
        && s.document == Some(old(s).document.value.(
             current := old(s).document.value.current + 1, lock := expected + 1, condition := InitialCondition(trusted)))
        && s.objects == old(s).objects + {key}
      ensures UploadError(old(s), expected, checksum).None? && stores && !commits ==>
        && error == Some(Conflict)
        && s.document == old(s).document && s.versions == old(s).versions && s.objects == old(s).objects
    {
      if s.document.None? || s.document.value.deleted {
        return Some(NotFound);
      }
      if s.document.value.lock != expected {
        return Some(Conflict);
      }
      if HasChecksum(s, checksum) {
        return Some(Conflict);
      }
      Call(BeginUpload(actor, expected, checksum));
      if !stores {
        Call(AbandonUpload);
        return Some(StorageFailed);
      }
      Call(StoreUpload(key));
      if !commits {
        Call(RollbackUpload);
        Call(DeleteDiscarded(key));
        return Some(Conflict);
      }
      Call(CommitUpload(trusted));
      error := None;
    }

    /** Changes metadata under the caller's lock version. */
    method UpdateMetadata(expected: nat, retention: Option<Option<int>>) returns (error: Option<Error>)
      requires Valid() && s.upload.None?
      modifies this
      ensures Valid() && (error.None? <==> old(s).document.Some? && old(s).document.value.lock == expected)
      ensures error.Some? ==> s == old(s) && error.value == if s.document.None? then NotFound else Conflict
      ensures error.None? ==>
        && s.versions == old(s).versions && s.objects == old(s).objects
        && s.document == Some(old(s).document.value.(
             lock := expected + 1,
             retentionUntil := if retention.Some? then retention.value else old(s).document.value.retentionUntil))
    {
      if s.document.None? {
        return Some(NotFound);
      }
      if s.document.value.lock != expected {
        return Some(Conflict);
      }
      Call(EditMetadata(expected, retention));
      error := None;
    }

    /** Archives, deletes or restores; retention protects from deletion only. */
    method SetLifecycle(action: LifecycleAction, today: int) returns (error: Option<Error>)
      requires Valid() && s.upload.None?
      modifies this
      ensures Valid() && error == LifecycleError(old(s), action, today)
      ensures error.None? <==>
        && old(s).document.Some? && action != OtherAction
        && (action == Delete && old(s).document.value.retentionUntil.Some? ==> old(s).document.value.retentionUntil.value <= today)
      ensures error.Some? ==> s == old(s)
      ensures error.None? ==>
        && s.versions == old(s).versions && s.objects == old(s).objects
        && s.document == Some(old(s).document.value.(
             lock := old(s).document.value.lock + 1,
             archived := action == Archive || old(s).document.value.archived,
             deleted := if action == Archive then old(s).document.value.deleted else action == Delete))
    {
      error := LifecycleError(s, action, today);
      if error.None? {
        Call(Lifecycle(action, today));
      }
    }

    /** Waits for an open upload to let go of the row. */
    method WaitForRow(end: UploadEnd)
      requires Valid() && s.upload.Some? && s.document.Some?
      modifies this
      ensures Valid() && s == AfterUpload(old(s), end)
    {
      if end.Commits? && s.upload.value.stored.None? && !KeyUsed(s, end.key) {
        Call(StoreUpload(end.key));
      }
      if s.upload.value.stored.None? || end.Breaks? {
        Call(AbandonUpload);
      } else if end.Commits? {
        Call(CommitUpload(end.trusted));
      } else {
        Call(RollbackUpload);
      }
    }

    /**
     What a scan of one version ends in: a dependency error, or a verdict. A verdict on the
     current version of a document that is being uploaded to waits until the upload `end`s.
     */
    method ScanOne(w: Id, n: nat, verdict: Option<bool>, end: UploadEnd)
      requires Valid() && n in ClaimsOf(s, w)
      modifies this
      ensures Valid() && old(s).document.Some? && 1 <= n <= |old(s).versions|
      ensures var first := Unblocked(old(s), n, verdict, end);
        && n <= |first.versions| && first.document.Some?
        && s.versions == Judged(first, n, Verdict(verdict))
        && s.upload == first.upload && s.objects == first.objects && s.discarded == first.discarded
        && s.document ==
             if verdict.Some? && first.document.value.current == n
             then Some(first.document.value.(condition := Verdict(verdict))) else first.document
      ensures ClaimsOf(s, w) == ClaimsOf(old(s), w) - {n}
    {
      AlwaysConsistent(history);
      assert w in s.claims && n in s.claims[w];
      if s.upload.Some? && verdict.Some? && s.document.value.current == n {
        AfterUploadFrame(s, end);
        WaitForRow(end);
      }
      match verdict {
        case None => Call(Release(w, n));
        case Some(clean) => Call(Complete(w, n, clean));
      }
    }

    /** Scans the next claimed version of a batch. */
    method ScanNext(w: Id, batch: seq<nat>, verdicts: map<nat, bool>, i: nat, end: UploadEnd, ghost first: State)
      requires Valid() && i < |batch| && Distinct(batch) && batch[i] in ClaimsOf(s, w)
      requires ScannedTo(first, s, batch, verdicts, i)
      modifies this
      ensures Valid() && ScannedTo(first, s, batch, verdicts, i + 1)
      ensures ClaimsOf(s, w) == ClaimsOf(old(s), w) - {batch[i]}
    {
      ghost var before := s;
      var n := batch[i];
      var verdict := if n in verdicts then Some(verdicts[n]) else None;
      AlwaysConsistent(history);
      UnblockedFrame(s, n, verdict, end);
      ScanOne(w, n, verdict, end);
      ScannedNext(first, before, s, batch, verdicts, i);
    }

    /** Claims the quarantined versions it is given. */
    method ClaimBatch(w: Id, batch: seq<nat>)
      requires Valid() && ClaimsOf(s, w) == {}
      requires forall i :: 0 <= i < |batch| ==> 1 <= batch[i] <= |s.versions| && s.versions[batch[i] - 1].condition == Quarantined
      modifies this
      ensures Valid() && |s.versions| == |old(s).versions| && s.upload == old(s).upload
      ensures ClaimsOf(s, w) == Elements(batch)
      ensures forall i :: 0 <= i < |batch| ==> s.versions[batch[i] - 1].condition == Scanning
      ensures forall k :: 0 <= k < |s.versions| && k + 1 !in batch ==> s.versions[k] == old(s).versions[k]
    {
      AlwaysConsistent(history);
      assert Step(s, Claim(w, Elements(batch))) == StepScan(s, Claim(w, Elements(batch)));
      ClaimStartsScan(s, w, Elements(batch));
      Call(Claim(w, Elements(batch)));
    }

    /**
     Claims the quarantined versions it is given and scans them one after the other. If the
     process dies the remaining ones are claimed by nobody and read as scanning for good. An
     upload that is open at the start may end while a verdict waits for the row.
     */
    method ScanBatch(w: Id, batch: seq<nat>, verdicts: map<nat, bool>, scans: nat, end: UploadEnd)
      requires Valid() && ClaimsOf(s, w) == {} && Distinct(batch)
      requires forall i :: 0 <= i < |batch| ==> 1 <= batch[i] <= |s.versions| && s.versions[batch[i] - 1].condition == Quarantined
      modifies this
      ensures Valid() && ScannedTo(old(s), s, batch, verdicts, Min(scans, |batch|))
      ensures ClaimsOf(s, w) == {}
    {
      ghost var first := s;
      ClaimBatch(w, batch);
      var i := 0;
      assert batch[0..] == batch;
      while i < |batch| && i < scans
        invariant i <= |batch| && i <= scans
        invariant Valid() && ClaimsOf(s, w) == Elements(batch[i..])
        invariant ScannedTo(first, s, batch, verdicts, i)
      {
        RestOfBatch(batch, i);
        ScanNext(w, batch, verdicts, i, end, first);
        i := i + 1;
      }
      Call(CrashWorker(w));
    }
  }

  /** How an open upload ends: it stores its object if it has not and commits, fails its commit, or breaks off. */
  datatype UploadEnd = Commits(key: Id, trusted: bool) | RollsBack | Breaks

  function AfterUpload(s: State, end: UploadEnd): State
    requires s.upload.Some? && s.document.Some?
  {
    var u := if end.Commits? && s.upload.value.stored.None? && !KeyUsed(s, end.key)
             then s.(upload := Some(s.upload.value.(stored := Some(end.key))), objects := s.objects + {end.key}) else s;
    if u.upload.value.stored.None? || end.Breaks? then u.(upload := None)
    else if end.Commits? then StepUpload(u, CommitUpload(end.trusted)).value
    else StepUpload(u, RollbackUpload).value
  }

  /** The state in which a verdict on version n can be given. */
  function Unblocked(s: State, n: nat, verdict: Option<bool>, end: UploadEnd): State {
    if s.upload.Some? && verdict.Some? && s.document.Some? && s.document.value.current == n then AfterUpload(s, end) else s
  }

  /**
   How a scan finds the row when an upload it waited for has ended: one that commits, with its
   object stored before or now, has added its version and made it the current one; one that
   fails or breaks off has left versions and row as they were.
   */
  lemma UploadEnded(s: State, end: UploadEnd)
    requires s.upload.Some? && s.document.Some?
    ensures var t, u, d := AfterUpload(s, end), s.upload.value, s.document.value;
      var stores := end.Commits? && (u.stored.Some? || !KeyUsed(s, end.key));
      && t.upload.None? && t.claims == s.claims
      && (stores ==>
            var key := if u.stored.Some? then u.stored.value else end.key;
            var condition := if end.trusted then Available else Quarantined;
            && t.versions == s.versions + [Version(d.current + 1, u.checksum, key, condition)]
            && t.document == Some(d.(current := d.current + 1, lock := d.lock + 1, condition := condition))
            && t.objects == s.objects + (if u.stored.Some? then {} else {key}))
      && (!stores ==> t.versions == s.versions && t.document == s.document)
  {
  }

  /** The end of an upload adds at most its own version, and touches no claim. */
  lemma AfterUploadFrame(s: State, end: UploadEnd)
    requires s.upload.Some? && s.document.Some?
    ensures var t := AfterUpload(s, end);
      t.upload.None? && t.document.Some? && t.claims == s.claims && s.versions <= t.versions && |t.versions| <= |s.versions| + 1
  {
  }

  lemma UnblockedFrame(s: State, n: nat, verdict: Option<bool>, end: UploadEnd)
    ensures var t := Unblocked(s, n, verdict, end);
      && s.versions <= t.versions && |t.versions| <= |s.versions| + 1
      && ((t.upload == s.upload && |t.versions| == |s.versions|) || (s.upload.Some? && t.upload.None?))
  {
    if Unblocked(s, n, verdict, end) != s {
      AfterUploadFrame(s, end);
    }
  }

  function Verdict(verdict: Option<bool>): Condition {
    match verdict
    case None => Quarantined
    case Some(clean) => if clean then Available else Rejected
  }

  lemma RestOfBatch(batch: seq<nat>, i: nat)
    requires i < |batch| && Distinct(batch)
    ensures Elements(batch[i..]) - {batch[i]} == Elements(batch[i + 1..]) && batch[i] in Elements(batch[i..])
  {
    assert batch[i..] == [batch[i]] + batch[i + 1..];
  }

  /** The condition a scan leaves: back to quarantine on a dependency error, else the verdict. */
  function VerdictOn(verdicts: map<nat, bool>, n: nat): Condition {
    Verdict(if n in verdicts then Some(verdicts[n]) else None)
  }

  /**
   The first `i` claimed versions are scanned, the others of the batch are not, and nothing
   else of the versions changed; an upload open at the start may have ended with its version.
   */
  ghost predicate ScannedTo(first: State, s: State, batch: seq<nat>, verdicts: map<nat, bool>, i: nat) {
    && |first.versions| <= |s.versions| <= |first.versions| + 1
    && ((s.upload == first.upload && |s.versions| == |first.versions|) || (first.upload.Some? && s.upload.None?))
    && (forall j :: 0 <= j < |batch| ==>
          && 1 <= batch[j] <= |first.versions|
          && s.versions[batch[j] - 1].condition == if j < i then VerdictOn(verdicts, batch[j]) else Scanning)
    && (forall k :: 0 <= k < |first.versions| && k + 1 !in batch ==> s.versions[k] == first.versions[k])
  }

  lemma ScannedNext(first: State, s: State, t: State, batch: seq<nat>, verdicts: map<nat, bool>, i: nat)
    requires ScannedTo(first, s, batch, verdicts, i) && i < |batch| && Distinct(batch)
    requires |s.versions| <= |t.versions| <= |s.versions| + 1
    requires (t.upload == s.upload && |t.versions| == |s.versions|) || (s.upload.Some? && t.upload.None?)
    requires t.versions[batch[i] - 1].condition == VerdictOn(verdicts, batch[i])
    requires forall k :: 0 <= k < |s.versions| && k != batch[i] - 1 ==> t.versions[k] == s.versions[k]
    ensures ScannedTo(first, t, batch, verdicts, i + 1)
  {
    forall j | 0 <= j < |batch|
      ensures t.versions[batch[j] - 1].condition == if j < i + 1 then VerdictOn(verdicts, batch[j]) else Scanning
    {
      if j != i {
        assert batch[j] != batch[i];
      }
    }
  }
}
