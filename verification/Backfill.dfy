/**
 The snapshot import of GovInsights: a resumable, batched upsert into the projection table
 with a cursor committed beside each batch, an optional rebuild that first clears the
 snapshot's scopes, and a reconciliation of row counts at the end.
 */
module Backfill {
  import opened Common
  import opened ReadModel

  /** One snapshot record: a key and a complete row. */
  datatype Record = Record(key: Key, row: Row)

  type Table = map<Key, Row>

  /** What an import clears and counts by. */
  datatype Scope = Scope(tenant: Id, mod: Module)

  datatype Status = Running | Succeeded | Failed

  datatype Progress = Progress(checksum: Id, cursor: nat, expected: nat, imported: nat, status: Status, failed: bool)

  /** The committed database; `log` records the committed upserts in order. */
  datatype Db = Db(rows: Table, progress: Option<Progress>, checkpoint: Option<Checkpoint>, log: seq<Record>)

  datatype Outcome =
    | AlreadyDone
    | Imported(records: nat)
    | Mismatched          // reconciliation failed
    | Died                // the process died and its open transaction was rolled back

  predicate Live(row: Row) {
    Deleted in row.cells && row.cells[Deleted] == Flag(false)
  }

  function ScopeOf(k: Key): Scope {
    Scope(k.tenant, k.mod)
  }

  function Scopes(rs: seq<Record>): set<Scope> {
    set i | 0 <= i < |rs| :: ScopeOf(rs[i].key)
  }

  // ---- the upsert and its fold law ----

  function Upsert(t: Table, r: Record): Table {
    if r.key !in t || r.row.stamp.version >= t[r.key].stamp.version then t[r.key := r.row] else t
  }

  function Fold(t: Table, rs: seq<Record>): Table {
    if |rs| == 0 then t else Upsert(Fold(t, Front(rs)), Last(rs))
  }

  lemma {:induction false} FoldConcat(t: Table, a: seq<Record>, b: seq<Record>)
    ensures Fold(t, a + b) == Fold(Fold(t, a), b)
  {
    if |b| == 0 {
      assert a + b == a;
    } else {
      FoldConcat(t, a, Front(b));
      assert Front(a + b) == a + Front(b);
    }
  }

  /** Record i is the last one of the greatest version among the records of its key. */
  predicate Survives(rs: seq<Record>, i: nat) {
    && i < |rs|
    && forall j :: 0 <= j < |rs| && rs[j].key == rs[i].key ==>
         && rs[j].row.stamp.version <= rs[i].row.stamp.version
         && (rs[j].row.stamp.version == rs[i].row.stamp.version ==> j <= i)
  }

  predicate Mentions(rs: seq<Record>, k: Key) {
    exists i :: 0 <= i < |rs| && rs[i].key == k
  }

  lemma {:induction false} SurvivorExists(rs: seq<Record>, k: Key) returns (i: nat)
    requires Mentions(rs, k)
    ensures Survives(rs, i) && rs[i].key == k
  {
    var p, n := Front(rs), |rs| - 1;
    if Mentions(p, k) {
      i := SurvivorExists(p, k);
      if rs[n].key == k && rs[n].row.stamp.version >= rs[i].row.stamp.version {
        i := n;
      }
      assert forall j :: 0 <= j < n ==> p[j] == rs[j];
    } else {
      i := n;
      assert forall j :: 0 <= j < n ==> p[j] == rs[j];
    }
  }

  /** A key no record mentions keeps its row. */
  lemma {:induction false} FoldUnmentioned(t: Table, rs: seq<Record>, k: Key)
    requires !Mentions(rs, k)
    ensures Lookup(Fold(t, rs), k) == Lookup(t, k)
  {
    if |rs| > 0 {
      assert Front(rs) + [Last(rs)] == rs;
      assert rs[|rs| - 1].key != k;
      FoldUnmentioned(t, Front(rs), k);
    }
  }

  /**
   Fold law: after any list of upserts a key holds the last record of greatest version if
   that version is at least the old row's, and otherwise the old row.
   */
  lemma {:induction false} FoldLaw(t: Table, rs: seq<Record>, i: nat)
    requires Survives(rs, i)
    ensures var k := rs[i].key;
      Lookup(Fold(t, rs), k) ==
      Some(if k in t && t[k].stamp.version > rs[i].row.stamp.version then t[k] else rs[i].row)
  {
    var p, n, k := Front(rs), |rs| - 1, rs[i].key;
    assert forall j :: 0 <= j < n ==> p[j] == rs[j];
    if Mentions(p, k) {
      var j := SurvivorExists(p, k);
      FoldLaw(t, p, j);
      assert rs[j].key == k;
      if i < n {
        assert Survives(p, i) && p[i].key == k;
        assert i == j;
      }
    } else {
      FoldUnmentioned(t, p, k);
      assert i == n;
    }
  }

  /** Folding the same list again changes nothing. */
  lemma FoldIdempotent(t: Table, rs: seq<Record>)
    ensures Fold(Fold(t, rs), rs) == Fold(t, rs)
  {
    var once := Fold(t, rs);
    var twice := Fold(once, rs);
    forall k: Key
      ensures Lookup(twice, k) == Lookup(once, k)
    {
      if Mentions(rs, k) {
        var i := SurvivorExists(rs, k);
        FoldLaw(t, rs, i);
        FoldLaw(once, rs, i);
      } else {
        FoldUnmentioned(once, rs, k);
      }
    }
    SameTable(twice, once);
  }

  lemma SameTable(a: Table, b: Table)
    requires forall k :: Lookup(a, k) == Lookup(b, k)
    ensures a == b
  {
    forall k: Key
      ensures k in a <==> k in b
      ensures k in a ==> a[k] == b[k]
    {
      assert Lookup(a, k) == Lookup(b, k);
    }
  }

  // ---- reconciliation ----

  function NonDeleted(rs: seq<Record>, sc: Scope): set<nat> {
    set i: nat | i < |rs| && ScopeOf(rs[i].key) == sc && Live(rs[i].row)
  }

  function LiveKeys(t: Table, sc: Scope): set<Key> {
    set k | k in t && ScopeOf(k) == sc && Live(t[k])
  }

  function Cleared(t: Table, scopes: set<Scope>): Table {
    map k | k in t && ScopeOf(k) !in scopes :: t[k]
  }

  /** Every non-deleted record is the one that survives among the records of its key. */
  predicate AllSurvive(rs: seq<Record>) {
    forall i: nat :: i < |rs| && Live(rs[i].row) ==> Survives(rs, i)
  }

  function Surviving(rs: seq<Record>, sc: Scope): set<nat> {
    set i | i in NonDeleted(rs, sc) && Survives(rs, i)
  }

  function KeysAt(rs: seq<Record>, indices: set<nat>): set<Key>
    requires forall i :: i in indices ==> i < |rs|
  {
    set i | i in indices :: rs[i].key
  }

  lemma {:induction false} InjectiveKeys(rs: seq<Record>, indices: set<nat>)
    requires forall i :: i in indices ==> i < |rs|
    requires forall i, j :: i in indices && j in indices && i != j ==> rs[i].key != rs[j].key
    ensures |KeysAt(rs, indices)| == |indices|
  {
    if indices != {} {
      var i :| i in indices;
      var rest := indices - {i};
      InjectiveKeys(rs, rest);
      assert KeysAt(rs, indices) == KeysAt(rs, rest) + {rs[i].key};
      assert rs[i].key !in KeysAt(rs, rest);
    }
  }

  /** In a rebuilt scope the live rows are exactly the surviving non-deleted records. */
  lemma RebuiltScope(base: Table, rs: seq<Record>, sc: Scope)
    requires sc in Scopes(rs)
    ensures var rows := Fold(Cleared(base, Scopes(rs)), rs);
      && LiveKeys(rows, sc) == KeysAt(rs, Surviving(rs, sc))
      && |LiveKeys(rows, sc)| == |Surviving(rs, sc)|
      && forall i :: i in Surviving(rs, sc) ==> rs[i].key in rows && rows[rs[i].key] == rs[i].row
  {
    var start := Cleared(base, Scopes(rs));
    var rows := Fold(start, rs);
    forall i | i in Surviving(rs, sc)
      ensures rs[i].key in rows && rows[rs[i].key] == rs[i].row
    {
      FoldLaw(start, rs, i);
      assert rs[i].key !in start;
    }
    forall k: Key
      ensures k in LiveKeys(rows, sc) <==> k in KeysAt(rs, Surviving(rs, sc))
    {
      if k in LiveKeys(rows, sc) {
        if Mentions(rs, k) {
          var i := SurvivorExists(rs, k);
          FoldLaw(start, rs, i);
          assert k !in start;
          assert i in Surviving(rs, sc);
        } else {
          FoldUnmentioned(start, rs, k);
        }
      }
    }
    InjectiveKeys(rs, Surviving(rs, sc));
  }

  predicate Reconciles(rows: Table, rs: seq<Record>, rebuild: bool) {
    forall sc :: sc in Scopes(rs) ==>
      if rebuild then |LiveKeys(rows, sc)| == |NonDeleted(rs, sc)|
      else |LiveKeys(rows, sc)| >= |NonDeleted(rs, sc)|
  }

  /**
   Rebuild reconciliation is exact: the counts agree if and only if every non-deleted
   record is the survivor of its key.
   */
  lemma RebuildExact(base: Table, rs: seq<Record>)
    ensures Reconciles(Fold(Cleared(base, Scopes(rs)), rs), rs, true) <==> AllSurvive(rs)
  {
    var rows := Fold(Cleared(base, Scopes(rs)), rs);
    forall sc | sc in Scopes(rs)
      ensures |LiveKeys(rows, sc)| == |NonDeleted(rs, sc)| <==> Surviving(rs, sc) == NonDeleted(rs, sc)
    {
      RebuiltScope(base, rs, sc);
      if |Surviving(rs, sc)| == |NonDeleted(rs, sc)| {
        SubsetOfEqualSize(Surviving(rs, sc), NonDeleted(rs, sc));
      }
    }
    if Reconciles(rows, rs, true) {
      forall i: nat | i < |rs| && Live(rs[i].row)
        ensures Survives(rs, i)
      {
        var sc := ScopeOf(rs[i].key);
        assert sc in Scopes(rs);
        assert i in NonDeleted(rs, sc);
      }
    }
  }

  /**
   After a rebuild that reconciles, the live rows of each scope and the snapshot's
   non-deleted records of that scope correspond one to one, row for record; rows of other
   scopes are untouched.
   */
  lemma RebuildBijection(base: Table, rs: seq<Record>, sc: Scope)
    requires AllSurvive(rs) && sc in Scopes(rs)
    ensures var rows := Fold(Cleared(base, Scopes(rs)), rs);
      && LiveKeys(rows, sc) == KeysAt(rs, NonDeleted(rs, sc))
      && (forall i :: i in NonDeleted(rs, sc) ==> rs[i].key in rows && rows[rs[i].key] == rs[i].row)
      && (forall i, j :: i in NonDeleted(rs, sc) && j in NonDeleted(rs, sc) && i != j ==> rs[i].key != rs[j].key)
      && (forall k :: ScopeOf(k) !in Scopes(rs) ==> Lookup(rows, k) == Lookup(base, k))
  {
    RebuiltScope(base, rs, sc);
    assert Surviving(rs, sc) == NonDeleted(rs, sc);
    forall k | ScopeOf(k) !in Scopes(rs)
      ensures Lookup(Fold(Cleared(base, Scopes(rs)), rs), k) == Lookup(base, k)
    {
      FoldUnmentioned(Cleared(base, Scopes(rs)), rs, k);
    }
  }

  // ---- the same in terms of tenants, modules and records ----

  /** Some record of the snapshot has this tenant and module. */
  predicate Covers(rs: seq<Record>, tenant: Id, mod: Module) {
    exists i :: 0 <= i < |rs| && rs[i].key.tenant == tenant && rs[i].key.mod == mod
  }

  lemma CoversExactly(rs: seq<Record>, k: Key)
    ensures Covers(rs, k.tenant, k.mod) <==> ScopeOf(k) in Scopes(rs)
  {
    if ScopeOf(k) in Scopes(rs) {
      var i :| 0 <= i < |rs| && ScopeOf(rs[i].key) == ScopeOf(k);
      assert rs[i].key.tenant == k.tenant;
    }
    if i :| 0 <= i < |rs| && rs[i].key.tenant == k.tenant && rs[i].key.mod == k.mod {
      assert ScopeOf(rs[i].key) == ScopeOf(k);
    }
  }

  /** Record i is of the greatest version among those of its key, and the last of that version. */
  predicate IsFinal(rs: seq<Record>, i: nat)
    requires i < |rs|
  {
    && (forall j :: 0 <= j < |rs| && rs[j].key == rs[i].key ==> rs[j].row.stamp.version <= rs[i].row.stamp.version)
    && (forall j :: i < j < |rs| && rs[j].key == rs[i].key ==> rs[j].row.stamp.version < rs[i].row.stamp.version)
  }

  /**
   What a rebuild leaves of every row: the final record of its key if there is one; nothing if
   there is none but the snapshot covers the row's tenant and module; else the row as it was.
   */
  lemma RebuiltRow(base: Table, rs: seq<Record>, k: Key)
    ensures var rows := Fold(Cleared(base, Scopes(rs)), rs);
      && (forall i: nat :: i < |rs| && rs[i].key == k && IsFinal(rs, i) ==> k in rows && rows[k] == rs[i].row)
      && ((forall i :: 0 <= i < |rs| ==> rs[i].key != k) ==>
            if Covers(rs, k.tenant, k.mod) then k !in rows else Lookup(rows, k) == Lookup(base, k))
  {
    var start := Cleared(base, Scopes(rs));
    CoversExactly(rs, k);
    if Mentions(rs, k) {
      var i := SurvivorExists(rs, k);
      FoldLaw(start, rs, i);
      assert ScopeOf(rs[i].key) in Scopes(rs);
      forall j: nat | j < |rs| && rs[j].key == k && IsFinal(rs, j)
        ensures j == i
      {
      }
    } else {
      FoldUnmentioned(start, rs, k);
    }
  }

  /** The record is not marked as deleted. */
  predicate NotDeleted(r: Record) {
    Deleted in r.row.cells && r.row.cells[Deleted] == Flag(false)
  }

  lemma FinalSurvives(rs: seq<Record>, i: nat)
    requires i < |rs|
    ensures IsFinal(rs, i) <==> Survives(rs, i)
  {
  }

  /** A rebuild reconciles exactly if no record that is not deleted is superseded within the snapshot. */
  lemma RebuildReconciles(base: Table, rs: seq<Record>)
    ensures Reconciles(Fold(Cleared(base, Scopes(rs)), rs), rs, true) <==>
      forall i: nat :: i < |rs| && NotDeleted(rs[i]) ==> IsFinal(rs, i)
  {
    RebuildExact(base, rs);
    forall i: nat | i < |rs|
      ensures IsFinal(rs, i) <==> Survives(rs, i)
      ensures NotDeleted(rs[i]) <==> Live(rs[i].row)
    {
      FinalSurvives(rs, i);
    }
  }

  /** So does a first import without a rebuild, into a table with no rows of its tenants and modules. */
  lemma FirstImportReconciles(base: Table, rs: seq<Record>)
    requires forall k :: k in base ==> !Covers(rs, k.tenant, k.mod)
    ensures Reconciles(Fold(base, rs), rs, false) <==> forall i: nat :: i < |rs| && NotDeleted(rs[i]) ==> IsFinal(rs, i)
  {
    forall k | k in base
      ensures ScopeOf(k) !in Scopes(rs)
    {
      CoversExactly(rs, k);
    }
    assert Cleared(base, Scopes(rs)) == base;
    RebuildReconciles(base, rs);
    forall sc | sc in Scopes(rs)
      ensures |LiveKeys(Fold(base, rs), sc)| <= |NonDeleted(rs, sc)|
    {
      RebuiltScope(base, rs, sc);
      SubsetIsSmaller(Surviving(rs, sc), NonDeleted(rs, sc));
    }
  }

  lemma SubsetIsSmaller<T>(a: set<T>, b: set<T>)
    requires a <= b
    ensures |a| <= |b|
  {
    assert b == a + (b - a);
  }

  /**
   A later import reconciles whenever no record that is not deleted is superseded, by another
   record or by a stored row, however many more live rows the table holds.
   */
  lemma LaterImportReconciles(base: Table, rs: seq<Record>)
    requires forall i: nat :: i < |rs| && NotDeleted(rs[i]) ==>
      IsFinal(rs, i) && (rs[i].key in base ==> base[rs[i].key].stamp.version <= rs[i].row.stamp.version)
    ensures Reconciles(Fold(base, rs), rs, false)
  {
    var rows := Fold(base, rs);
    forall sc | sc in Scopes(rs)
      ensures |LiveKeys(rows, sc)| >= |NonDeleted(rs, sc)|
    {
      forall i | i in NonDeleted(rs, sc)
        ensures Survives(rs, i) && rs[i].key in LiveKeys(rows, sc)
      {
        assert NotDeleted(rs[i]);
        FinalSurvives(rs, i);
        FoldLaw(base, rs, i);
      }
      InjectiveKeys(rs, NonDeleted(rs, sc));
      SubsetIsSmaller(KeysAt(rs, NonDeleted(rs, sc)), LiveKeys(rows, sc));
    }
  }

  // ---- interrupted imports ----

  /** Where an import of this snapshot starts on this database. */
  function StartOf(db: Db, checksum: Id): nat {
    match db.progress
    case None => 0
    case Some(p) => if p.checksum == checksum then p.cursor else 0
  }

  predicate SameSnapshot(db: Db, checksum: Id) {
    db.progress.Some? && db.progress.value.checksum == checksum
  }

  predicate Completed(db: Db, checksum: Id) {
    SameSnapshot(db, checksum) && db.progress.value.status == Succeeded
  }

  predicate CursorInRange(db: Db, rs: seq<Record>, checksum: Id) {
    && StartOf(db, checksum) <= |rs|
    && (Completed(db, checksum) ==> StartOf(db, checksum) == |rs|)
  }

  /** One attempt, crashed or not, upserted the records from its start to the new cursor. */
  predicate Attempted(a: Db, b: Db, rs: seq<Record>, checksum: Id) {
    && StartOf(a, checksum) <= StartOf(b, checksum) <= |rs|
    && b.rows == Fold(a.rows, rs[StartOf(a, checksum)..StartOf(b, checksum)])
    && b.log == a.log + rs[StartOf(a, checksum)..StartOf(b, checksum)]
    && (Completed(b, checksum) ==> StartOf(b, checksum) == |rs|)
  }

  /** Consecutive attempts to import one snapshot without a rebuild. */
  predicate Attempts(dbs: seq<Db>, rs: seq<Record>, checksum: Id) {
    forall i :: 0 <= i < |dbs| - 1 ==> Attempted(dbs[i], dbs[i + 1], rs, checksum)
  }

  /**
   Any sequence of crashed and restarted imports upserts each record at most once and in
   order, and leaves at every point the table an uninterrupted pass leaves at that cursor;
   once it has succeeded every record was upserted exactly once.
   */
  lemma {:induction false} ResumedImport(dbs: seq<Db>, rs: seq<Record>, checksum: Id)
    requires |dbs| > 0 && Attempts(dbs, rs, checksum) && StartOf(dbs[0], checksum) == 0
    ensures var cursor := StartOf(Last(dbs), checksum);
      && cursor <= |rs|
      && Last(dbs).log == dbs[0].log + rs[..cursor]
      && Last(dbs).rows == Fold(dbs[0].rows, rs[..cursor])
    ensures |dbs| > 1 && Completed(Last(dbs), checksum) ==>
      && Last(dbs).log == dbs[0].log + rs
      && Last(dbs).rows == Fold(dbs[0].rows, rs)
  {
    if |dbs| > 1 {
      var before := Front(dbs);
      ResumedImport(before, rs, checksum);
      var c, d := StartOf(Last(before), checksum), StartOf(Last(dbs), checksum);
      assert Attempted(Last(before), Last(dbs), rs, checksum);
      assert rs[..d] == rs[..c] + rs[c..d];
      FoldConcat(dbs[0].rows, rs[..c], rs[c..d]);
      assert rs[..|rs|] == rs;
    }
  }

  /** Batches were committed, and the progress says how many records, or none was and nothing changed. */
  predicate Advanced(before: Progress, after: Progress) {
    || after == before
    || (after == before.(cursor := after.cursor, imported := after.cursor, status := Running, failed := false) && after.cursor > before.cursor)
  }

  // ---- the import as it is written ----

  class Importer {
    var db: Db

    constructor (initial: Db)
      ensures db == initial
    {
      db := initial;
    }

    /** Deletes the rows of the given scopes, one statement a scope. */
    method ClearScopes(scopes: set<Scope>) returns (rows: Table)
      ensures rows == Cleared(db.rows, scopes)
    {
      rows := db.rows;
      var todo := scopes;
      while todo != {}
        invariant todo <= scopes && rows == Cleared(db.rows, scopes - todo)
        decreases todo
      {
        var sc :| sc in todo;
        rows := map k | k in rows && ScopeOf(k) != sc :: rows[k];
        todo := todo - {sc};
      }
      assert scopes - {} == scopes;
    }

    /** Upserts one batch inside a transaction. */
    method UpsertBatch(batch: seq<Record>) returns (rows: Table)
      ensures rows == Fold(db.rows, batch)
    {
      rows := db.rows;
      var i := 0;
      while i < |batch|
        invariant i <= |batch| && rows == Fold(db.rows, batch[..i])
      {
        assert Front(batch[..i + 1]) == batch[..i];
        rows := Upsert(rows, batch[i]);
        i := i + 1;
      }
      assert batch[..i] == batch;
    }

    /** Compares the counts scope by scope. */
    method Mismatches(rs: seq<Record>, rebuild: bool) returns (found: bool)
      ensures found <==> !Reconciles(db.rows, rs, rebuild)
    {
      var todo := Scopes(rs);
      while todo != {}
        invariant todo <= Scopes(rs)
        invariant forall sc :: sc in Scopes(rs) - todo ==>
          if rebuild then |LiveKeys(db.rows, sc)| == |NonDeleted(rs, sc)|
          else |LiveKeys(db.rows, sc)| >= |NonDeleted(rs, sc)|
        decreases todo
      {
        var sc :| sc in todo;
        var actual, expected := |LiveKeys(db.rows, sc)|, |NonDeleted(rs, sc)|;
        if (rebuild && actual != expected) || (!rebuild && actual < expected) {
          return true;
        }
        todo := todo - {sc};
      }
      return false;
    }

    /**
     Creates or resets the import state, and clears the scopes of a rebuild: one commit
     each. Returns how many commits the process has left, or None when it died.
     */
    method Prepare(rs: seq<Record>, checksum: Id, rebuild: bool, commits: nat) returns (left: Option<nat>)
      requires rebuild || !Completed(db, checksum)
      requires CursorInRange(db, rs, checksum)
      modifies this
      ensures db.log == old(db).log && db.checkpoint == old(db).checkpoint
      ensures CursorInRange(db, rs, checksum)
      ensures left.None? && !rebuild ==> db == old(db)
      ensures left.Some? ==>
        && SameSnapshot(db, checksum) && db.progress.value.status != Succeeded
        && db.progress.value.cursor == (if rebuild then 0 else StartOf(old(db), checksum))
        && db.rows == (if rebuild then Cleared(old(db).rows, Scopes(rs)) else old(db).rows)
        && left.value <= commits <= left.value + 2
      ensures commits >= 2 ==> left.Some?
    {
      var remaining: nat := commits;
      if db.progress.None? || db.progress.value.checksum != checksum || rebuild {
        if remaining == 0 {
          return None;
        }
        remaining := remaining - 1;
        db := db.(progress := Some(Progress(checksum, 0, |rs|, 0, Running, false)));
      }
      if rebuild && db.progress.value.cursor == 0 {
        var cleared := ClearScopes(Scopes(rs));
        if remaining == 0 {
          return None;
        }
        remaining := remaining - 1;
        db := db.(rows := cleared);
      }
      left := Some(remaining);
    }

    /** Upserts the rest of the snapshot batch by batch, committing the cursor with each batch. */
    method ImportBatches(rs: seq<Record>, checksum: Id, batchSize: nat, commits: nat) returns (left: Option<nat>)
      requires batchSize > 0
      requires SameSnapshot(db, checksum) && db.progress.value.status != Succeeded && db.progress.value.cursor <= |rs|
      modifies this
      ensures db.checkpoint == old(db).checkpoint
      ensures SameSnapshot(db, checksum) && db.progress.value.status != Succeeded
      ensures var c, d := old(db).progress.value.cursor, db.progress.value.cursor;
        && c <= d <= |rs|
        && db.rows == Fold(old(db).rows, rs[c..d])
        && db.log == old(db).log + rs[c..d]
        && (left.Some? ==> d == |rs| && left.value <= commits <= left.value + |rs| - c)
        && (commits >= |rs| - c ==> left.Some?)
        && Advanced(old(db).progress.value, db.progress.value)
    {
      var remaining: nat := commits;
      ghost var first := db.progress.value.cursor;
      var start := db.progress.value.cursor;
      assert rs[first..first] == [];
      while start < |rs|
        invariant SameSnapshot(db, checksum) && db.progress.value.status != Succeeded
        invariant db.checkpoint == old(db).checkpoint
        invariant Advanced(old(db).progress.value, db.progress.value)
        invariant first <= db.progress.value.cursor == Min(start, |rs|)
        invariant db.rows == Fold(old(db).rows, rs[first..db.progress.value.cursor])
        invariant db.log == old(db).log + rs[first..db.progress.value.cursor]
        invariant remaining <= commits <= remaining + db.progress.value.cursor - first
        decreases |rs| - start
      {
        var end := Min(start + batchSize, |rs|);
        var batch := rs[start..end];
        var rows := UpsertBatch(batch);
        if remaining == 0 {
          return None;
        }
        remaining := remaining - 1;
        assert rs[first..end] == rs[first..start] + batch;
        FoldConcat(old(db).rows, rs[first..start], batch);
        db := Db(rows, Some(Progress(checksum, end, db.progress.value.expected, end, Running, false)),
                 db.checkpoint, db.log + batch);
        start := start + batchSize;
      }
      left := Some(remaining);
    }

    /** Reconciles the counts and commits the verdict. */
    method Reconcile(rs: seq<Record>, checksum: Id, rebuild: bool, commits: nat, exportedAt: Time)
      returns (ok: Option<bool>)
      requires SameSnapshot(db, checksum)
      modifies this
      ensures ok.None? <==> commits == 0
      ensures ok.None? ==> db == old(db)
      ensures db.rows == old(db).rows && db.log == old(db).log
      ensures SameSnapshot(db, checksum) && db.progress.value.cursor == old(db).progress.value.cursor
      ensures ok.Some? ==> ok.value == Reconciles(db.rows, rs, rebuild)
      ensures ok.Some? ==> db.progress.value.status == if ok.value then Succeeded else Failed
      ensures ok == Some(true) ==> db.checkpoint == Some(match old(db).checkpoint
        case None => Checkpoint(Some(exportedAt), |rs|, 0, |rs|)
        case Some(c) => Checkpoint(Some(exportedAt), c.processedCount + |rs|, c.failedCount, c.projectionVersion + |rs|))
    {
      var mismatched := Mismatches(rs, rebuild);
      if commits == 0 {
        return None;
      }
      if mismatched {
        db := db.(progress := Some(db.progress.value.(status := Failed, failed := true)));
        return Some(false);
      }
      var checkpoint := match db.checkpoint
        case None => Checkpoint(Some(exportedAt), |rs|, 0, |rs|)
        case Some(c) => Checkpoint(Some(exportedAt), c.processedCount + |rs|, c.failedCount, c.projectionVersion + |rs|);
      db := db.(progress := Some(db.progress.value.(status := Succeeded)), checkpoint := Some(checkpoint));
      ok := Some(true);
    }

    /**
     Imports a snapshot. Each commit is one assignment to `db`; `commits` is how many of
     them succeed before the process dies, losing what its open transaction wrote.
     */
    method Import(rs: seq<Record>, checksum: Id, rebuild: bool, batchSize: nat, commits: nat, exportedAt: Time)
      returns (outcome: Outcome)
      requires batchSize > 0 && CursorInRange(db, rs, checksum)
      modifies this
      ensures CursorInRange(db, rs, checksum)
      ensures !rebuild ==> Attempted(old(db), db, rs, checksum)
      ensures outcome == AlreadyDone <==> !rebuild && Completed(old(db), checksum)
      ensures outcome == AlreadyDone ==> db == old(db)
      ensures outcome.Imported? ==> Completed(db, checksum) && Reconciles(db.rows, rs, rebuild)
      ensures outcome.Mismatched? ==> !Completed(db, checksum) && !Reconciles(db.rows, rs, rebuild)
      ensures outcome.Imported? || outcome.Mismatched? ==> StartOf(db, checksum) == |rs|
      ensures outcome.Imported? ==> outcome.records == |rs| - if rebuild then 0 else StartOf(old(db), checksum)
      ensures rebuild && outcome != Died ==>
        && db.rows == Fold(Cleared(old(db).rows, Scopes(rs)), rs)
        && outcome == if AllSurvive(rs) then Imported(|rs|) else Mismatched
      ensures commits > |rs| + 2 ==> outcome != Died
    {
      if !rebuild && db.progress.Some? && db.progress.value.checksum == checksum
         && db.progress.value.status == Succeeded
      {
        assert rs[|rs|..|rs|] == [];
        return AlreadyDone;
      }
      var left := Prepare(rs, checksum, rebuild, commits);
      if left.None? {
        assert !rebuild ==> rs[StartOf(db, checksum)..StartOf(db, checksum)] == [];
        return Died;
      }
      ghost var base := db.rows;
      var first := db.progress.value.cursor;
      left := ImportBatches(rs, checksum, batchSize, left.value);
      if left.None? {
        return Died;
      }
      var ok := Reconcile(rs, checksum, rebuild, left.value, exportedAt);
      if rebuild {
        assert rs[0..|rs|] == rs;
        RebuildExact(old(db).rows, rs);
      }
      outcome := match ok
        case None => Died
        case Some(agreed) => if agreed then Imported(|rs| - first) else Mismatched;
    }
  }
}
