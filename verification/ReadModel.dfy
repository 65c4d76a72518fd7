/**
 The GovInsights read model as a merge structure: one write merged into the projection
 table, and what a whole history of writes leaves behind in any order and duplication.
 */
module ReadModel {
  import opened Common

  datatype Module = Legal | Contracts | Documents | Notifications | Platform

  /** The unique key of a projected resource. */
  datatype Key = Key(tenant: Id, mod: Module, kind: string, source: Id)

  /** The payload keys the projection looks at; all but the last two are allowed metadata. */
  datatype PayloadKey =
    | KIdentifier | KDisplayLabel | KStatus | KDepartmentId | KResponsibleUserId | KOccurredAt | KDueAt
    | KAmount | KCurrency | KVersion | KDeleted | KCourt | KCategory | KDeliveryStatus | KProcessingStatus
    | KNotificationStatus | KResourceType | KSourceId | KSourceUrl
    | KContractNumber | KNewStatus

  /**
   A payload value: its truth value and what the parser of its key makes of it (`Null` when
   that parser gives up). The JSON null is falsy and parses to nothing.
   */
  datatype Json = JsonNull | Json(truthy: bool, cell: Cell)

  datatype Cell =
    | Null
    | Text(text: string)
    | Ref(id: Id)
    | Instant(at: Time)
    | Money(cents: int)
    | Number(n: int)
    | Flag(on: bool)
    | Route(mod: Module, kind: string, source: Id)
    | Attrs(entries: map<PayloadKey, Json>)

  type Payload = map<PayloadKey, Json>

  datatype Column =
    | Identifier | DisplayLabel | Status | DepartmentId | ResponsibleUserId | OccurredAt | DueAt
    | Amount | Currency | SourceUrl | Attributes | Deleted

  /** What decides between two events on one row: the source version, then the event time. */
  datatype Stamp = Stamp(version: int, at: Time)

  predicate AtMost(a: Stamp, b: Stamp) {
    a.version < b.version || (a.version == b.version && a.at <= b.at)
  }

  /** The values one event writes: its key, its stamp and the columns it carries. */
  datatype Values = Values(key: Key, stamp: Stamp, cells: map<Column, Cell>)

  /** What the consumer hands to the merge: the event's id and time, and its values if it maps to a module. */
  datatype Write = Write(id: Id, at: Time, values: Option<Values>)

  datatype Row = Row(stamp: Stamp, cells: map<Column, Cell>)

  datatype Checkpoint = Checkpoint(lastEventAt: Option<Time>, processedCount: nat, failedCount: nat, projectionVersion: nat)

  datatype Model = Model(rows: map<Key, Row>, processed: set<Id>, checkpoint: Option<Checkpoint>)

  // ---- merging one event ----

  /** What a column holds in a freshly inserted row when the event does not carry it. */
  function Default(c: Column): Cell {
    match c
    case Attributes => Attrs(map[])
    case Deleted => Flag(false)
    case _ => Null
  }

  const DEFAULTS: map<Column, Cell> := map c: Column | true :: Default(c)

  function Merge(row: Option<Row>, v: Values): Row {
    match row
    case None => Row(v.stamp, DEFAULTS + v.cells)
    case Some(current) => if AtMost(current.stamp, v.stamp) then Row(v.stamp, current.cells + v.cells) else current
  }

  function Lookup(rows: map<Key, Row>, k: Key): Option<Row> {
    if k in rows then Some(rows[k]) else None
  }

  function Counted(checkpoint: Option<Checkpoint>, at: Time, mapped: bool): Checkpoint {
    var bump := if mapped then 1 else 0;
    match checkpoint
    case None => Checkpoint(Some(at), 1, 0, bump)
    case Some(c) => Checkpoint(Some(at), c.processedCount + 1, c.failedCount, c.projectionVersion + bump)
  }

  function Apply(m: Model, e: Write): Model {
    if e.id in m.processed then m
    else
      var values := e.values;
      var rows := match values
        case None => m.rows
        case Some(v) => m.rows[v.key := Merge(Lookup(m.rows, v.key), v)];
      Model(rows, m.processed + {e.id}, Some(Counted(m.checkpoint, e.at, values.Some?)))
  }

  const EMPTY: Model := Model(map[], {}, None)

  /** The read model after a history of deliveries, duplicates included. */
  function ApplyAll(ds: seq<Write>): Model {
    if |ds| == 0 then EMPTY else Apply(ApplyAll(Front(ds)), Last(ds))
  }

  // ---- what a history of deliveries leaves behind ----

  predicate OnKey(e: Write, k: Key) {
    e.values.Some? && e.values.value.key == k
  }

  function StampOf(e: Write): Stamp
    requires e.values.Some?
  {
    e.values.value.stamp
  }

  predicate Carries(e: Write, c: Column) {
    e.values.Some? && c in e.values.value.cells
  }

  function CellOf(e: Write, c: Column): Cell
    requires Carries(e, c)
  {
    e.values.value.cells[c]
  }

  /** Delivery i is the first one of its event. */
  predicate FirstAt(ds: seq<Write>, i: nat) {
    i < |ds| && forall j :: 0 <= j < i ==> ds[j].id != ds[i].id
  }

  /** Delivery i is new, concerns row k, and no earlier event on the row outranks it. */
  predicate Accepted(ds: seq<Write>, i: nat, k: Key) {
    && FirstAt(ds, i)
    && OnKey(ds[i], k)
    && forall j: nat :: j < i && FirstAt(ds, j) && OnKey(ds[j], k) ==> AtMost(StampOf(ds[j]), StampOf(ds[i]))
  }

  predicate Contributes(ds: seq<Write>, i: nat, k: Key, c: Column) {
    Accepted(ds, i, k) && Carries(ds[i], c)
  }

  lemma PrefixAgrees(ds: seq<Write>, i: nat, k: Key)
    requires i < |ds| - 1
    ensures FirstAt(Front(ds), i) == FirstAt(ds, i)
    ensures Accepted(Front(ds), i, k) == Accepted(ds, i, k)
  {
    var p := Front(ds);
    forall j: nat | j <= i
      ensures FirstAt(p, j) == FirstAt(ds, j)
    {
    }
  }

  lemma {:induction false} ProcessedIds(ds: seq<Write>)
    ensures ApplyAll(ds).processed == set i | 0 <= i < |ds| :: ds[i].id
  {
    if |ds| > 0 {
      ProcessedIds(Front(ds));
      var p := Front(ds);
      assert forall i :: 0 <= i < |p| ==> p[i] == ds[i];
      assert (set i | 0 <= i < |ds| :: ds[i].id) == (set i | 0 <= i < |p| :: p[i].id) + {Last(ds).id};
    }
  }

  lemma LastIsFirst(ds: seq<Write>)
    requires |ds| > 0
    ensures FirstAt(ds, |ds| - 1) <==> Last(ds).id !in ApplyAll(Front(ds)).processed
  {
    ProcessedIds(Front(ds));
    var p := Front(ds);
    if !FirstAt(ds, |ds| - 1) {
      var j :| 0 <= j < |ds| - 1 && ds[j].id == Last(ds).id;
      assert p[j].id == Last(ds).id;
    }
  }

  /** What the last delivery does to the stamp of a row. */
  lemma StampStep(ds: seq<Write>, k: Key)
    requires |ds| > 0
    ensures var p, rows := ApplyAll(Front(ds)).rows, ApplyAll(ds).rows;
      if FirstAt(ds, |ds| - 1) && OnKey(Last(ds), k) then
        && k in rows
        && rows[k].stamp == if k in p && !AtMost(p[k].stamp, StampOf(Last(ds))) then p[k].stamp else StampOf(Last(ds))
      else
        && (k in rows <==> k in p)
        && (k in rows ==> rows[k].stamp == p[k].stamp)
  {
    LastIsFirst(ds);
  }

  /** No delivery for a key has a greater stamp than its row. */
  lemma {:induction false} RowStampAtLeast(ds: seq<Write>, k: Key, i: nat)
    requires FirstAt(ds, i) && OnKey(ds[i], k)
    ensures k in ApplyAll(ds).rows && AtMost(StampOf(ds[i]), ApplyAll(ds).rows[k].stamp)
  {
    StampStep(ds, k);
    if i < |ds| - 1 {
      PrefixAgrees(ds, i, k);
      RowStampAtLeast(Front(ds), k, i);
    }
  }

  /** The stamp of a row is that of a delivery accepted for it. */
  lemma {:induction false} RowStampOfAccepted(ds: seq<Write>, k: Key) returns (i: nat)
    requires k in ApplyAll(ds).rows
    ensures Accepted(ds, i, k) && ApplyAll(ds).rows[k].stamp == StampOf(ds[i])
  {
    var n := |ds| - 1;
    StampStep(ds, k);
    if FirstAt(ds, n) && OnKey(ds[n], k) && ApplyAll(ds).rows[k].stamp == StampOf(ds[n]) {
      i := n;
      forall j: nat | j < n && FirstAt(ds, j) && OnKey(ds[j], k)
        ensures AtMost(StampOf(ds[j]), StampOf(ds[n]))
      {
        RowStampAtLeast(ds, k, j);
      }
    } else {
      i := RowStampOfAccepted(Front(ds), k);
      PrefixAgrees(ds, i, k);
    }
  }

  /** The stamp of a row is the greatest stamp among the distinct events delivered for it. */
  lemma RowStamp(ds: seq<Write>, k: Key)
    ensures k in ApplyAll(ds).rows <==> exists i: nat :: FirstAt(ds, i) && OnKey(ds[i], k)
    ensures k in ApplyAll(ds).rows ==>
      && (exists i: nat :: Accepted(ds, i, k) && ApplyAll(ds).rows[k].stamp == StampOf(ds[i]))
      && (forall i: nat :: FirstAt(ds, i) && OnKey(ds[i], k) ==> AtMost(StampOf(ds[i]), ApplyAll(ds).rows[k].stamp))
  {
    forall i: nat | FirstAt(ds, i) && OnKey(ds[i], k)
      ensures k in ApplyAll(ds).rows && AtMost(StampOf(ds[i]), ApplyAll(ds).rows[k].stamp)
    {
      RowStampAtLeast(ds, k, i);
    }
    if k in ApplyAll(ds).rows {
      var i := RowStampOfAccepted(ds, k);
      assert FirstAt(ds, i) && OnKey(ds[i], k);
    }
  }

  /** src names the last accepted delivery that carries column c of row k, if there is one. */
  ghost predicate IsSource(ds: seq<Write>, k: Key, c: Column, src: Option<nat>) {
    match src
    case None => forall i: nat :: !Contributes(ds, i, k, c)
    case Some(w) => Contributes(ds, w, k, c) && forall i: nat :: i > w ==> !Contributes(ds, i, k, c)
  }

  lemma {:induction false} SourceExists(ds: seq<Write>, k: Key, c: Column, n: nat) returns (src: Option<nat>)
    requires forall i: nat :: i >= n ==> !Contributes(ds, i, k, c)
    ensures IsSource(ds, k, c, src)
    decreases n
  {
    if n == 0 {
      src := None;
    } else if Contributes(ds, n - 1, k, c) {
      src := Some(n - 1);
    } else {
      src := SourceExists(ds, k, c, n - 1);
    }
  }

  /** A new delivery on row k is accepted exactly when the row's stamp does not outrank it. */
  lemma LastAccepted(ds: seq<Write>, k: Key)
    requires |ds| > 0
    ensures Accepted(ds, |ds| - 1, k) <==>
      && FirstAt(ds, |ds| - 1)
      && OnKey(Last(ds), k)
      && (k in ApplyAll(Front(ds)).rows ==> AtMost(ApplyAll(Front(ds)).rows[k].stamp, StampOf(Last(ds))))
  {
    var p, n := Front(ds), |ds| - 1;
    RowStamp(p, k);
    forall i: nat | i < n
      ensures FirstAt(p, i) == FirstAt(ds, i)
    {
      PrefixAgrees(ds, i, k);
    }
    if k in ApplyAll(p).rows {
      var w: nat :| Accepted(p, w, k) && ApplyAll(p).rows[k].stamp == StampOf(p[w]);
      assert FirstAt(ds, w) && OnKey(ds[w], k);
      forall j: nat | j < n && FirstAt(ds, j) && OnKey(ds[j], k)
        ensures AtMost(StampOf(ds[j]), StampOf(p[w]))
      {
        assert FirstAt(p, j);
      }
    } else {
      forall j: nat | j < n
        ensures !(FirstAt(ds, j) && OnKey(ds[j], k))
      {
        assert FirstAt(p, j) == FirstAt(ds, j);
      }
    }
  }

  /** What a new write on row k leaves in one column. */
  lemma AppliedCell(m: Model, e: Write, k: Key, c: Column)
    requires e.id !in m.processed && OnKey(e, k)
    requires k in m.rows ==> c in m.rows[k].cells
    ensures k in Apply(m, e).rows && c in Apply(m, e).rows[k].cells
    ensures Apply(m, e).rows[k].cells[c] ==
      if k in m.rows && !AtMost(m.rows[k].stamp, StampOf(e)) then m.rows[k].cells[c]
      else if Carries(e, c) then CellOf(e, c)
      else if k in m.rows then m.rows[k].cells[c]
      else Default(c)
  {
    assert DEFAULTS[c] == Default(c);
  }

  lemma PrefixSource(ds: seq<Write>, k: Key, c: Column, src: Option<nat>)
    requires |ds| > 0 && IsSource(ds, k, c, src) && src != Some(|ds| - 1)
    ensures IsSource(Front(ds), k, c, src) && !Contributes(ds, |ds| - 1, k, c)
  {
    var p, n := Front(ds), |ds| - 1;
    forall i: nat | i < n
      ensures Contributes(p, i, k, c) == Contributes(ds, i, k, c)
    {
      PrefixAgrees(ds, i, k);
    }
  }

  /**
   Where each column of a row comes from, for any order and any duplication of deliveries:
   the last accepted delivery that carries the column, or the default when there is none.
   */
  lemma {:induction false} ColumnSource(ds: seq<Write>, k: Key, c: Column, src: Option<nat>)
    requires k in ApplyAll(ds).rows && IsSource(ds, k, c, src)
    ensures c in ApplyAll(ds).rows[k].cells
    ensures ApplyAll(ds).rows[k].cells[c] == if src.Some? then CellOf(ds[src.value], c) else Default(c)
  {
    var p, n := Front(ds), |ds| - 1;
    var m, e := ApplyAll(p), Last(ds);
    LastIsFirst(ds);
    LastAccepted(ds, k);
    RowsComplete(p, k, c);
    if src == Some(n) {
      AppliedCell(m, e, k, c);
    } else if k in m.rows {
      PrefixSource(ds, k, c, src);
      ColumnSource(p, k, c, src);
      if e.id !in m.processed && OnKey(e, k) {
        AppliedCell(m, e, k, c);
      }
    } else {
      FirstOnRow(ds, k, c, src);
      AppliedCell(m, e, k, c);
    }
  }

  /** Every row has every column. */
  lemma {:induction false} RowsComplete(ds: seq<Write>, k: Key, c: Column)
    ensures k in ApplyAll(ds).rows ==> c in ApplyAll(ds).rows[k].cells
  {
    if |ds| > 0 {
      RowsComplete(Front(ds), k, c);
      assert c in DEFAULTS;
    }
  }

  lemma FirstOnRow(ds: seq<Write>, k: Key, c: Column, src: Option<nat>)
    requires |ds| > 0 && k !in ApplyAll(Front(ds)).rows && IsSource(ds, k, c, src)
    requires Accepted(ds, |ds| - 1, k)
    ensures src == if Carries(Last(ds), c) then Some(|ds| - 1) else None
  {
    var p, n := Front(ds), |ds| - 1;
    RowStamp(p, k);
    forall i: nat | i < n
      ensures !Contributes(ds, i, k, c)
    {
      PrefixAgrees(ds, i, k);
    }
    assert Contributes(ds, n, k, c) <==> Carries(ds[n], c);
  }

  /** Two deliveries of one event id carry the same event. */
  predicate Coherent(ds: seq<Write>) {
    forall i, j :: 0 <= i < |ds| && 0 <= j < |ds| && ds[i].id == ds[j].id ==> ds[i] == ds[j]
  }

  lemma {:induction false} FirstOccurrence(ds: seq<Write>, i: nat) returns (f: nat)
    requires i < |ds| && Coherent(ds)
    ensures f <= i && FirstAt(ds, f) && ds[f] == ds[i]
  {
    if FirstAt(ds, i) {
      f := i;
    } else {
      var j :| 0 <= j < i && ds[j].id == ds[i].id;
      f := FirstOccurrence(ds, j);
    }
  }

  /** In-order deliveries of the distinct events on row k. */
  ghost predicate InOrder(ds: seq<Write>, k: Key) {
    forall i: nat, j: nat :: i < j && FirstAt(ds, i) && FirstAt(ds, j) && OnKey(ds[i], k) && OnKey(ds[j], k)
      ==> AtMost(StampOf(ds[i]), StampOf(ds[j]))
  }

  /** Under in-order delivery a column holds what the last event carrying it said. */
  lemma InOrderColumn(ds: seq<Write>, k: Key, c: Column, i: nat)
    requires InOrder(ds, k)
    requires FirstAt(ds, i) && OnKey(ds[i], k) && Carries(ds[i], c)
    requires forall j: nat :: j > i && FirstAt(ds, j) && OnKey(ds[j], k) ==> !Carries(ds[j], c)
    ensures k in ApplyAll(ds).rows && c in ApplyAll(ds).rows[k].cells
    ensures ApplyAll(ds).rows[k].cells[c] == CellOf(ds[i], c)
  {
    RowStamp(ds, k);
    assert Contributes(ds, i, k, c);
    ColumnSource(ds, k, c, Some(i));
  }

  // ---- convergence under reordering and duplication ----

  /**
   The writes ds holds for row k are exactly `events`, in some order, each at least once;
   writes to other rows may stand between them.
   */
  ghost predicate Delivers(ds: seq<Write>, events: set<Write>, k: Key) {
    Coherent(ds) && events == set e | e in ds && OnKey(e, k)
  }

  /** Events of one row with distinct ids and distinct stamps. */
  ghost predicate OneRow(events: set<Write>, k: Key) {
    && (forall e | e in events :: OnKey(e, k))
    && (forall e, f | e in events && f in events && e != f :: e.id != f.id && StampOf(e) != StampOf(f))
  }

  ghost predicate Greatest(events: set<Write>, top: Write)
    requires forall e | e in events :: e.values.Some?
  {
    top in events && forall e | e in events :: AtMost(StampOf(e), StampOf(top))
  }

  /** Nothing delivered after the greatest event is accepted, save the event itself. */
  lemma NothingAfterGreatest(ds: seq<Write>, events: set<Write>, k: Key, top: Write, t: nat)
    requires Delivers(ds, events, k) && OneRow(events, k) && Greatest(events, top)
    requires FirstAt(ds, t) && ds[t] == top
    ensures Accepted(ds, t, k)
    ensures forall i: nat :: Accepted(ds, i, k) ==> i <= t
  {
    forall i: nat | Accepted(ds, i, k)
      ensures i <= t
    {
      assert ds[i] in events;
    }
  }

  /**
   Whatever the order and duplication, the row ends with the greatest stamp, and every
   column the greatest event carries is that event's.
   */
  lemma Convergence(ds: seq<Write>, events: set<Write>, k: Key, top: Write)
    requires Delivers(ds, events, k) && OneRow(events, k) && Greatest(events, top)
    ensures k in ApplyAll(ds).rows
    ensures ApplyAll(ds).rows[k].stamp == StampOf(top)
    ensures forall c :: Carries(top, c) ==>
      c in ApplyAll(ds).rows[k].cells && ApplyAll(ds).rows[k].cells[c] == CellOf(top, c)
  {
    assert top in ds;
    var i :| 0 <= i < |ds| && ds[i] == top;
    var t := FirstOccurrence(ds, i);
    NothingAfterGreatest(ds, events, k, top, t);
    RowStamp(ds, k);
    forall c: Column | Carries(top, c)
      ensures c in ApplyAll(ds).rows[k].cells && ApplyAll(ds).rows[k].cells[c] == CellOf(top, c)
    {
      assert Contributes(ds, t, k, c);
      ColumnSource(ds, k, c, Some(t));
    }
  }

  function CellAfter(ds: seq<Write>, k: Key, c: Column): Option<Cell> {
    var rows := ApplyAll(ds).rows;
    if k in rows && c in rows[k].cells then Some(rows[k].cells[c]) else None
  }

  // ---- in-order delivery of a source's writes ----

  /** pos[i] is the first delivery of write i; they are in order and row k has no other writes. */
  predicate DeliveredInOrder(ds: seq<Write>, k: Key, ws: seq<Write>, pos: seq<nat>) {
    && |pos| == |ws|
    && (forall i :: 0 <= i < |pos| ==> FirstAt(ds, pos[i]) && ds[pos[i]] == ws[i])
    && (forall i, j :: 0 <= i < j < |pos| ==> pos[i] < pos[j])
    && (forall d :: 0 <= d < |ds| && FirstAt(ds, d) && OnKey(ds[d], k) ==> d in pos)
  }

  /** The source stamps its writes to row k in a non-decreasing order. */
  predicate StampsOrdered(ws: seq<Write>, k: Key) {
    forall i, j :: 0 <= i < j < |ws| && OnKey(ws[i], k) && OnKey(ws[j], k) ==> AtMost(StampOf(ws[i]), StampOf(ws[j]))
  }

  /** Delivered in order, a column shows what the source's last write carrying it says. */
  lemma DrainedColumn(ds: seq<Write>, k: Key, ws: seq<Write>, pos: seq<nat>, i: nat, c: Column)
    requires DeliveredInOrder(ds, k, ws, pos) && StampsOrdered(ws, k)
    requires i < |ws| && OnKey(ws[i], k) && Carries(ws[i], c)
    requires forall j :: i < j < |ws| && OnKey(ws[j], k) ==> !Carries(ws[j], c)
    ensures CellAfter(ds, k, c) == Some(CellOf(ws[i], c))
  {
    forall d: nat, f: nat | d < f && FirstAt(ds, d) && FirstAt(ds, f) && OnKey(ds[d], k) && OnKey(ds[f], k)
      ensures AtMost(StampOf(ds[d]), StampOf(ds[f]))
    {
      var a :| 0 <= a < |pos| && pos[a] == d;
      var b :| 0 <= b < |pos| && pos[b] == f;
      PositionsOrdered(pos, a, b);
    }
    forall d: nat | d > pos[i] && FirstAt(ds, d) && OnKey(ds[d], k)
      ensures !Carries(ds[d], c)
    {
      var j :| 0 <= j < |pos| && pos[j] == d;
      PositionsOrdered(pos, i, j);
    }
    InOrderColumn(ds, k, c, pos[i]);
  }

  lemma PositionsOrdered(pos: seq<nat>, a: nat, b: nat)
    requires a < |pos| && b < |pos| && pos[a] < pos[b]
    requires forall i, j :: 0 <= i < j < |pos| ==> pos[i] < pos[j]
    ensures a < b
  {
  }

  /** Column c of row k ends the same whatever the order and duplication of the deliveries. */
  ghost predicate OrderIndependent(events: set<Write>, k: Key, c: Column) {
    forall ds1: seq<Write>, ds2: seq<Write> ::
      Delivers(ds1, events, k) && Delivers(ds2, events, k) ==> CellAfter(ds1, k, c) == CellAfter(ds2, k, c)
  }

  /** A listing that delivers e, then the greatest event, then everything. */
  lemma EarlyListing(events: set<Write>, k: Key, top: Write, e: Write) returns (ds: seq<Write>)
    requires OneRow(events, k) && top in events && e in events
    ensures Delivers(ds, events, k) && |ds| >= 2 && ds[0] == e && ds[1] == top
  {
    var listing := ListSet(events);
    ds := [e, top] + listing;
    forall x
      ensures x in ds <==> x in events
    {
      assert x in ds <==> x == e || x == top || x in Elements(listing);
    }
  }

  /** Delivered that way, a column the greatest event does not carry shows what e said of it. */
  lemma GreatestEarly(events: set<Write>, k: Key, c: Column, top: Write, e: Write) returns (ds: seq<Write>)
    requires OneRow(events, k) && Greatest(events, top) && !Carries(top, c)
    requires e in events
    ensures Delivers(ds, events, k)
    ensures CellAfter(ds, k, c) == Some(if Carries(e, c) then CellOf(e, c) else Default(c))
  {
    ds := EarlyListing(events, k, top, e);
    RowStamp(ds, k);
    assert FirstAt(ds, 0) && OnKey(ds[0], k);
    assert Accepted(ds, 0, k);
    var t := if e == top then 0 else 1;
    assert FirstAt(ds, t);
    NothingAfterGreatest(ds, events, k, top, t);
    assert forall i: nat :: Contributes(ds, i, k, c) ==> i == 0;
    ColumnSource(ds, k, c, if Carries(e, c) then Some(0) else None);
  }

  /**
   Optional columns do not converge in general. They do exactly when the greatest event
   carries the column, or every event that carries it writes the default.
   */
  lemma OrderIndependence(events: set<Write>, k: Key, c: Column, top: Write)
    requires OneRow(events, k) && Greatest(events, top)
    ensures OrderIndependent(events, k, c) <==>
      Carries(top, c) || forall e | e in events && Carries(e, c) :: CellOf(e, c) == Default(c)
  {
    if Carries(top, c) {
      forall ds: seq<Write> | Delivers(ds, events, k)
        ensures CellAfter(ds, k, c) == Some(CellOf(top, c))
      {
        Convergence(ds, events, k, top);
      }
    } else if forall e | e in events && Carries(e, c) :: CellOf(e, c) == Default(c) {
      forall ds: seq<Write> | Delivers(ds, events, k)
        ensures CellAfter(ds, k, c) == Some(Default(c))
      {
        OnlyDefaults(ds, events, k, c, top);
      }
    } else {
      var e :| e in events && Carries(e, c) && CellOf(e, c) != Default(c);
      var ds1 := GreatestEarly(events, k, c, top, e);
      var ds2 := GreatestEarly(events, k, c, top, top);
      assert CellAfter(ds1, k, c) != CellAfter(ds2, k, c);
    }
  }

  lemma OnlyDefaults(ds: seq<Write>, events: set<Write>, k: Key, c: Column, top: Write)
    requires Delivers(ds, events, k) && OneRow(events, k) && Greatest(events, top)
    requires forall e | e in events && Carries(e, c) :: CellOf(e, c) == Default(c)
    ensures CellAfter(ds, k, c) == Some(Default(c))
  {
    Convergence(ds, events, k, top);
    var src := SourceExists(ds, k, c, |ds|);
    ColumnSource(ds, k, c, src);
  }

  // ---- rows are independent, counters are exact ----

  /** The deliveries that concern row k or repeat an id; other events leave the row alone. */
  lemma OtherRowsUntouched(m: Model, e: Write, k: Key)
    requires !OnKey(e, k)
    ensures Lookup(Apply(m, e).rows, k) == Lookup(m.rows, k)
  {
  }

  /** How many of the distinct delivered events map to a module. */
  function MappedCount(ds: seq<Write>): nat {
    if |ds| == 0 then 0
    else MappedCount(Front(ds)) + (if FirstAt(ds, |ds| - 1) && Last(ds).values.Some? then 1 else 0)
  }

  /**
   After any history the processed counter equals the number of processed-event rows and the
   projection version the number of those that map to a module.
   */
  lemma {:induction false} CountersExact(ds: seq<Write>)
    ensures var m := ApplyAll(ds);
      && (m.checkpoint.None? <==> ds == [])
      && (m.checkpoint.Some? ==>
            && m.checkpoint.value.processedCount == |m.processed|
            && m.checkpoint.value.failedCount == 0
            && m.checkpoint.value.projectionVersion == MappedCount(ds))
  {
    if |ds| > 0 {
      CountersExact(Front(ds));
      LastIsFirst(ds);
      ProcessedIds(ds);
      if |ds| == 1 {
        assert ApplyAll(Front(ds)) == EMPTY;
      }
    }
  }

  /** Redelivering anything already processed changes nothing at all. */
  lemma {:induction false} DuplicatesIgnored(ds: seq<Write>, more: seq<Write>)
    requires forall i :: 0 <= i < |more| ==> more[i].id in ApplyAll(ds).processed
    ensures ApplyAll(ds + more) == ApplyAll(ds)
  {
    if |more| == 0 {
      assert ds + more == ds;
    } else {
      DuplicatesIgnored(ds, Front(more));
      assert Front(ds + more) == ds + Front(more);
      assert Last(more) == more[|more| - 1];
    }
  }
}
