/** How a GovInsights event becomes a write to the read model, and the stored read model. */
module Projection {
  import opened Common
  import opened ReadModel

  /** An event envelope; `mod` is the module its type or aggregate maps to, if any. */
  datatype Event = Event(
    id: Id,
    deletion: bool,
    tenant: Id,
    mod: Option<Module>,
    aggregateKind: string,
    aggregateId: Id,
    at: Time,
    payload: Payload)

  // ---- which fields an event carries ----

  function Get(payload: Payload, key: PayloadKey): Json {
    if key in payload then payload[key] else JsonNull
  }

  predicate Truthy(value: Json) {
    value.Json? && value.truthy
  }

  /** The short-circuiting `or`: the first truthy operand, otherwise the second one. */
  function Or(a: Json, b: Json): Json {
    if Truthy(a) then a else b
  }

  function Parsed(value: Json): Cell {
    if value.Json? then value.cell else Null
  }

  function ParsedIfTruthy(value: Json): Cell {
    if Truthy(value) then Parsed(value) else Null
  }

  function IdentifierOf(p: Payload): Json {
    Or(Get(p, KIdentifier), Get(p, KContractNumber))
  }

  function StatusOf(p: Payload): Json {
    Or(Get(p, KStatus),
       Or(Get(p, KNewStatus),
          Or(Get(p, KProcessingStatus),
             Or(Get(p, KDeliveryStatus), Get(p, KNotificationStatus)))))
  }

  function VersionOf(p: Payload): int {
    if KVersion !in p then 1
    else match Parsed(p[KVersion])
         case Number(n) => Max(1, n)
         case _ => 1
  }

  function KindOf(e: Event): string {
    match ParsedIfTruthy(Get(e.payload, KResourceType))
    case Text(kind) => if kind == "" then e.aggregateKind else kind
    case _ => e.aggregateKind
  }

  function SourceOf(e: Event): Id {
    match ParsedIfTruthy(Get(e.payload, KSourceId))
    case Ref(id) => id
    case _ => e.aggregateId
  }

  function OccurredOf(e: Event): Cell {
    match Parsed(Get(e.payload, KOccurredAt))
    case Instant(at) => Instant(at)
    case _ => Instant(e.at)
  }

  /** The controlled link the payload asks for, or the route of the resource. */
  function LinkOf(e: Event, mod: Module): Cell {
    match ParsedIfTruthy(Get(e.payload, KSourceUrl))
    case Null => Route(mod, KindOf(e), SourceOf(e))
    case link => link
  }

  const UNRESERVED: set<PayloadKey> := {KCourt, KCategory, KDeliveryStatus, KProcessingStatus, KNotificationStatus}

  function AttributesOf(p: Payload): Payload {
    map k | k in p && k in UNRESERVED :: p[k]
  }

  /** Whether an event writes a column at all. */
  predicate Present(e: Event, c: Column) {
    var p := e.payload;
    match c
    case OccurredAt => true
    case SourceUrl => true
    case Identifier => IdentifierOf(p).Json?
    case DisplayLabel => KDisplayLabel in p
    case Status => StatusOf(p).Json?
    case DepartmentId => KDepartmentId in p
    case ResponsibleUserId => KResponsibleUserId in p
    case DueAt => KDueAt in p
    case Amount => KAmount in p
    case Currency => KCurrency in p
    case Attributes => AttributesOf(p) != map[]
    case Deleted => KDeleted in p || e.deletion
  }

  /** What an event writes to a column it carries. */
  function CellFor(e: Event, mod: Module, c: Column): Cell {
    var p := e.payload;
    match c
    case OccurredAt => OccurredOf(e)
    case SourceUrl => LinkOf(e, mod)
    case Identifier => ParsedIfTruthy(IdentifierOf(p))
    case DisplayLabel => ParsedIfTruthy(Get(p, KDisplayLabel))
    case Status => ParsedIfTruthy(StatusOf(p))
    case DepartmentId => ParsedIfTruthy(Get(p, KDepartmentId))
    case ResponsibleUserId => ParsedIfTruthy(Get(p, KResponsibleUserId))
    case DueAt => Parsed(Get(p, KDueAt))
    case Amount => Parsed(Get(p, KAmount))
    case Currency => Parsed(Get(p, KCurrency))
    case Attributes => Attrs(AttributesOf(p))
    case Deleted => Flag(Truthy(Get(p, KDeleted)) || e.deletion)
  }

  function CarriedCells(e: Event, mod: Module): map<Column, Cell> {
    map c: Column | Present(e, c) :: CellFor(e, mod, c)
  }

  function ControlledProjection(e: Event): Option<Values> {
    match e.mod
    case None => None
    case Some(mod) =>
      Some(Values(Key(e.tenant, mod, KindOf(e), SourceOf(e)), Stamp(VersionOf(e.payload), e.at), CarriedCells(e, mod)))
  }

  /** The write an event amounts to. */
  function Project(e: Event): Write {
    Write(e.id, e.at, ControlledProjection(e))
  }

  function ProjectAll(es: seq<Event>): (ws: seq<Write>)
    ensures |ws| == |es|
    ensures forall i :: 0 <= i < |es| ==> ws[i] == Project(es[i])
  {
    seq(|es|, i requires 0 <= i < |es| => Project(es[i]))
  }

  /** The keys that can name a status, the strongest first. */
  const STATUS_KEYS: seq<PayloadKey> := [KStatus, KNewStatus, KProcessingStatus, KDeliveryStatus, KNotificationStatus]

  /** Key number i decides the status: it is truthy and none before it is. */
  predicate DecidesStatus(p: Payload, i: nat) {
    i < |STATUS_KEYS| && Truthy(Get(p, STATUS_KEYS[i])) && forall j :: 0 <= j < i ==> !Truthy(Get(p, STATUS_KEYS[j]))
  }

  /**
   The status column shows what the first truthy of the five keys says. When none is truthy
   it is carried, as null, exactly if the last of them is there and not null.
   */
  lemma StatusPrecedence(e: Event, mod: Module)
    ensures forall i: nat :: DecidesStatus(e.payload, i) ==>
      Status in CarriedCells(e, mod) && CarriedCells(e, mod)[Status] == Parsed(Get(e.payload, STATUS_KEYS[i]))
    ensures (forall i: nat :: !DecidesStatus(e.payload, i)) ==>
      && (Status in CarriedCells(e, mod) <==> Get(e.payload, KNotificationStatus).Json?)
      && (Status in CarriedCells(e, mod) ==> CarriedCells(e, mod)[Status] == Null)
  {
    var p := e.payload;
    forall i: nat | DecidesStatus(p, i)
      ensures StatusOf(p) == Get(p, STATUS_KEYS[i])
    {
      var first, second, third, fourth := STATUS_KEYS[0], STATUS_KEYS[1], STATUS_KEYS[2], STATUS_KEYS[3];
      assert i > 0 ==> !Truthy(Get(p, first));
      assert i > 1 ==> !Truthy(Get(p, second));
      assert i > 2 ==> !Truthy(Get(p, third));
      assert i > 3 ==> !Truthy(Get(p, fourth));
    }
    if Truthy(StatusOf(p)) {
      SomeKeyDecides(p);
    }
  }

  /** A truthy status comes from a deciding key. */
  lemma SomeKeyDecides(p: Payload)
    requires Truthy(StatusOf(p))
    ensures exists i: nat :: DecidesStatus(p, i)
  {
    if Truthy(Get(p, STATUS_KEYS[0])) {
      assert DecidesStatus(p, 0);
    } else if Truthy(Get(p, STATUS_KEYS[1])) {
      assert DecidesStatus(p, 1);
    } else if Truthy(Get(p, STATUS_KEYS[2])) {
      assert DecidesStatus(p, 2);
    } else if Truthy(Get(p, STATUS_KEYS[3])) {
      assert DecidesStatus(p, 3);
    } else {
      assert DecidesStatus(p, 4);
    }
  }

  /**
   The two columns every event writes converge: whatever the order and duplication of the
   deliveries they end as the greatest event wrote them.
   */
  lemma AlwaysWrittenConverge(ds: seq<Event>, events: set<Write>, k: Key, top: Event)
    requires Delivers(ProjectAll(ds), events, k) && OneRow(events, k)
    requires Project(top) in events && Greatest(events, Project(top))
    ensures k in ApplyAll(ProjectAll(ds)).rows
    ensures var row := ApplyAll(ProjectAll(ds)).rows[k];
      && row.stamp == Stamp(VersionOf(top.payload), top.at)
      && OccurredAt in row.cells && row.cells[OccurredAt] == OccurredOf(top)
      && SourceUrl in row.cells && row.cells[SourceUrl] == LinkOf(top, top.mod.value)
  {
    var w := Project(top);
    assert OnKey(w, k);
    Convergence(ProjectAll(ds), events, k, w);
    assert Carries(w, OccurredAt) && Carries(w, SourceUrl);
    assert CellOf(w, OccurredAt) == OccurredOf(top);
    assert CellOf(w, SourceUrl) == LinkOf(top, top.mod.value);
  }

  /** The stored read model, updated in place by the consumer. */
  class Store {
    var rows: map<Key, Row>
    var processed: set<Id>
    var checkpoint: Option<Checkpoint>

    ghost function State(): Model
      reads this
    {
      Model(rows, processed, checkpoint)
    }

    constructor ()
      ensures State() == EMPTY
    {
      rows, processed, checkpoint := map[], {}, None;
    }

    /** Sets the carried columns of a row one by one. */
    method SetColumns(row: Row, v: Values) returns (updated: Row)
      ensures updated == Row(v.stamp, row.cells + v.cells)
    {
      var cells := row.cells;
      var todo := v.cells.Keys;
      while todo != {}
        invariant todo <= v.cells.Keys
        invariant cells == row.cells + (map c | c in v.cells.Keys - todo :: v.cells[c])
        decreases todo
      {
        var column :| column in todo;
        cells := cells[column := v.cells[column]];
        todo := todo - {column};
      }
      assert (map c | c in v.cells.Keys - {} :: v.cells[c]) == v.cells;
      updated := Row(v.stamp, cells);
    }

    /** Applies one delivery in one transaction; false when the event was already processed. */
    method ApplyEvent(e: Event) returns (applied: bool)
      modifies this
      ensures State() == Apply(old(State()), Project(e))
      ensures applied == (e.id !in old(processed))
    {
      if e.id in processed {
        return false;
      }
      var values := ControlledProjection(e);
      if values.Some? {
        var v := values.value;
        if v.key !in rows {
          var inserted := SetColumns(Row(v.stamp, DEFAULTS), v);
          rows := rows[v.key := inserted];
        } else {
          var existing := rows[v.key];
          if v.stamp.version > existing.stamp.version
             || (v.stamp.version == existing.stamp.version && v.stamp.at >= existing.stamp.at)
          {
            var updated := SetColumns(existing, v);
            rows := rows[v.key := updated];
          } else {
            assert rows == rows[v.key := existing];
          }
        }
      }
      processed := processed + {e.id};
      match checkpoint {
        case None =>
          checkpoint := Some(Checkpoint(Some(e.at), 1, 0, if values.Some? then 1 else 0));
        case Some(c) =>
          var version := if values.Some? then c.projectionVersion + 1 else c.projectionVersion;
          checkpoint := Some(Checkpoint(Some(e.at), c.processedCount + 1, c.failedCount, version));
      }
      return true;
    }
  }
}
