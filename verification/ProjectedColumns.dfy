/**
 What the read model shows of a history of event deliveries, column by column and in terms
 of the events' own fields: which delivery speaks last, and what it says.
 */
module ProjectedColumns {
  import opened Common
  import opened ReadModel
  import opened Projection

  // ---- which row an event is for, and whether it is taken ----

  /** The payload names a resource type, or a source, of its own. */
  predicate NamesKind(p: Payload, kind: string) {
    kind != "" && KResourceType in p && p[KResourceType] == Json(true, Text(kind))
  }

  predicate NamesSource(p: Payload, source: Id) {
    KSourceId in p && p[KSourceId] == Json(true, Ref(source))
  }

  predicate NamesVersion(p: Payload, version: int) {
    KVersion in p && p[KVersion].Json? && p[KVersion].cell == Number(version)
  }

  /**
   An event writes at all exactly if it maps to a module. Its row is that of the kind and
   source its payload names, else of its aggregate; its version is the one the payload
   names, but at least 1, and 1 if it names none; its time is the event's.
   */
  lemma WrittenTo(e: Event)
    ensures Project(e).id == e.id && Project(e).at == e.at
    ensures Project(e).values.Some? <==> e.mod.Some?
    ensures e.mod.Some? ==>
      var key, stamp := Project(e).values.value.key, StampOf(Project(e));
      && key.tenant == e.tenant && key.mod == e.mod.value
      && (forall kind :: NamesKind(e.payload, kind) ==> key.kind == kind)
      && ((forall kind :: !NamesKind(e.payload, kind)) ==> key.kind == e.aggregateKind)
      && (forall source :: NamesSource(e.payload, source) ==> key.source == source)
      && ((forall source :: !NamesSource(e.payload, source)) ==> key.source == e.aggregateId)
      && (forall n :: NamesVersion(e.payload, n) ==> stamp.version == if n < 1 then 1 else n)
      && ((forall n :: !NamesVersion(e.payload, n)) ==> stamp.version == 1)
      && stamp.at == e.at
  {
    var p := e.payload;
    if KResourceType in p && p[KResourceType].Json? && p[KResourceType].truthy && p[KResourceType].cell.Text? {
      assert p[KResourceType].cell.text != "" ==> NamesKind(p, p[KResourceType].cell.text);
    }
    if KSourceId in p && p[KSourceId].Json? && p[KSourceId].truthy && p[KSourceId].cell.Ref? {
      assert NamesSource(p, p[KSourceId].cell.id);
    }
    if KVersion in p && p[KVersion].Json? && p[KVersion].cell.Number? {
      assert NamesVersion(p, p[KVersion].cell.n);
    }
  }

  /**
   A delivery is taken exactly if its event is new and the row is too, or the stored version
   is lower, or it is the same and the stored event is not younger.
   */
  lemma TakenExactly(ds: seq<Event>, k: Key)
    requires |ds| > 0 && OnKey(Project(Last(ds)), k)
    ensures var e, rows := Project(Last(ds)), ApplyAll(ProjectAll(Front(ds))).rows;
      Accepted(ProjectAll(ds), |ds| - 1, k) <==>
        && (forall j :: 0 <= j < |ds| - 1 ==> ds[j].id != Last(ds).id)
        && (k !in rows || rows[k].stamp.version < StampOf(e).version
            || (rows[k].stamp.version == StampOf(e).version && rows[k].stamp.at <= Last(ds).at))
  {
    var ws := ProjectAll(ds);
    assert Front(ws) == ProjectAll(Front(ds));
    LastAccepted(ws, k);
    assert forall j :: 0 <= j < |ds| - 1 ==> ws[j].id == ds[j].id;
  }

  // ---- who speaks last of a column ----

  /** src is the last delivery taken on row k that speaks, if any does. */
  ghost predicate LastVoice(ds: seq<Event>, k: Key, speaks: Event -> bool, src: Option<nat>) {
    match src
    case None => forall i: nat :: i < |ds| && Accepted(ProjectAll(ds), i, k) ==> !speaks(ds[i])
    case Some(v) =>
      && v < |ds| && Accepted(ProjectAll(ds), v, k) && speaks(ds[v])
      && forall i: nat :: v < i < |ds| && Accepted(ProjectAll(ds), i, k) ==> !speaks(ds[i])
  }

  lemma {:induction false} VoiceUpTo(ds: seq<Event>, k: Key, speaks: Event -> bool, n: nat) returns (src: Option<nat>)
    requires n <= |ds| && forall i: nat :: n <= i < |ds| && Accepted(ProjectAll(ds), i, k) ==> !speaks(ds[i])
    ensures LastVoice(ds, k, speaks, src)
    decreases n
  {
    if n == 0 {
      src := None;
    } else if Accepted(ProjectAll(ds), n - 1, k) && speaks(ds[n - 1]) {
      src := Some(n - 1);
    } else {
      src := VoiceUpTo(ds, k, speaks, n - 1);
    }
  }

  /** There always is a last voice, or none. */
  lemma SomeVoice(ds: seq<Event>, k: Key, speaks: Event -> bool) returns (src: Option<nat>)
    ensures LastVoice(ds, k, speaks, src)
  {
    src := VoiceUpTo(ds, k, speaks, |ds|);
  }

  /** The cell of a column after a history. */
  function CellIn(ds: seq<Event>, k: Key, c: Column): Option<Cell> {
    var rows := ApplyAll(ProjectAll(ds)).rows;
    if k in rows && c in rows[k].cells then Some(rows[k].cells[c]) else None
  }

  /** The voice of a column decides it. */
  lemma VoiceDecides(ds: seq<Event>, k: Key, c: Column, speaks: Event -> bool, src: Option<nat>)
    requires k in ApplyAll(ProjectAll(ds)).rows && LastVoice(ds, k, speaks, src)
    requires forall e :: speaks(e) <==> Present(e, c)
    ensures src.None? ==> CellIn(ds, k, c) == Some(Default(c))
    ensures src.Some? ==> ds[src.value].mod == Some(k.mod) && CellIn(ds, k, c) == Some(CellFor(ds[src.value], k.mod, c))
    ensures src.Some? ==> KindOf(ds[src.value]) == k.kind && SourceOf(ds[src.value]) == k.source
  {
    var ws := ProjectAll(ds);
    forall i: nat | i < |ds| && Accepted(ws, i, k)
      ensures Contributes(ws, i, k, c) <==> speaks(ds[i])
    {
      assert ws[i] == Project(ds[i]);
    }
    assert IsSource(ws, k, c, src);
    ColumnSource(ws, k, c, src);
  }

  // ---- deletion ----

  predicate SpeaksOfDeletion(e: Event) {
    e.deletion || KDeleted in e.payload
  }

  predicate SaysDeleted(e: Event) {
    e.deletion || (KDeleted in e.payload && e.payload[KDeleted].Json? && e.payload[KDeleted].truthy)
  }

  /**
   A row is shown as deleted exactly if the last delivery taken on it that speaks of deletion
   is of a deleting event or carries a truthy flag; it is live if none speaks of it.
   */
  lemma DeletedColumn(ds: seq<Event>, k: Key, src: Option<nat>)
    requires k in ApplyAll(ProjectAll(ds)).rows && LastVoice(ds, k, SpeaksOfDeletion, src)
    ensures CellIn(ds, k, Deleted) == Some(Flag(src.Some? && SaysDeleted(ds[src.value])))
  {
    VoiceDecides(ds, k, Deleted, SpeaksOfDeletion, src);
  }

  /** A deleting event that outranks everything delivered on its row deletes it, whatever its payload. */
  lemma DeletionShows(ds: seq<Event>, k: Key)
    requires |ds| > 0 && Last(ds).deletion && Accepted(ProjectAll(ds), |ds| - 1, k)
    ensures CellIn(ds, k, Deleted) == Some(Flag(true))
  {
    RowStamp(ProjectAll(ds), k);
    assert FirstAt(ProjectAll(ds), |ds| - 1);
    DeletedColumn(ds, k, Some(|ds| - 1));
  }

  // ---- the columns read from one payload key ----

  const PAYLOAD_COLUMNS: map<PayloadKey, Column> := map[
    KDisplayLabel := DisplayLabel, KDepartmentId := DepartmentId, KResponsibleUserId := ResponsibleUserId,
    KDueAt := DueAt, KAmount := Amount, KCurrency := Currency]

  /** What a payload says under a key: texts and references count as null when they are falsy. */
  function Said(p: Payload, key: PayloadKey): Cell {
    if key !in p || p[key].JsonNull? then Null
    else if !p[key].truthy && key !in {KDueAt, KAmount, KCurrency} then Null
    else p[key].cell
  }

  /** What an event writes to a column read from one key. */
  lemma PayloadWritten(e: Event, key: PayloadKey, mod: Module)
    requires key in PAYLOAD_COLUMNS
    ensures Present(e, PAYLOAD_COLUMNS[key]) <==> key in e.payload
    ensures CellFor(e, mod, PAYLOAD_COLUMNS[key]) == Said(e.payload, key)
  {
  }

  lemma DefaultNull(key: PayloadKey)
    requires key in PAYLOAD_COLUMNS
    ensures Default(PAYLOAD_COLUMNS[key]) == Null
  {
  }

  /**
   Label, department, responsible user, due date, amount and currency: each shows what the
   last delivery taken that has its key says under it, null included, and null if none has it.
   */
  lemma PayloadColumn(ds: seq<Event>, k: Key, key: PayloadKey, src: Option<nat>)
    requires k in ApplyAll(ProjectAll(ds)).rows && key in PAYLOAD_COLUMNS
    requires LastVoice(ds, k, (e: Event) => key in e.payload, src)
    ensures CellIn(ds, k, PAYLOAD_COLUMNS[key]) == Some(if src.None? then Null else Said(ds[src.value].payload, key))
  {
    forall e: Event
      ensures key in e.payload <==> Present(e, PAYLOAD_COLUMNS[key])
    {
      PayloadWritten(e, key, k.mod);
    }
    VoiceDecides(ds, k, PAYLOAD_COLUMNS[key], (e: Event) => key in e.payload, src);
    DefaultNull(key);
    if src.Some? {
      PayloadWritten(ds[src.value], key, k.mod);
    }
  }

  // ---- identifier and status ----

  predicate IsTruthy(p: Payload, key: PayloadKey) {
    key in p && p[key].Json? && p[key].truthy
  }

  predicate NotNull(p: Payload, key: PayloadKey) {
    key in p && p[key].Json?
  }

  /** An event speaks of the identifier if it has a truthy one, or a contract number at all. */
  predicate SpeaksOfIdentifier(e: Event) {
    IsTruthy(e.payload, KIdentifier) || NotNull(e.payload, KContractNumber)
  }

  /** The identifier shown is the last one said, else the contract number said in its place. */
  lemma IdentifierColumn(ds: seq<Event>, k: Key, src: Option<nat>)
    requires k in ApplyAll(ProjectAll(ds)).rows && LastVoice(ds, k, SpeaksOfIdentifier, src)
    ensures CellIn(ds, k, Identifier) == Some(
      if src.None? then Null
      else
        var p := ds[src.value].payload;
        if IsTruthy(p, KIdentifier) then p[KIdentifier].cell
        else if IsTruthy(p, KContractNumber) then p[KContractNumber].cell
        else Null)
  {
    VoiceDecides(ds, k, Identifier, SpeaksOfIdentifier, src);
  }

  predicate SpeaksOfStatus(e: Event) {
    (exists i :: 0 <= i < |STATUS_KEYS| && DecidesStatus(e.payload, i)) || NotNull(e.payload, KNotificationStatus)
  }

  lemma StatusPresent(e: Event)
    ensures SpeaksOfStatus(e) <==> Present(e, ReadModel.Status)
  {
    StatusPrecedence(e, Platform);
    assert Present(e, ReadModel.Status) <==> ReadModel.Status in CarriedCells(e, Platform);
    if i :| 0 <= i < |STATUS_KEYS| && DecidesStatus(e.payload, i) {
      assert ReadModel.Status in CarriedCells(e, Platform);
    }
  }

  /** The status shown is what the strongest truthy key of the last delivery taken that speaks of it says. */
  lemma StatusColumn(ds: seq<Event>, k: Key, src: Option<nat>)
    requires k in ApplyAll(ProjectAll(ds)).rows && LastVoice(ds, k, SpeaksOfStatus, src)
    ensures CellIn(ds, k, ReadModel.Status).Some?
    ensures src.Some? ==> forall i: nat :: DecidesStatus(ds[src.value].payload, i) ==>
      CellIn(ds, k, ReadModel.Status) == Some(ds[src.value].payload[STATUS_KEYS[i]].cell)
    ensures src.None? || (forall i: nat :: !DecidesStatus(ds[src.value].payload, i)) ==> CellIn(ds, k, ReadModel.Status) == Some(Null)
  {
    forall e: Event
      ensures SpeaksOfStatus(e) <==> Present(e, ReadModel.Status)
    {
      StatusPresent(e);
    }
    VoiceDecides(ds, k, ReadModel.Status, SpeaksOfStatus, src);
    if src.Some? {
      var e := ds[src.value];
      StatusPrecedence(e, k.mod);
      assert Present(e, ReadModel.Status) <==> ReadModel.Status in CarriedCells(e, k.mod);
    }
  }

  // ---- the columns every event writes ----

  predicate NamesInstant(p: Payload, at: Time) {
    KOccurredAt in p && p[KOccurredAt].Json? && p[KOccurredAt].cell == Instant(at)
  }

  predicate NamesLink(p: Payload, link: Cell) {
    KSourceUrl in p && p[KSourceUrl] == Json(true, link) && link != Null
  }

  /**
   The occurrence time and the link are those of the last delivery taken: the time its payload
   names, else the event's own; the controlled link its payload names, else the row's route.
   */
  lemma AlwaysWritten(ds: seq<Event>, k: Key, last: nat)
    requires k in ApplyAll(ProjectAll(ds)).rows && LastVoice(ds, k, (e: Event) => true, Some(last))
    ensures forall at :: NamesInstant(ds[last].payload, at) ==> CellIn(ds, k, OccurredAt) == Some(Instant(at))
    ensures (forall at :: !NamesInstant(ds[last].payload, at)) ==> CellIn(ds, k, OccurredAt) == Some(Instant(ds[last].at))
    ensures forall link :: NamesLink(ds[last].payload, link) ==> CellIn(ds, k, SourceUrl) == Some(link)
    ensures (forall link :: !NamesLink(ds[last].payload, link)) ==>
      CellIn(ds, k, SourceUrl) == Some(Route(k.mod, k.kind, k.source))
  {
    VoiceDecides(ds, k, OccurredAt, (e: Event) => true, Some(last));
    VoiceDecides(ds, k, SourceUrl, (e: Event) => true, Some(last));
    var p := ds[last].payload;
    if KOccurredAt in p && p[KOccurredAt].Json? && p[KOccurredAt].cell.Instant? {
      assert NamesInstant(p, p[KOccurredAt].cell.at);
    }
    if KSourceUrl in p && p[KSourceUrl].Json? && p[KSourceUrl].truthy && p[KSourceUrl].cell != Null {
      assert NamesLink(p, p[KSourceUrl].cell);
    }
  }

  // ---- attributes ----

  predicate IsAttribute(key: PayloadKey) {
    key == KCourt || key == KCategory || key == KDeliveryStatus || key == KProcessingStatus || key == KNotificationStatus
  }

  predicate SpeaksOfAttributes(e: Event) {
    exists key :: key in e.payload && IsAttribute(key)
  }

  lemma AttributesPresent(e: Event)
    ensures SpeaksOfAttributes(e) <==> Present(e, Attributes)
  {
    if key :| key in e.payload && IsAttribute(key) {
      assert key in AttributesOf(e.payload);
    }
    if Present(e, Attributes) {
      var key :| key in AttributesOf(e.payload);
      assert key in e.payload && IsAttribute(key);
    }
  }

  /** What an event writes as attributes, key by key. */
  lemma AttributesWritten(e: Event, mod: Module)
    ensures CellFor(e, mod, Attributes).Attrs?
    ensures forall key :: key in CellFor(e, mod, Attributes).entries <==> IsAttribute(key) && key in e.payload
    ensures forall key :: key in CellFor(e, mod, Attributes).entries ==> CellFor(e, mod, Attributes).entries[key] == e.payload[key]
  {
  }

  /** The attributes are exactly those of the last delivery taken that has any: never a mix of two. */
  lemma AttributesColumn(ds: seq<Event>, k: Key, src: Option<nat>)
    requires k in ApplyAll(ProjectAll(ds)).rows && LastVoice(ds, k, SpeaksOfAttributes, src)
    ensures CellIn(ds, k, Attributes).Some? && CellIn(ds, k, Attributes).value.Attrs?
    ensures forall key :: key in CellIn(ds, k, Attributes).value.entries <==>
      src.Some? && IsAttribute(key) && key in ds[src.value].payload
    ensures forall key :: key in CellIn(ds, k, Attributes).value.entries ==>
      CellIn(ds, k, Attributes).value.entries[key] == ds[src.value].payload[key]
  {
    forall e: Event
      ensures SpeaksOfAttributes(e) <==> Present(e, Attributes)
    {
      AttributesPresent(e);
    }
    VoiceDecides(ds, k, Attributes, SpeaksOfAttributes, src);
    if src.Some? {
      AttributesWritten(ds[src.value], k.mod);
    }
  }
}
