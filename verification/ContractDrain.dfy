/**
 The pipeline as a refinement of the contract row: once a contract's events have been
 delivered in order, duplicates allowed, its projected row shows the contract.
 */
module ContractDrain {
  import opened Common
  import opened ReadModel
  import opened Projection
  import opened ContractService

  function KeyOf(s: State): Key {
    Key(s.tenant, Module.Contracts, "contract", s.id)
  }

  /** The columns a created, updated or status-changed event describes. */
  const DESCRIBED: set<Column> :=
    {Identifier, DisplayLabel, ReadModel.Status, DepartmentId, ResponsibleUserId, DueAt, Amount, Currency}

  /** What the projection shows of a contract in a described column. */
  function Shown(c: Contract, column: Column): Cell {
    match column
    case Identifier => Text(c.number)
    case DisplayLabel => Text(c.title)
    case Status => Text(StandingName(c.status))
    case DepartmentId => if c.departmentId.Some? then Ref(c.departmentId.value) else Null
    case ResponsibleUserId => if c.responsibleUserId.Some? then Ref(c.responsibleUserId.value) else Null
    case DueAt => Instant(c.endDate)
    case Amount => Money(c.cents)
    case Currency => Text(c.currency)
    case _ => Null
  }

  /** A write that describes contract c in full. */
  predicate Describes(w: Write, k: Key, c: Contract) {
    && OnKey(w, k) && StampOf(w).version == 1
    && forall column :: column in DESCRIBED ==> Carries(w, column) && CellOf(w, column) == Shown(c, column)
  }

  /** A write that leaves every described column of row k alone. */
  predicate LeavesDescription(w: Write, k: Key) {
    OnKey(w, k) ==> StampOf(w).version == 1 && forall column :: column in DESCRIBED ==> !Carries(w, column)
  }

  /** A payload that says everything the described columns of c are read from. */
  predicate SaysAll(p: Payload, c: Contract) {
    && Get(p, KIdentifier) == TextJson(c.number)
    && Get(p, KStatus) == TextJson(StandingName(c.status))
    && KDisplayLabel in p && p[KDisplayLabel] == TextJson(c.title)
    && KDepartmentId in p && p[KDepartmentId] == RefJson(c.departmentId)
    && KResponsibleUserId in p && p[KResponsibleUserId] == RefJson(c.responsibleUserId)
    && KDueAt in p && p[KDueAt] == Json(true, Instant(c.endDate))
    && KAmount in p && p[KAmount] == Json(true, Money(c.cents))
    && KCurrency in p && p[KCurrency] == CurrencyJson(c.currency)
    && KVersion in p && p[KVersion] == Json(true, Number(1))
    && KResourceType !in p && KSourceId !in p
  }

  lemma FullPayloadSaysAll(id: Id, row: Contract, extra: Payload)
    requires extra.Keys <= {KNewStatus, KContractNumber}
    ensures SaysAll(extra + ContractProjection(id, row), row)
  {
  }

  lemma ColumnSaid(e: Event, row: Contract, column: Column)
    requires row.number != "" && row.title != "" && ValidCurrency(row.currency)
    requires SaysAll(e.payload, row) && column in DESCRIBED
    ensures Present(e, column) && CellFor(e, Module.Contracts, column) == Shown(row, column)
  {
    assert StandingName(row.status) != "";
  }

  lemma FullEventDescribes(s: State, row: Contract, extra: Payload, commit: Commit)
    requires row.number != "" && row.title != "" && ValidCurrency(row.currency)
    requires extra.Keys <= {KNewStatus, KContractNumber}
    ensures Describes(Project(ContractEvent(s, commit.eventId, commit.at, extra + ContractProjection(s.id, row))), KeyOf(s), row)
  {
    FullPayloadSaysAll(s.id, row, extra);
    var e := ContractEvent(s, commit.eventId, commit.at, extra + ContractProjection(s.id, row));
    forall column | column in DESCRIBED
      ensures Carries(Project(e), column) && CellOf(Project(e), column) == Shown(row, column)
    {
      ColumnSaid(e, row, column);
    }
  }

  lemma BareEventLeaves(s: State, commit: Commit)
    ensures LeavesDescription(Project(ContractEvent(s, commit.eventId, commit.at, map[])), KeyOf(s))
  {
  }

  lemma ChildEventElsewhere(s: State, kind: ChildKind, source: Id, caption: string, status: string, commit: Commit)
    ensures !OnKey(Project(ContractEvent(s, commit.eventId, commit.at, ChildProjection(kind, source, caption, status))), KeyOf(s))
  {
    var e := ContractEvent(s, commit.eventId, commit.at, ChildProjection(kind, source, caption, status));
    assert KindOf(e) == ChildKindName(kind);
    match kind
    case Milestone => assert KindOf(e)[0] == 'm';
    case Obligation => assert |KindOf(e)| != |"contract"|;
    case Payment => assert KindOf(e)[0] == 'p';
  }

  /** Outbox event i describes the announced row, and no later event touches the description. */
  predicate DescribedAt(s: State, i: nat) {
    && i < |s.outbox|
    && Describes(Project(s.outbox[i]), KeyOf(s), s.announced)
    && forall j :: i < j < |s.outbox| ==> LeavesDescription(Project(s.outbox[j]), KeyOf(s))
  }

  predicate AllVersionOne(s: State) {
    forall i :: 0 <= i < |s.outbox| && OnKey(Project(s.outbox[i]), KeyOf(s)) ==> StampOf(Project(s.outbox[i])).version == 1
  }

  /** The announced row is the contract but for a value and an end date amended since. */
  predicate AnnouncedUpToAmendments(s: State) {
    s.announced.(cents := s.row.cents, endDate := s.row.endDate) == s.row
  }

  ghost predicate Tracked(s: State) {
    Sound(s) && AnnouncedUpToAmendments(s) && AllVersionOne(s) && exists i :: DescribedAt(s, i)
  }

  lemma AnnounceTracked(s: State, row: Contract, extra: Payload, commit: Commit)
    requires AllVersionOne(s) && row.number != "" && row.title != "" && ValidCurrency(row.currency)
    requires extra.Keys <= {KNewStatus, KContractNumber}
    ensures var t := Announce(s, row, extra, commit);
      AnnouncedUpToAmendments(t) && AllVersionOne(t) && DescribedAt(t, |s.outbox|)
  {
    FullEventDescribes(s, row, extra, commit);
    var t := Announce(s, row, extra, commit);
    assert KeyOf(t) == KeyOf(s);
  }

  lemma StatusKeepsTracked(s: State, to: Standing, commit: Commit)
    requires Tracked(s) && ChangeStatus(s, to, commit).Ok?
    ensures var t := ChangeStatus(s, to, commit).value;
      AnnouncedUpToAmendments(t) && AllVersionOne(t) && exists i :: DescribedAt(t, i)
  {
    var extra := map[KNewStatus := TextJson(StandingName(to))];
    AnnounceTracked(s, s.row.(status := to), extra, commit);
    var u, t := Announce(s, s.row.(status := to), extra, commit), ChangeStatus(s, to, commit).value;
    assert t.outbox == u.outbox && KeyOf(t) == KeyOf(u) && t.announced == u.announced;
    assert DescribedAt(t, |s.outbox|);
  }

  lemma UpdateKeepsTracked(s: State, ch: Changes, commit: Commit)
    requires Tracked(s) && Update(s, ch, commit).Ok?
    ensures var t := Update(s, ch, commit).value;
      AnnouncedUpToAmendments(t) && AllVersionOne(t) && exists i :: DescribedAt(t, i)
  {
    AnnounceTracked(s, Updated(s.row, ch), map[], commit);
    assert DescribedAt(Update(s, ch, commit).value, |s.outbox|);
  }

  lemma CallKeepsTracked(s: State, call: Call)
    requires Tracked(s)
    ensures Tracked(After(s, call))
  {
    CallKeepsSound(s, call);
    var t := After(s, call);
    if Attempt(s, call.op, call.commit).Ok? {
      match call.op
      case OpStatus(to) =>
        StatusKeepsTracked(s, to, call.commit);
      case OpUpdate(ch) =>
        UpdateKeepsTracked(s, ch, call.commit);
      case OpAmend(a) =>
        AmendKeepsTracked(s, a, call.commit);
      case OpParty =>
        PartyKeepsTracked(s, call.commit);
      case OpChild(kind, source, caption, status) =>
        ChildKeepsTracked(s, kind, source, caption, status, call.commit);
    }
  }

  lemma AmendKeepsTracked(s: State, a: Amendment, commit: Commit)
    requires Tracked(s) && AddAmendment(s, a, commit).Ok?
    ensures var t := AddAmendment(s, a, commit).value;
      AnnouncedUpToAmendments(t) && AllVersionOne(t) && exists i :: DescribedAt(t, i)
  {
    BareEventLeaves(s, commit);
    QuietEvent(s, AddAmendment(s, a, commit).value);
  }

  lemma PartyKeepsTracked(s: State, commit: Commit)
    requires Tracked(s) && AddParty(s, commit).Ok?
    ensures var t := AddParty(s, commit).value;
      AnnouncedUpToAmendments(t) && AllVersionOne(t) && exists i :: DescribedAt(t, i)
  {
    BareEventLeaves(s, commit);
    QuietEvent(s, AddParty(s, commit).value);
  }

  lemma ChildKeepsTracked(s: State, kind: ChildKind, source: Id, caption: string, status: string, commit: Commit)
    requires Tracked(s) && RecordChild(s, kind, source, caption, status, commit).Ok?
    ensures var t := RecordChild(s, kind, source, caption, status, commit).value;
      AnnouncedUpToAmendments(t) && AllVersionOne(t) && exists i :: DescribedAt(t, i)
  {
    ChildEventElsewhere(s, kind, source, caption, status, commit);
    QuietEvent(s, RecordChild(s, kind, source, caption, status, commit).value);
  }

  /** An event that leaves the description alone keeps the description where it was. */
  lemma QuietEvent(s: State, t: State)
    requires AllVersionOne(s) && (exists i :: DescribedAt(s, i))
    requires |t.outbox| == |s.outbox| + 1 && t.outbox[..|s.outbox|] == s.outbox
    requires t.announced == s.announced && KeyOf(t) == KeyOf(s)
    requires LeavesDescription(Project(t.outbox[|s.outbox|]), KeyOf(s))
    ensures AllVersionOne(t) && exists i :: DescribedAt(t, i)
  {
    var i: nat :| DescribedAt(s, i);
    assert forall j :: 0 <= j < |s.outbox| ==> t.outbox[j] == s.outbox[j];
    assert DescribedAt(t, i);
  }

  lemma CreatedTracked(tenant: Id, id: Id, data: Contract, commit: Commit)
    requires Create(tenant, id, data, false, commit).Ok?
    ensures Tracked(Create(tenant, id, data, false, commit).value)
  {
    var blank := ContractService.State(tenant, id, data, [], [], data);
    var created := Create(tenant, id, data, false, commit).value;
    AnnounceTracked(blank, data, map[KContractNumber := TextJson(data.number)], commit);
    assert created == Announce(blank, data, map[KContractNumber := TextJson(data.number)], commit);
    assert DescribedAt(created, 0);
    ReachableSound(tenant, id, data, commit, []);
    assert AfterAll(created, []) == created;
  }

  lemma {:induction false} ReachableTracked(tenant: Id, id: Id, data: Contract, commit: Commit, calls: seq<Call>)
    requires Create(tenant, id, data, false, commit).Ok?
    ensures Tracked(AfterAll(Create(tenant, id, data, false, commit).value, calls))
  {
    var s := Create(tenant, id, data, false, commit).value;
    if |calls| == 0 {
      CreatedTracked(tenant, id, data, commit);
    } else {
      ReachableTracked(tenant, id, data, commit, Front(calls));
      CallKeepsTracked(AfterAll(s, Front(calls)), Last(calls));
    }
  }

  /** The database clock did not go back between the commits. */
  predicate TimesOrdered(outbox: seq<Event>) {
    forall i, j :: 0 <= i < j < |outbox| ==> outbox[i].at <= outbox[j].at
  }

  lemma OutboxStampsOrdered(s: State)
    requires AllVersionOne(s) && TimesOrdered(s.outbox)
    ensures StampsOrdered(ProjectAll(s.outbox), KeyOf(s))
  {
    var ws := ProjectAll(s.outbox);
    forall i, j | 0 <= i < j < |ws| && OnKey(ws[i], KeyOf(s)) && OnKey(ws[j], KeyOf(s))
      ensures AtMost(StampOf(ws[i]), StampOf(ws[j]))
    {
      assert s.outbox[i].at <= s.outbox[j].at;
    }
  }

  lemma DrainedState(s: State, ds: seq<Write>, pos: seq<nat>, column: Column)
    requires Tracked(s) && TimesOrdered(s.outbox) && column in DESCRIBED
    requires DeliveredInOrder(ds, KeyOf(s), ProjectAll(s.outbox), pos)
    ensures CellAfter(ds, KeyOf(s), column) == Some(Shown(s.announced, column))
  {
    OutboxStampsOrdered(s);
    var i: nat :| DescribedAt(s, i);
    var ws := ProjectAll(s.outbox);
    forall j | i < j < |ws| && OnKey(ws[j], KeyOf(s))
      ensures !Carries(ws[j], column)
    {
      assert LeavesDescription(Project(s.outbox[j]), KeyOf(s));
    }
    DrainedColumn(ds, KeyOf(s), ws, pos, i, column);
  }

  /**
   Drain refinement: after any calls, once a contract's events were delivered in order, the
   projected row shows every described column as the last created, updated or
   status-changed event announced it.
   */
  lemma DrainShowsAnnounced(tenant: Id, id: Id, data: Contract, commit: Commit, calls: seq<Call>, ds: seq<Write>, pos: seq<nat>, column: Column)
    requires Create(tenant, id, data, false, commit).Ok?
    requires var s := AfterAll(Create(tenant, id, data, false, commit).value, calls);
      TimesOrdered(s.outbox) && DeliveredInOrder(ds, KeyOf(s), ProjectAll(s.outbox), pos)
    requires column in DESCRIBED
    ensures var s := AfterAll(Create(tenant, id, data, false, commit).value, calls);
      CellAfter(ds, KeyOf(s), column) == Some(Shown(s.announced, column))
  {
    ReachableTracked(tenant, id, data, commit, calls);
    DrainedState(AfterAll(Create(tenant, id, data, false, commit).value, calls), ds, pos, column);
  }

  // ---- what the amendments since the last full event leave out ----

  /** A committed update or status change, whose event describes the contract in full. */
  predicate Full(s: State, call: Call) {
    (call.op.OpStatus? || call.op.OpUpdate?) && Attempt(s, call.op, call.commit).Ok?
  }

  predicate Amends(s: State, call: Call) {
    call.op.OpAmend? && Attempt(s, call.op, call.commit).Ok?
  }

  /** How many calls there are up to the last full one; none if only the creation was full. */
  function LastFull(s: State, calls: seq<Call>): (n: nat)
    ensures n <= |calls|
  {
    if |calls| == 0 then 0
    else if Full(AfterAll(s, Front(calls)), Last(calls)) then |calls|
    else LastFull(s, Front(calls))
  }

  /** The value changes of the committed amendments after the last full call, added up. */
  function ValueSince(s: State, calls: seq<Call>): int {
    if |calls| == 0 || Full(AfterAll(s, Front(calls)), Last(calls)) then 0
    else
      ValueSince(s, Front(calls)) +
      if Amends(AfterAll(s, Front(calls)), Last(calls)) && Last(calls).op.amendment.valueChange.Some?
      then Last(calls).op.amendment.valueChange.value else 0
  }

  /** The end date that the last committed amendment of it after the last full call set, if there is one. */
  function EndSince(s: State, calls: seq<Call>): Option<Date> {
    if |calls| == 0 || Full(AfterAll(s, Front(calls)), Last(calls)) then None
    else if Amends(AfterAll(s, Front(calls)), Last(calls)) && Last(calls).op.amendment.endDateChange.Some?
    then Last(calls).op.amendment.endDateChange
    else EndSince(s, Front(calls))
  }

  /** What one call does to the row and to what was announced of it. */
  lemma OneCall(s: State, call: Call)
    ensures var t := After(s, call);
      if Full(s, call) then t.announced == t.row
      else if Amends(s, call) then
        && t.announced == s.announced
        && t.row.cents == s.row.cents + (if call.op.amendment.valueChange.Some? then call.op.amendment.valueChange.value else 0)
        && t.row.endDate == (if call.op.amendment.endDateChange.Some? then call.op.amendment.endDateChange.value else s.row.endDate)
      else t.announced == s.announced && t.row == s.row
  {
  }

  /** The contract as of the last full call, and what the amendments since have made of it. */
  lemma {:induction false} AmendedSince(s: State, calls: seq<Call>)
    requires s.announced == s.row
    ensures var t := AfterAll(s, calls);
      && t.announced == AfterAll(s, calls[..LastFull(s, calls)]).row
      && t.row.cents == t.announced.cents + ValueSince(s, calls)
      && t.row.endDate == match EndSince(s, calls) { case None => t.announced.endDate case Some(end) => end }
  {
    if |calls| > 0 {
      var before := AfterAll(s, Front(calls));
      AmendedSince(s, Front(calls));
      OneCall(before, Last(calls));
      if Full(before, Last(calls)) {
        assert calls[..|calls|] == calls;
      } else {
        assert calls[..LastFull(s, calls)] == Front(calls)[..LastFull(s, calls)];
      }
    }
  }

  /**
   What refinement means for one contract and one projected row, in terms of the calls: most
   columns are the contract's own; the amount lacks the value changes amended since the last
   full call, so it agrees if and only if they add up to zero; the due date is the end date
   as of that call, so it agrees if and only if the end date was not amended since, or was
   last amended back to that date.
   */
  predicate RowRefines(created: State, calls: seq<Call>, ds: seq<Write>) {
    var s := AfterAll(created, calls);
    && (forall column :: column in DESCRIBED - {Amount, DueAt} ==>
          CellAfter(ds, KeyOf(s), column) == Some(Shown(s.row, column)))
    && AmountAgrees(CellAfter(ds, KeyOf(s), Amount), s.row, ValueSince(created, calls))
    && DueDateAgrees(CellAfter(ds, KeyOf(s), DueAt), s.row, AfterAll(created, calls[..LastFull(created, calls)]).row, EndSince(created, calls))
  }

  predicate AmountAgrees(amount: Option<Cell>, row: Contract, since: int) {
    amount == Some(Money(row.cents - since)) && (amount == Some(Money(row.cents)) <==> since == 0)
  }

  predicate DueDateAgrees(due: Option<Cell>, row: Contract, full: Contract, end: Option<Date>) {
    due == Some(Instant(full.endDate)) && (due == Some(Instant(row.endDate)) <==> end.None? || end.value == full.endDate)
  }

  predicate ShowsAnnounced(s: State, ds: seq<Write>) {
    && (forall column :: column in DESCRIBED - {Amount, DueAt} ==>
          CellAfter(ds, KeyOf(s), column) == Some(Shown(s.row, column)))
    && CellAfter(ds, KeyOf(s), Amount) == Some(Money(s.announced.cents))
    && CellAfter(ds, KeyOf(s), DueAt) == Some(Instant(s.announced.endDate))
  }

  /** A drained row shows the announced one, and only amount and due date can differ from the contract's. */
  lemma DrainedRow(s: State, ds: seq<Write>, pos: seq<nat>)
    requires Tracked(s) && TimesOrdered(s.outbox)
    requires DeliveredInOrder(ds, KeyOf(s), ProjectAll(s.outbox), pos)
    ensures ShowsAnnounced(s, ds)
  {
    forall column | column in DESCRIBED
      ensures CellAfter(ds, KeyOf(s), column) == Some(Shown(s.announced, column))
    {
      DrainedState(s, ds, pos, column);
    }
    assert Amount in DESCRIBED && DueAt in DESCRIBED;
    forall column | column in DESCRIBED - {Amount, DueAt}
      ensures Shown(s.announced, column) == Shown(s.row, column)
    {
      OtherColumnsAnnounced(s, column);
    }
  }

  /** Only the amount and the due date can be out of date in the announced row. */
  lemma OtherColumnsAnnounced(s: State, column: Column)
    requires AnnouncedUpToAmendments(s) && column != Amount && column != DueAt
    ensures Shown(s.announced, column) == Shown(s.row, column)
  {
  }

  /**
   Drain refinement: the projected status, label, number, currency and assignments are the
   contract's own, and amount and due date agree exactly as the amendments since the last
   full call allow.
   */
  lemma DrainRefinesContract(tenant: Id, id: Id, data: Contract, commit: Commit, calls: seq<Call>, ds: seq<Write>, pos: seq<nat>)
    requires Create(tenant, id, data, false, commit).Ok?
    requires var s := AfterAll(Create(tenant, id, data, false, commit).value, calls);
      TimesOrdered(s.outbox) && DeliveredInOrder(ds, KeyOf(s), ProjectAll(s.outbox), pos)
    ensures RowRefines(Create(tenant, id, data, false, commit).value, calls, ds)
  {
    var created := Create(tenant, id, data, false, commit).value;
    ReachableTracked(tenant, id, data, commit, calls);
    DrainedRow(AfterAll(created, calls), ds, pos);
    RefinesInTermsOfCalls(created, calls, ds);
  }

  lemma RefinesInTermsOfCalls(created: State, calls: seq<Call>, ds: seq<Write>)
    requires created.announced == created.row && ShowsAnnounced(AfterAll(created, calls), ds)
    ensures RowRefines(created, calls, ds)
  {
    AmendedSince(created, calls);
    var s := AfterAll(created, calls);
    CellsAgree(CellAfter(ds, KeyOf(s), Amount), CellAfter(ds, KeyOf(s), DueAt), s, ValueSince(created, calls), EndSince(created, calls));
  }

  lemma CellsAgree(amount: Option<Cell>, due: Option<Cell>, s: State, since: int, end: Option<Date>)
    requires amount == Some(Money(s.announced.cents)) && due == Some(Instant(s.announced.endDate))
    requires s.row.cents == s.announced.cents + since
    requires s.row.endDate == match end { case None => s.announced.endDate case Some(date) => date }
    ensures AmountAgrees(amount, s.row, since) && DueDateAgrees(due, s.row, s.announced, end)
  {
  }

  // ---- the columns that every event writes ----

  /** A committed amendment or new party, whose event says nothing but that it happened. */
  predicate Bare(s: State, call: Call) {
    (call.op.OpAmend? || call.op.OpParty?) && Attempt(s, call.op, call.commit).Ok?
  }

  /** When the contract last occurred: its start as of a full event, or the time of a bare one. */
  function Occurrence(s: State, calls: seq<Call>): Time {
    if |calls| == 0 then s.row.startDate
    else
      var before, call := AfterAll(s, Front(calls)), Last(calls);
      if Full(before, call) then After(before, call).row.startDate
      else if Bare(before, call) then call.commit.at
      else Occurrence(s, Front(calls))
  }

  /** A write on the contract's row that shows this time and the contract's own link. */
  predicate ShowsOccurrence(w: Write, s: State, at: Time) {
    && OnKey(w, KeyOf(s))
    && Carries(w, OccurredAt) && CellOf(w, OccurredAt) == Instant(at)
    && Carries(w, SourceUrl) && CellOf(w, SourceUrl) == Route(Module.Contracts, "contract", s.id)
  }

  /** Event i is the last one on the contract's row, and shows this time. */
  predicate LastOwn(s: State, i: nat, at: Time) {
    && i < |s.outbox| && ShowsOccurrence(Project(s.outbox[i]), s, at)
    && forall j :: i < j < |s.outbox| ==> !OnKey(Project(s.outbox[j]), KeyOf(s))
  }

  lemma FullShowsOccurrence(s: State, row: Contract, extra: Payload, commit: Commit)
    requires extra.Keys <= {KNewStatus, KContractNumber}
    ensures ShowsOccurrence(Project(ContractEvent(s, commit.eventId, commit.at, extra + ContractProjection(s.id, row))), s, row.startDate)
  {
    FullPayloadOccurs(s.id, row, extra);
    PayloadShows(s, ContractEvent(s, commit.eventId, commit.at, extra + ContractProjection(s.id, row)), row.startDate);
  }

  predicate OccursIn(p: Payload, at: Time, link: Cell) {
    && Get(p, KOccurredAt) == Json(true, Instant(at)) && Get(p, KSourceUrl) == Json(true, link)
    && KResourceType !in p && KSourceId !in p
  }

  lemma FullPayloadOccurs(id: Id, row: Contract, extra: Payload)
    requires extra.Keys <= {KNewStatus, KContractNumber}
    ensures OccursIn(extra + ContractProjection(id, row), row.startDate, Route(Module.Contracts, "contract", id))
  {
  }

  lemma PayloadShows(s: State, e: Event, at: Time)
    requires e.mod == Some(Module.Contracts) && e.tenant == s.tenant && e.aggregateKind == "contract" && e.aggregateId == s.id
    requires OccursIn(e.payload, at, Route(Module.Contracts, "contract", s.id))
    ensures ShowsOccurrence(Project(e), s, at)
  {
  }

  lemma BareShowsOccurrence(s: State, commit: Commit)
    ensures ShowsOccurrence(Project(ContractEvent(s, commit.eventId, commit.at, map[])), s, commit.at)
  {
  }

  /** What one more event does to who is last. */
  lemma OwnEvent(s: State, t: State, at: Time)
    requires |t.outbox| == |s.outbox| + 1 && t.outbox[..|s.outbox|] == s.outbox && t.tenant == s.tenant && t.id == s.id
    ensures ShowsOccurrence(Project(t.outbox[|s.outbox|]), s, at) ==> LastOwn(t, |s.outbox|, at)
    ensures !OnKey(Project(t.outbox[|s.outbox|]), KeyOf(s)) ==> forall i: nat :: LastOwn(s, i, at) ==> LastOwn(t, i, at)
  {
    assert forall j :: 0 <= j < |s.outbox| ==> t.outbox[j] == s.outbox[j];
  }

  /** One committed call shows the time it should, or leaves the contract's row alone. */
  lemma CallShowsOccurrence(s: State, call: Call)
    requires Attempt(s, call.op, call.commit).Ok?
    ensures var t := After(s, call);
      && |t.outbox| == |s.outbox| + 1 && t.outbox[..|s.outbox|] == s.outbox && t.tenant == s.tenant && t.id == s.id
      && (Full(s, call) ==> ShowsOccurrence(Project(t.outbox[|s.outbox|]), s, t.row.startDate))
      && (Bare(s, call) ==> ShowsOccurrence(Project(t.outbox[|s.outbox|]), s, call.commit.at))
      && (!Full(s, call) && !Bare(s, call) ==> !OnKey(Project(t.outbox[|s.outbox|]), KeyOf(s)))
  {
    match call.op
    case OpStatus(to) =>
      FullShowsOccurrence(s, s.row.(status := to), map[KNewStatus := TextJson(StandingName(to))], call.commit);
    case OpUpdate(ch) =>
      FullShowsOccurrence(s, Updated(s.row, ch), map[], call.commit);
    case OpAmend(_) =>
      BareShowsOccurrence(s, call.commit);
    case OpParty =>
      BareShowsOccurrence(s, call.commit);
    case OpChild(kind, source, caption, status) =>
      ChildEventElsewhere(s, kind, source, caption, status, call.commit);
  }

  lemma {:induction false} LastOccurrence(tenant: Id, id: Id, data: Contract, commit: Commit, calls: seq<Call>) returns (i: nat)
    requires Create(tenant, id, data, false, commit).Ok?
    ensures var s := Create(tenant, id, data, false, commit).value;
      LastOwn(AfterAll(s, calls), i, Occurrence(s, calls))
  {
    var s := Create(tenant, id, data, false, commit).value;
    if |calls| == 0 {
      var blank := ContractService.State(tenant, id, data, [], [], data);
      FullShowsOccurrence(blank, data, map[KContractNumber := TextJson(data.number)], commit);
      OwnEvent(blank, s, data.startDate);
      i := 0;
    } else {
      var before, call := AfterAll(s, Front(calls)), Last(calls);
      i := LastOccurrence(tenant, id, data, commit, Front(calls));
      if Attempt(before, call.op, call.commit).Ok? {
        CallShowsOccurrence(before, call);
        OwnEvent(before, After(before, call), Occurrence(s, calls));
        if Full(before, call) || Bare(before, call) {
          i := |before.outbox|;
        }
      }
    }
  }

  /**
   The occurrence time follows every event on the row: an amendment or a new party, which names
   no date, replaces the start of the contract by the time of its own commit, until the next
   full event. The link is always the contract's.
   */
  lemma DrainShowsOccurrence(tenant: Id, id: Id, data: Contract, commit: Commit, calls: seq<Call>, ds: seq<Write>, pos: seq<nat>)
    requires Create(tenant, id, data, false, commit).Ok?
    requires var s := AfterAll(Create(tenant, id, data, false, commit).value, calls);
      TimesOrdered(s.outbox) && DeliveredInOrder(ds, KeyOf(s), ProjectAll(s.outbox), pos)
    ensures var created := Create(tenant, id, data, false, commit).value;
      var s := AfterAll(created, calls);
      && CellAfter(ds, KeyOf(s), OccurredAt) == Some(Instant(Occurrence(created, calls)))
      && CellAfter(ds, KeyOf(s), SourceUrl) == Some(Route(Module.Contracts, "contract", s.id))
  {
    var created := Create(tenant, id, data, false, commit).value;
    var s := AfterAll(created, calls);
    ReachableTracked(tenant, id, data, commit, calls);
    OutboxStampsOrdered(s);
    var i := LastOccurrence(tenant, id, data, commit, calls);
    OwnColumns(s, i, Occurrence(created, calls), ds, pos);
  }

  lemma OwnColumns(s: State, i: nat, at: Time, ds: seq<Write>, pos: seq<nat>)
    requires LastOwn(s, i, at) && StampsOrdered(ProjectAll(s.outbox), KeyOf(s))
    requires DeliveredInOrder(ds, KeyOf(s), ProjectAll(s.outbox), pos)
    ensures CellAfter(ds, KeyOf(s), OccurredAt) == Some(Instant(at))
    ensures CellAfter(ds, KeyOf(s), SourceUrl) == Some(Route(Module.Contracts, "contract", s.id))
  {
    var ws := ProjectAll(s.outbox);
    DrainedColumn(ds, KeyOf(s), ws, pos, i, OccurredAt);
    DrainedColumn(ds, KeyOf(s), ws, pos, i, SourceUrl);
  }

  /** A child's event goes to a row of its own kind and id and shows its caption and status there. */
  lemma ChildEventShown(s: State, kind: ChildKind, source: Id, caption: string, status: string, commit: Commit)
    requires caption != "" && status != ""
    ensures var w := Project(ContractEvent(s, commit.eventId, commit.at, ChildProjection(kind, source, caption, status)));
      var name := match kind case Milestone => "milestone" case Obligation => "contract_obligation" case Payment => "payment";
      && OnKey(w, Key(s.tenant, Module.Contracts, name, source))
      && Carries(w, DisplayLabel) && CellOf(w, DisplayLabel) == Text(caption)
      && Carries(w, ReadModel.Status) && CellOf(w, ReadModel.Status) == Text(status)
  {
  }

  const SUPPLY: Contract := Contract("C-1", "Supply", None, 100, "RON", None, 1, 9, Draft, None, None)

  /** The contract of the example: created, and then amended once. */
  function Example(a: Amendment): State {
    After(Create(1, 2, SUPPLY, false, Commit(1, 0)).value, Call(OpAmend(a), Commit(2, 1)))
  }

  /** Two events of different ids delivered one after the other are an in-order delivery of them. */
  lemma TwoInOrder(ws: seq<Write>, k: Key)
    requires |ws| == 2 && ws[0].id != ws[1].id
    ensures DeliveredInOrder(ws, k, ws, [0, 1])
  {
    var pos: seq<nat> := [0, 1];
    assert pos[0] == 0 && pos[1] == 1;
  }

  /**
   An amendment is invisible until the next full event: with both events of a contract
   delivered in order, the projected amount is 100 and the contract's value 150.
   */
  lemma AmendmentNotShown()
    ensures var s := Example(Amendment(Some(50), None));
      && |s.outbox| == 2 && s.row.cents == 150
      && CellAfter(ProjectAll(s.outbox), KeyOf(s), Amount) == Some(Money(100))
  {
    var created := Create(1, 2, SUPPLY, false, Commit(1, 0)).value;
    var call := Call(OpAmend(Amendment(Some(50), None)), Commit(2, 1));
    assert Front([call]) == [] && Last([call]) == call && AfterAll(created, []) == created;
    var s := AfterAll(created, [call]);
    assert s == Example(Amendment(Some(50), None)) && |s.outbox| == 2;
    TwoInOrder(ProjectAll(s.outbox), KeyOf(s));
    DrainRefinesContract(1, 2, SUPPLY, Commit(1, 0), [call], ProjectAll(s.outbox), [0, 1]);
    assert ValueSince(created, []) == 0 && ValueSince(created, [call]) == 50;
  }
}
