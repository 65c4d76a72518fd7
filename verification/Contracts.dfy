/**
 One contract of GovContracts: its row, its status history and the outbox events its
 service calls commit together with their changes.
 */
module ContractService {
  import opened Common
  import opened ReadModel
  import opened Projection

  /** A calendar date as a day number. */
  type Date = int

  datatype Standing = Draft | InReview | Active | Suspended | Completed | Terminated | Cancelled

  function AllowedTransitions(status: Standing): set<Standing> {
    match status
    case Draft => {InReview, Cancelled}
    case InReview => {Draft, Active, Cancelled}
    case Active => {Suspended, Completed, Terminated}
    case Suspended => {Active, Terminated}
    case Completed => {}
    case Terminated => {}
    case Cancelled => {}
  }

  function StandingName(status: Standing): string {
    match status
    case Draft => "DRAFT"
    case InReview => "IN_REVIEW"
    case Active => "ACTIVE"
    case Suspended => "SUSPENDED"
    case Completed => "COMPLETED"
    case Terminated => "TERMINATED"
    case Cancelled => "CANCELLED"
  }

  /** No two statuses share a name. */
  lemma NamesDiffer(a: Standing, b: Standing)
    ensures StandingName(a) == StandingName(b) ==> a == b
  {
    assert StandingName(a)[0] == StandingName(b)[0] && |StandingName(a)| == |StandingName(b)| ==> a == b || StandingName(a)[1] != StandingName(b)[1];
  }

  /** A contract row; the value is in hundredths of its currency. */
  datatype Contract = Contract(
    number: string,
    title: string,
    description: Option<string>,
    cents: int,
    currency: string,
    signedDate: Option<Date>,
    startDate: Date,
    endDate: Date,
    status: Standing,
    departmentId: Option<Id>,
    responsibleUserId: Option<Id>)

  datatype Transition = Transition(from: Standing, to: Standing)

  /**
   What the contract's calls have committed. `announced` records the row as the last
   created, updated or status-changed event described it.
   */
  datatype State = State(
    tenant: Id, id: Id, row: Contract, history: seq<Transition>, outbox: seq<Event>, announced: Contract)

  datatype Error = Conflict | InvalidTransition | Invalid | Internal

  /** A field of a partial update: untouched, or set to a value or to null. */
  datatype Change<+T> = Keep | Set(value: Option<T>)

  datatype Changes = Changes(
    title: Change<string>,
    description: Change<string>,
    cents: Change<int>,
    currency: Change<string>,
    signedDate: Change<Date>,
    startDate: Change<Date>,
    endDate: Change<Date>,
    departmentId: Change<Id>,
    responsibleUserId: Change<Id>)

  datatype Amendment = Amendment(valueChange: Option<int>, endDateChange: Option<Date>)

  // ---- schema validation ----

  /** A letter in upper case; beyond ASCII every character counts as one. */
  predicate UpperLetter(c: char) {
    'A' <= c <= 'Z' || c > '\U{7F}'
  }

  predicate ValidCurrency(c: string) {
    |c| == 3 && forall i :: 0 <= i < 3 ==> UpperLetter(c[i])
  }

  /** A value has at most eighteen digits, two of them decimals. */
  const VALUE_LIMIT: int := 1_000_000_000_000_000_000

  predicate ValidCreate(c: Contract) {
    && 1 <= |c.number| <= 100 && 1 <= |c.title| <= 500 && 0 < c.cents < VALUE_LIMIT && ValidCurrency(c.currency)
    && c.startDate <= c.endDate
    && (c.signedDate.Some? ==> c.signedDate.value <= c.endDate)
    && c.status == Draft
  }

  predicate ValidChanges(ch: Changes) {
    && (ch.title.Set? && ch.title.value.Some? ==> 1 <= |ch.title.value.value| <= 500)
    && (ch.cents.Set? && ch.cents.value.Some? ==> 0 < ch.cents.value.value < VALUE_LIMIT)
    && (ch.currency.Set? && ch.currency.value.Some? ==> ValidCurrency(ch.currency.value.value))
  }

  // ---- the events a call announces ----

  function TextJson(s: string): Json {
    Json(s != "", Text(s))
  }

  function RefJson(id: Option<Id>): Json {
    if id.Some? then Json(true, Ref(id.value)) else Json(false, Null)
  }

  function CurrencyJson(c: string): Json {
    Json(c != "", if ValidCurrency(c) then Text(c) else Null)
  }

  function ContractProjection(id: Id, c: Contract): Payload {
    map[
      KIdentifier := TextJson(c.number),
      KDisplayLabel := TextJson(c.title),
      KStatus := TextJson(StandingName(c.status)),
      KDepartmentId := RefJson(c.departmentId),
      KResponsibleUserId := RefJson(c.responsibleUserId),
      KOccurredAt := Json(true, Instant(c.startDate)),
      KDueAt := Json(true, Instant(c.endDate)),
      KAmount := Json(true, Money(c.cents)),
      KCurrency := CurrencyJson(c.currency),
      KSourceUrl := Json(true, Route(Module.Contracts, "contract", id)),
      KVersion := Json(true, Number(1))
    ]
  }

  datatype ChildKind = Milestone | Obligation | Payment

  function ChildKindName(kind: ChildKind): string {
    match kind
    case Milestone => "milestone"
    case Obligation => "contract_obligation"
    case Payment => "payment"
  }

  /** Milestones, obligations and payments project onto a row of their own. */
  function ChildProjection(kind: ChildKind, source: Id, caption: string, status: string): Payload {
    map[
      KResourceType := TextJson(ChildKindName(kind)),
      KSourceId := Json(true, Ref(source)),
      KDisplayLabel := TextJson(caption),
      KStatus := TextJson(status),
      KVersion := Json(true, Number(1))
    ]
  }

  function ContractEvent(s: State, eventId: Id, at: Time, payload: Payload): Event {
    Event(eventId, false, s.tenant, Some(Module.Contracts), "contract", s.id, at, payload)
  }

  // ---- the calls ----

  /** Event id and commit time of a call. */
  datatype Commit = Commit(eventId: Id, at: Time)

  predicate FreshId(s: State, id: Id) {
    forall i :: 0 <= i < |s.outbox| ==> s.outbox[i].id != id
  }

  /** Commits a row with an event that describes it in full. */
  function Announce(s: State, row: Contract, extra: Payload, commit: Commit): State {
    s.(row := row, announced := row,
       outbox := s.outbox + [ContractEvent(s, commit.eventId, commit.at, extra + ContractProjection(s.id, row))])
  }

  function Create(tenant: Id, id: Id, data: Contract, numberTaken: bool, commit: Commit): Result<State, Error> {
    if !ValidCreate(data) then Err(Invalid)
    else if numberTaken then Err(Conflict)
    else Ok(Announce(State(tenant, id, data, [], [], data), data, map[KContractNumber := TextJson(data.number)], commit))
  }

  function ChangeStatus(s: State, to: Standing, commit: Commit): Result<State, Error> {
    if to !in AllowedTransitions(s.row.status) then Err(InvalidTransition)
    else if !FreshId(s, commit.eventId) then Err(Internal)
    else
      var t := Announce(s, s.row.(status := to), map[KNewStatus := TextJson(StandingName(to))], commit);
      Ok(t.(history := s.history + [Transition(s.row.status, to)]))
  }

  function Nullable<T>(change: Change<T>, current: Option<T>): Option<T> {
    if change.Set? then change.value else current
  }

  predicate SetToNull<T>(change: Change<T>) {
    change.Set? && change.value.None?
  }

  function Required<T>(change: Change<T>, current: T): T
    requires !SetToNull(change)
  {
    if change.Set? then change.value.value else current
  }

  predicate BadDates(start: Date, end: Date, signed: Option<Date>) {
    end < start || (signed.Some? && signed.value > end)
  }

  function Updated(row: Contract, ch: Changes): Contract
    requires !SetToNull(ch.startDate) && !SetToNull(ch.endDate)
    requires !SetToNull(ch.title) && !SetToNull(ch.cents) && !SetToNull(ch.currency)
  {
    row.(
      title := Required(ch.title, row.title),
      description := Nullable(ch.description, row.description),
      cents := Required(ch.cents, row.cents),
      currency := Required(ch.currency, row.currency),
      signedDate := Nullable(ch.signedDate, row.signedDate),
      startDate := Required(ch.startDate, row.startDate),
      endDate := Required(ch.endDate, row.endDate),
      departmentId := Nullable(ch.departmentId, row.departmentId),
      responsibleUserId := Nullable(ch.responsibleUserId, row.responsibleUserId))
  }

  /** A partial update; explicit nulls for columns that must not be null fail without effect. */
  function Update(s: State, ch: Changes, commit: Commit): Result<State, Error> {
    if !ValidChanges(ch) then Err(Invalid)
    else if SetToNull(ch.startDate) || SetToNull(ch.endDate) then Err(Internal)
    else if BadDates(Required(ch.startDate, s.row.startDate), Required(ch.endDate, s.row.endDate),
                     Nullable(ch.signedDate, s.row.signedDate)) then Err(Conflict)
    else if SetToNull(ch.title) || SetToNull(ch.cents) || SetToNull(ch.currency) then Err(Internal)
    else if !FreshId(s, commit.eventId) then Err(Internal)
    else
      Ok(Announce(s, Updated(s.row, ch), map[], commit))
  }

  /** An amendment's event names the amendment only: no amount, no end date, no status. */
  function AddAmendment(s: State, a: Amendment, commit: Commit): Result<State, Error> {
    if a.endDateChange.Some? && a.endDateChange.value < s.row.startDate then Err(Conflict)
    else if a.valueChange.Some? && s.row.cents + a.valueChange.value <= 0 then Err(Conflict)
    else if !FreshId(s, commit.eventId) then Err(Internal)
    else
      Ok(s.(row := s.row.(
              cents := s.row.cents + (if a.valueChange.Some? then a.valueChange.value else 0),
              endDate := if a.endDateChange.Some? then a.endDateChange.value else s.row.endDate),
            outbox := s.outbox + [ContractEvent(s, commit.eventId, commit.at, map[])]))
  }

  /** Adding or moving a milestone, obligation or payment. */
  function RecordChild(s: State, kind: ChildKind, source: Id, caption: string, status: string, commit: Commit): Result<State, Error> {
    if !FreshId(s, commit.eventId) then Err(Internal)
    else Ok(s.(outbox := s.outbox + [ContractEvent(s, commit.eventId, commit.at, ChildProjection(kind, source, caption, status))]))
  }

  /** Adding a party: the event names it and nothing else. */
  function AddParty(s: State, commit: Commit): Result<State, Error> {
    if !FreshId(s, commit.eventId) then Err(Internal)
    else Ok(s.(outbox := s.outbox + [ContractEvent(s, commit.eventId, commit.at, map[])]))
  }

  datatype Operation =
    | OpStatus(to: Standing)
    | OpUpdate(changes: Changes)
    | OpAmend(amendment: Amendment)
    | OpChild(kind: ChildKind, source: Id, caption: string, status: string)
    | OpParty

  function Attempt(s: State, op: Operation, commit: Commit): Result<State, Error> {
    match op
    case OpStatus(to) => ChangeStatus(s, to, commit)
    case OpUpdate(ch) => Update(s, ch, commit)
    case OpAmend(a) => AddAmendment(s, a, commit)
    case OpChild(kind, source, caption, status) => RecordChild(s, kind, source, caption, status, commit)
    case OpParty => AddParty(s, commit)
  }

  function ErrorOf(result: Result<State, Error>): Option<Error> {
    match result
    case Ok(_) => None
    case Err(error) => Some(error)
  }

  datatype Call = Call(op: Operation, commit: Commit)

  /** A failed call is rolled back. */
  function After(s: State, call: Call): State {
    match Attempt(s, call.op, call.commit)
    case Ok(t) => t
    case Err(_) => s
  }

  function AfterAll(s: State, calls: seq<Call>): State {
    if |calls| == 0 then s else After(AfterAll(s, Front(calls)), Last(calls))
  }

  // ---- the stored contract, updated in place ----

  class Record {
    const tenant: Id
    const id: Id
    var row: Contract
    var history: seq<Transition>
    var outbox: seq<Event>
    ghost var announced: Contract

    ghost function Contents(): State
      reads this
    {
      State(tenant, id, row, history, outbox, announced)
    }

    ghost predicate Valid()
      reads this
    {
      Sound(Contents())
    }

    constructor (tenant: Id, id: Id, data: Contract, commit: Commit)
      requires ValidCreate(data)
      ensures Valid() && Ok(Contents()) == Create(tenant, id, data, false, commit)
    {
      this.tenant, this.id, row, history, announced := tenant, id, data, [], data;
      var payload := map[KContractNumber := TextJson(data.number)] + ContractProjection(id, data);
      outbox := [Event(commit.eventId, false, tenant, Some(Module.Contracts), "contract", id, commit.at, payload)];
      new;
      ghost var s := State(tenant, id, data, [], [], data);
      assert ContractEvent(s, commit.eventId, commit.at, payload) == outbox[0];
      assert Announce(s, data, map[KContractNumber := TextJson(data.number)], commit).outbox == outbox;
    }

    /** Adds the outbox row of a call; a duplicate event id fails the commit. */
    method RecordChange(payload: Payload, commit: Commit) returns (committed: bool)
      modifies this`outbox
      ensures committed == FreshId(old(Contents()), commit.eventId)
      ensures outbox == if committed then old(outbox) + [ContractEvent(old(Contents()), commit.eventId, commit.at, payload)] else old(outbox)
    {
      committed := forall i :: 0 <= i < |outbox| ==> outbox[i].id != commit.eventId;
      if committed {
        outbox := outbox + [Event(commit.eventId, false, tenant, Some(Module.Contracts), "contract", id, commit.at, payload)];
      }
    }

    method ChangeStatusCall(to: Standing, commit: Commit) returns (error: Option<Error>)
      requires Valid()
      modifies this
      ensures Valid() && Contents() == After(old(Contents()), Call(OpStatus(to), commit))
      ensures error == ErrorOf(Attempt(old(Contents()), OpStatus(to), commit))
    {
      CallKeepsSound(Contents(), Call(OpStatus(to), commit));
      if to !in AllowedTransitions(row.status) {
        return Some(InvalidTransition);
      }
      var from := row.status;
      var changed := row.(status := to);
      var committed := RecordChange(map[KNewStatus := TextJson(StandingName(to))] + ContractProjection(id, changed), commit);
      if !committed {
        return Some(Internal);
      }
      row, announced := changed, changed;
      history := history + [Transition(from, to)];
      error := None;
    }

    method AddAmendmentCall(a: Amendment, commit: Commit) returns (error: Option<Error>)
      requires Valid()
      modifies this
      ensures Valid() && Contents() == After(old(Contents()), Call(OpAmend(a), commit))
      ensures error == ErrorOf(Attempt(old(Contents()), OpAmend(a), commit))
    {
      CallKeepsSound(Contents(), Call(OpAmend(a), commit));
      var changed := row;
      if a.endDateChange.Some? && a.endDateChange.value < changed.startDate {
        return Some(Conflict);
      }
      if a.valueChange.Some? {
        changed := changed.(cents := changed.cents + a.valueChange.value);
        if changed.cents <= 0 {
          return Some(Conflict);
        }
      }
      if a.endDateChange.Some? {
        changed := changed.(endDate := a.endDateChange.value);
      }
      var committed := RecordChange(map[], commit);
      if !committed {
        return Some(Internal);
      }
      row := changed;
      error := None;
    }

    /** Sets every given field of a row. */
    method SetFields(row: Contract, ch: Changes) returns (updated: Contract)
      requires !SetToNull(ch.startDate) && !SetToNull(ch.endDate)
      requires !SetToNull(ch.title) && !SetToNull(ch.cents) && !SetToNull(ch.currency)
      ensures updated == Updated(row, ch)
    {
      updated := row;
      if ch.title.Set? {
        updated := updated.(title := ch.title.value.value);
      }
      if ch.description.Set? {
        updated := updated.(description := ch.description.value);
      }
      if ch.cents.Set? {
        updated := updated.(cents := ch.cents.value.value);
      }
      if ch.currency.Set? {
        updated := updated.(currency := ch.currency.value.value);
      }
      if ch.signedDate.Set? {
        updated := updated.(signedDate := ch.signedDate.value);
      }
      if ch.startDate.Set? {
        updated := updated.(startDate := ch.startDate.value.value);
      }
      if ch.endDate.Set? {
        updated := updated.(endDate := ch.endDate.value.value);
      }
      if ch.departmentId.Set? {
        updated := updated.(departmentId := ch.departmentId.value);
      }
      if ch.responsibleUserId.Set? {
        updated := updated.(responsibleUserId := ch.responsibleUserId.value);
      }
    }

    method UpdateCall(ch: Changes, commit: Commit) returns (error: Option<Error>)
      requires Valid()
      modifies this
      ensures Valid() && Contents() == After(old(Contents()), Call(OpUpdate(ch), commit))
      ensures error == ErrorOf(Attempt(old(Contents()), OpUpdate(ch), commit))
    {
      CallKeepsSound(Contents(), Call(OpUpdate(ch), commit));
      if !ValidChanges(ch) {
        return Some(Invalid);
      }
      if SetToNull(ch.startDate) || SetToNull(ch.endDate) {
        return Some(Internal);
      }
      var startDate := if ch.startDate.Set? then ch.startDate.value.value else row.startDate;
      var endDate := if ch.endDate.Set? then ch.endDate.value.value else row.endDate;
      var signedDate := if ch.signedDate.Set? then ch.signedDate.value else row.signedDate;
      if endDate < startDate || (signedDate.Some? && signedDate.value > endDate) {
        return Some(Conflict);
      }
      if SetToNull(ch.title) || SetToNull(ch.cents) || SetToNull(ch.currency) {
        return Some(Internal);
      }
      var changed := SetFields(row, ch);
      assert map[] + ContractProjection(id, changed) == ContractProjection(id, changed);
      var committed := RecordChange(ContractProjection(id, changed), commit);
      if !committed {
        return Some(Internal);
      }
      row, announced := changed, changed;
      error := None;
    }
  }

  // ---- invariants over every sequence of calls ----

  /** The history is an unbroken path of allowed transitions from DRAFT to the current status. */
  predicate UnbrokenHistory(history: seq<Transition>, status: Standing) {
    && (forall i :: 0 <= i < |history| ==> history[i].to in AllowedTransitions(history[i].from))
    && (forall i :: 0 < i < |history| ==> history[i].from == history[i - 1].to)
    && (if |history| == 0 then status == Draft
        else history[0].from == Draft && history[|history| - 1].to == status)
  }

  predicate Sound(s: State) {
    && s.row.cents > 0
    && s.row.startDate <= s.row.endDate
    && s.row.number != "" && s.row.title != "" && ValidCurrency(s.row.currency)
    && UnbrokenHistory(s.history, s.row.status)
    && (forall i, j :: 0 <= i < j < |s.outbox| ==> s.outbox[i].id != s.outbox[j].id)
  }

  lemma StatusKeepsSound(s: State, to: Standing, commit: Commit)
    requires Sound(s) && ChangeStatus(s, to, commit).Ok?
    ensures Sound(ChangeStatus(s, to, commit).value)
  {
  }

  lemma UpdateKeepsSound(s: State, ch: Changes, commit: Commit)
    requires Sound(s) && Update(s, ch, commit).Ok?
    ensures Sound(Update(s, ch, commit).value)
  {
  }

  lemma CallKeepsSound(s: State, call: Call)
    requires Sound(s)
    ensures Sound(After(s, call))
  {
    if Attempt(s, call.op, call.commit).Ok? {
      match call.op
      case OpStatus(to) => StatusKeepsSound(s, to, call.commit);
      case OpUpdate(ch) => UpdateKeepsSound(s, ch, call.commit);
      case _ =>
    }
  }

  /** Whatever the calls and their failures, every reachable contract is sound. */
  lemma {:induction false} ReachableSound(tenant: Id, id: Id, data: Contract, commit: Commit, calls: seq<Call>)
    requires Create(tenant, id, data, false, commit).Ok?
    ensures Sound(AfterAll(Create(tenant, id, data, false, commit).value, calls))
  {
    if |calls| > 0 {
      ReachableSound(tenant, id, data, commit, Front(calls));
      CallKeepsSound(AfterAll(Create(tenant, id, data, false, commit).value, Front(calls)), Last(calls));
    }
  }

  predicate Terminal(status: Standing) {
    AllowedTransitions(status) == {}
  }

  /** Completed, terminated and cancelled are absorbing: no later call moves the status again. */
  lemma {:induction false} TerminalAbsorbs(s: State, calls: seq<Call>)
    requires Terminal(s.row.status)
    ensures AfterAll(s, calls).row.status == s.row.status && AfterAll(s, calls).history == s.history
  {
    if |calls| > 0 {
      TerminalAbsorbs(s, Front(calls));
    }
  }

  // ---- conserved value ----

  /** A committed change of the value: set outright, or amended. */
  datatype Entry = SetTo(cents: int) | Amended(cents: int)

  function EntryOf(s: State, call: Call): seq<Entry> {
    if Attempt(s, call.op, call.commit).Err? then []
    else match call.op
         case OpUpdate(ch) => if ch.cents.Set? then [SetTo(Required(ch.cents, 0))] else []
         case OpAmend(a) => if a.valueChange.Some? then [Amended(a.valueChange.value)] else []
         case _ => []
  }

  /** The value ledger of a contract's life, starting with its creation. */
  function Ledger(s: State, calls: seq<Call>): seq<Entry> {
    if |calls| == 0 then [SetTo(s.row.cents)]
    else Ledger(s, Front(calls)) + EntryOf(AfterAll(s, Front(calls)), Last(calls))
  }

  function SumAmended(ledger: seq<Entry>): int {
    if |ledger| == 0 then 0
    else SumAmended(Front(ledger)) + if Last(ledger).Amended? then Last(ledger).cents else 0
  }

  /** Entry i is the last one that set the value outright. */
  predicate LastSet(ledger: seq<Entry>, i: nat) {
    i < |ledger| && ledger[i].SetTo? && forall j :: i < j < |ledger| ==> ledger[j].Amended?
  }

  lemma EntryEffect(s: State, call: Call)
    ensures var entry := EntryOf(s, call);
      && |entry| <= 1
      && After(s, call).row.cents ==
         if entry == [] then s.row.cents
         else if entry[0].SetTo? then entry[0].cents
         else s.row.cents + entry[0].cents
  {
  }

  lemma SumExtends(ledger: seq<Entry>, e: Entry)
    ensures SumAmended(ledger + [e]) == SumAmended(ledger) + (if e.Amended? then e.cents else 0)
  {
    assert Front(ledger + [e]) == ledger;
  }

  /** Conservation: the value is the last value set outright plus every later amendment. */
  lemma {:induction false} ValueConserved(s: State, calls: seq<Call>) returns (i: nat)
    ensures LastSet(Ledger(s, calls), i)
    ensures AfterAll(s, calls).row.cents == Ledger(s, calls)[i].cents + SumAmended(Ledger(s, calls)[i..])
  {
    if |calls| == 0 {
      i := 0;
      SumExtends([], SetTo(s.row.cents));
      assert Ledger(s, calls)[0..] == [] + [SetTo(s.row.cents)];
    } else {
      var t := AfterAll(s, Front(calls));
      i := ValueConserved(s, Front(calls));
      EntryEffect(t, Last(calls));
      i := LedgerGrows(Ledger(s, Front(calls)), EntryOf(t, Last(calls)), i);
    }
  }

  lemma LedgerGrows(ledger: seq<Entry>, entry: seq<Entry>, i: nat) returns (j: nat)
    requires LastSet(ledger, i) && |entry| <= 1
    ensures LastSet(ledger + entry, j)
    ensures (ledger + entry)[j].cents + SumAmended((ledger + entry)[j..]) ==
      if entry == [] then ledger[i].cents + SumAmended(ledger[i..])
      else if entry[0].SetTo? then entry[0].cents
      else ledger[i].cents + SumAmended(ledger[i..]) + entry[0].cents
  {
    var all := ledger + entry;
    if entry == [] {
      j := i;
      assert all == ledger;
    } else if entry[0].SetTo? {
      j := |ledger|;
      assert all[j] == entry[0] && all[j..] == [] + [entry[0]];
      SumExtends([], entry[0]);
    } else {
      j := i;
      assert all[j] == ledger[i] && all[j..] == ledger[i..] + [entry[0]];
      SumExtends(ledger[i..], entry[0]);
    }
  }

  // ---- the date an amendment does not recheck ----

  predicate SignedInTime(c: Contract) {
    c.signedDate.Some? ==> c.signedDate.value <= c.endDate
  }

  /**
   An amendment does not recheck the signing date: it keeps it in time exactly when it does
   not move the end date before it.
   */
  lemma AmendmentSignedInTime(s: State, a: Amendment, commit: Commit)
    requires SignedInTime(s.row) && AddAmendment(s, a, commit).Ok?
    ensures SignedInTime(AddAmendment(s, a, commit).value.row) <==>
      s.row.signedDate.None? || a.endDateChange.None? || s.row.signedDate.value <= a.endDateChange.value
  {
  }

  /** A committed amendment of the end date, and a committed update, which checks all dates again. */
  predicate MovesEnd(s: State, call: Call) {
    call.op.OpAmend? && call.op.amendment.endDateChange.Some? && Attempt(s, call.op, call.commit).Ok?
  }

  predicate Rechecks(s: State, call: Call) {
    call.op.OpUpdate? && Attempt(s, call.op, call.commit).Ok?
  }

  /** Only these two kinds of calls decide whether the signing date is in time. */
  lemma CallSigned(s: State, call: Call)
    ensures Rechecks(s, call) ==> SignedInTime(After(s, call).row)
    ensures MovesEnd(s, call) ==>
      (SignedInTime(After(s, call).row) <==>
         s.row.signedDate.None? || s.row.signedDate.value <= call.op.amendment.endDateChange.value)
    ensures !Rechecks(s, call) && !MovesEnd(s, call) ==> (SignedInTime(After(s, call).row) <==> SignedInTime(s.row))
  {
  }

  /** Call i leaves the question as it stands. */
  predicate QuietAt(s: State, calls: seq<Call>, i: nat)
    requires i < |calls|
  {
    !Rechecks(AfterAll(s, calls[..i]), calls[i]) && !MovesEnd(AfterAll(s, calls[..i]), calls[i])
  }

  /** Call i moves the end date before the signing date. */
  predicate EndsBeforeSigningAt(s: State, calls: seq<Call>, i: nat)
    requires i < |calls|
  {
    var before := AfterAll(s, calls[..i]);
    && MovesEnd(before, calls[i]) && before.row.signedDate.Some?
    && calls[i].op.amendment.endDateChange.value < before.row.signedDate.value
  }

  /** Call i moves the end date before the signing date, and no later call decides again. */
  predicate BrokenAt(s: State, calls: seq<Call>, i: nat) {
    i < |calls| && EndsBeforeSigningAt(s, calls, i) && forall j :: i < j < |calls| ==> QuietAt(s, calls, j)
  }

  lemma PrefixOfCalls(s: State, calls: seq<Call>, i: nat)
    requires i < |calls| - 1
    ensures QuietAt(s, Front(calls), i) == QuietAt(s, calls, i)
    ensures EndsBeforeSigningAt(s, Front(calls), i) == EndsBeforeSigningAt(s, calls, i)
  {
    assert Front(calls)[..i] == calls[..i];
  }

  lemma BrokenPrefix(s: State, calls: seq<Call>, i: nat)
    requires i < |calls| - 1
    ensures BrokenAt(s, calls, i) <==> BrokenAt(s, Front(calls), i) && QuietAt(s, calls, |calls| - 1)
  {
    forall j | 0 <= j < |calls| - 1
      ensures QuietAt(s, Front(calls), j) == QuietAt(s, calls, j)
    {
      PrefixOfCalls(s, calls, j);
    }
    PrefixOfCalls(s, calls, i);
  }

  /**
   When a contract is signed after its end: over every sequence of calls, exactly if some
   amendment moved the end date before the signing date and no later call checked the dates
   or moved the end again.
   */
  lemma {:induction false} SignedLateExactly(s: State, calls: seq<Call>)
    requires SignedInTime(s.row)
    ensures !SignedInTime(AfterAll(s, calls).row) <==> exists i: nat :: BrokenAt(s, calls, i)
  {
    if |calls| > 0 {
      var before, last, n := AfterAll(s, Front(calls)), Last(calls), |calls| - 1;
      assert calls[..n] == Front(calls);
      SignedLateExactly(s, Front(calls));
      CallSigned(before, last);
      forall i: nat | i < n
        ensures BrokenAt(s, calls, i) <==> BrokenAt(s, Front(calls), i) && QuietAt(s, calls, n)
      {
        BrokenPrefix(s, calls, i);
      }
      if !SignedInTime(AfterAll(s, calls).row) {
        if MovesEnd(before, last) {
          assert BrokenAt(s, calls, n);
        } else {
          var i: nat :| BrokenAt(s, Front(calls), i);
          assert BrokenAt(s, calls, i);
        }
      }
    }
  }

  /** A contract signed on day 5 and amended to end on day 3 ends before it was signed. */
  lemma AmendmentEndsBeforeSigning()
    ensures var data := Contract("C-1", "Supply", None, 100, "RON", Some(5), 1, 9, Draft, None, None);
      var s := Create(1, 2, data, false, Commit(1, 0)).value;
      var t := AddAmendment(s, Amendment(None, Some(3)), Commit(2, 1));
      SignedInTime(s.row) && t.Ok? && !SignedInTime(t.value.row)
  {
  }
}
