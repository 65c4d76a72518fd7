/**
 The gateway's fixed-window rate limit. The window number is part of the counter's key; the
 first increment of a key sets it to expire one second after a window's length. Times are in
 milliseconds: `read` is when a request read the clock, `at` when its increment took effect,
 `armed` when the expiry of a first increment did. Until then the key has no expiry, so it cannot
 pass away in between, and the expiry can be noted with the increment.
 */
module RateLimit {
  import opened Common

  datatype Scope =
    | DocumentUpload | NotificationMutation | NotificationRead
    | InsightsExport | InsightsSearch | InsightsDashboard | General

  datatype Budgets = Budgets(
    window: nat, upload: nat, change: nat, read: nat, exports: nat, search: nat, dashboard: nat, general: nat)

  /** The settings refuse a window below one second and limits below one. */
  type Settings = b: Budgets
    | b.window >= 1 && b.upload >= 1 && b.change >= 1 && b.read >= 1
      && b.exports >= 1 && b.search >= 1 && b.dashboard >= 1 && b.general >= 1
    witness Budgets(60, 30, 60, 180, 20, 120, 120, 240)

  function Limit(c: Settings, scope: Scope): (limit: nat)
    ensures limit >= 1
  {
    match scope
    case DocumentUpload => c.upload
    case NotificationMutation => c.change
    case NotificationRead => c.read
    case InsightsExport => c.exports
    case InsightsSearch => c.search
    case InsightsDashboard => c.dashboard
    case General => c.general
  }

  // ---- which budget a request draws on ----

  datatype Request = Request(verb: string, path: string)

  predicate Contains(s: string, part: string) {
    exists i :: 0 <= i <= |s| && part <= s[i..]
  }

  predicate EndsWith(s: string, part: string) {
    |part| <= |s| && s[|s| - |part|..] == part
  }

  /** The gateway's own health checks. */
  predicate Probe(r: Request) {
    r.path == "/health" || r.path == "/ready"
  }

  predicate DocumentMutation(r: Request) {
    "/api/v1/documents" <= r.path && r.verb in {"POST", "PUT", "PATCH"}
  }

  predicate NotificationRequest(r: Request) {
    "/api/v1/notifications" <= r.path
  }

  predicate NotificationChange(r: Request) {
    NotificationRequest(r) && r.verb in {"POST", "PUT", "PATCH", "DELETE"}
  }

  predicate InsightsRequest(r: Request) {
    "/api/v1/insights" <= r.path
  }

  predicate SearchRequest(r: Request) {
    r.path == "/api/v1/insights/search"
  }

  /** Not tied to the insights prefix. */
  predicate ExportRequest(r: Request) {
    Contains(r.path, "/exports") || EndsWith(r.path, "/runs")
  }

  function ScopeOf(r: Request): Scope {
    if DocumentMutation(r) then DocumentUpload
    else if NotificationChange(r) then NotificationMutation
    else if NotificationRequest(r) then NotificationRead
    else if ExportRequest(r) then InsightsExport
    else if SearchRequest(r) then InsightsSearch
    else if InsightsRequest(r) then InsightsDashboard
    else General
  }

  /** The seven kinds of requests, from path and verb alone, whichever test comes first. */
  const DOCUMENTS := "/api/v1/documents"
  const NOTIFICATIONS := "/api/v1/notifications"
  const INSIGHTS := "/api/v1/insights"

  predicate ChangesNotification(r: Request) {
    NOTIFICATIONS <= r.path && (r.verb == "POST" || r.verb == "PUT" || r.verb == "PATCH" || r.verb == "DELETE")
  }

  predicate ReadsNotification(r: Request) {
    NOTIFICATIONS <= r.path && r.verb != "POST" && r.verb != "PUT" && r.verb != "PATCH" && r.verb != "DELETE"
  }

  predicate StoresDocument(r: Request) {
    DOCUMENTS <= r.path && (r.verb == "POST" || r.verb == "PUT" || r.verb == "PATCH")
  }

  /** The path names an export or ends in runs, wherever it lies. */
  predicate NamesExport(path: string) {
    || (exists i :: 0 <= i <= |path| && StandsAt(path, i, "/exports"))
    || (|path| >= 5 && StandsAt(path, |path| - 5, "/runs"))
  }

  predicate StandsAt(path: string, i: nat, part: string) {
    i + |part| <= |path| && path[i..i + |part|] == part
  }

  lemma ContainsAt(path: string, part: string)
    ensures Contains(path, part) <==> exists i :: 0 <= i <= |path| && StandsAt(path, i, part)
  {
    forall i | 0 <= i <= |path|
      ensures StandsAt(path, i, part) <==> part <= path[i..]
    {
      if part <= path[i..] {
        assert path[i..i + |part|] == path[i..][..|part|];
      }
    }
  }

  lemma EndsAt(path: string, part: string)
    ensures EndsWith(path, part) <==> |path| >= |part| && StandsAt(path, |path| - |part|, part)
  {
    if |path| >= |part| {
      assert path[|path| - |part|..] == path[|path| - |part|..|path|];
    }
  }

  lemma NamesExportExactly(r: Request)
    ensures NamesExport(r.path) <==> ExportRequest(r)
  {
    ContainsAt(r.path, "/exports");
    EndsAt(r.path, "/runs");
  }

  const SEARCH := "/api/v1/insights/search"

  /** The search path names no export: the only e in it comes too late, and it ends in another way. */
  lemma SearchNamesNoExport()
    ensures |SEARCH| == 23 && !NamesExport(SEARCH)
  {
    assert forall j :: 1 <= j <= 16 ==> SEARCH[j] != 'e';
    forall i | 0 <= i <= |SEARCH|
      ensures !StandsAt(SEARCH, i, "/exports")
    {
      assert "/exports"[1] == 'e';
      assert i + 8 <= |SEARCH| ==> SEARCH[i..i + 8][1] == SEARCH[i + 1];
    }
    assert SEARCH[18..23][0] == 'e' && "/runs"[0] == '/';
  }

  /** No path lies under two of the three prefixes. */
  lemma PrefixesApart(path: string)
    ensures !(DOCUMENTS <= path && NOTIFICATIONS <= path)
    ensures !(INSIGHTS <= path && NOTIFICATIONS <= path)
    ensures !(INSIGHTS <= path && DOCUMENTS <= path)
    ensures INSIGHTS <= SEARCH
  {
    assert DOCUMENTS[8] == 'd' && NOTIFICATIONS[8] == 'n' && INSIGHTS[8] == 'i';
  }

  /**
   Which budget a request draws on, from its path and verb alone: a change of notifications on
   the one for changes however its path goes on, any other notification request on the one for
   reading, and so on; documents and notifications come before exports, exports before the rest.
   */
  lemma BudgetExactly(c: Settings, r: Request)
    ensures StoresDocument(r) ==> ScopeOf(r) == DocumentUpload && Limit(c, ScopeOf(r)) == c.upload
    ensures ChangesNotification(r) ==> ScopeOf(r) == NotificationMutation && Limit(c, ScopeOf(r)) == c.change
    ensures ReadsNotification(r) ==> ScopeOf(r) == NotificationRead && Limit(c, ScopeOf(r)) == c.read
    ensures var other := !StoresDocument(r) && !(NOTIFICATIONS <= r.path);
      && (other && NamesExport(r.path) ==> ScopeOf(r) == InsightsExport && Limit(c, ScopeOf(r)) == c.exports)
      && (r.path == "/api/v1/insights/search" ==> ScopeOf(r) == InsightsSearch && Limit(c, ScopeOf(r)) == c.search)
      && (INSIGHTS <= r.path && !NamesExport(r.path) && r.path != "/api/v1/insights/search" ==>
            ScopeOf(r) == InsightsDashboard && Limit(c, ScopeOf(r)) == c.dashboard)
      && (other && !NamesExport(r.path) && !(INSIGHTS <= r.path) ==> ScopeOf(r) == General && Limit(c, ScopeOf(r)) == c.general)
  {
    NamesExportExactly(r);
    PrefixesApart(r.path);
    SearchNamesNoExport();
  }

  /** Only these requests draw on the budget for changes of notifications. */
  lemma ChangesExactly(r: Request)
    ensures ScopeOf(r) == NotificationMutation <==> ChangesNotification(r)
  {
    PrefixesApart(r.path);
  }

  // ---- the counters ----

  datatype Key = Key(scope: Scope, window: nat, subject: Id)

  datatype Counter = Counter(count: nat, expires: Option<Time>)

  datatype Fault = NoFault | IncrFails | ExpireFails

  datatype Call = Call(scope: Scope, subject: Id, read: nat, at: nat, armed: nat, fault: Fault)

  datatype Outcome = Passed | Limited | Unavailable

  type Counters = map<Key, Counter>

  function Window(c: Settings, read: nat): nat {
    (read / 1000) / c.window
  }

  function KeyOf(c: Settings, call: Call): Key {
    Key(call.scope, Window(c, call.read), call.subject)
  }

  predicate Live(counters: Counters, key: Key, now: Time) {
    key in counters && (counters[key].expires.None? || now < counters[key].expires.value)
  }

  /** The increment: an expired key starts again, with no expiry of its own yet. */
  function Incremented(counters: Counters, key: Key, now: Time): Counter {
    if Live(counters, key, now) then Counter(counters[key].count + 1, counters[key].expires) else Counter(1, None)
  }

  function Serve(c: Settings, counters: Counters, call: Call): (Counters, Outcome) {
    if call.fault.IncrFails? then (counters, Unavailable)
    else
      var key := KeyOf(c, call);
      var counter := Incremented(counters, key, call.at);
      if counter.count == 1 && call.fault.ExpireFails? then (counters[key := counter], Unavailable)
      else
        var kept := if counter.count == 1 then counter.(expires := Some(call.armed + (c.window + 1) * 1000)) else counter;
        (counters[key := kept], if counter.count > Limit(c, call.scope) then Limited else Passed)
  }

  function After(c: Settings, calls: seq<Call>): Counters {
    if |calls| == 0 then map[] else Serve(c, After(c, Front(calls)), Last(calls)).0
  }

  function OutcomeAt(c: Settings, calls: seq<Call>, i: nat): Outcome
    requires i < |calls|
  {
    Serve(c, After(c, calls[..i]), calls[i]).1
  }

  predicate Increments(c: Settings, call: Call, key: Key) {
    KeyOf(c, call) == key && !call.fault.IncrFails?
  }

  /** How many of the calls incremented this key. */
  function Count(c: Settings, calls: seq<Call>, key: Key): nat {
    if |calls| == 0 then 0 else Count(c, Front(calls), key) + if Increments(c, Last(calls), key) then 1 else 0
  }

  /** The place of call `i` among the increments of its window. */
  function Ordinal(c: Settings, calls: seq<Call>, i: nat): nat
    requires i < |calls|
  {
    Count(c, calls[..i + 1], KeyOf(c, calls[i]))
  }

  /** The first call that incremented the key. */
  function FirstOf(c: Settings, calls: seq<Call>, key: Key): (first: Option<nat>)
    ensures first.Some? ==> first.value < |calls| && Increments(c, calls[first.value], key)
  {
    if |calls| == 0 then None
    else
      var before := FirstOf(c, Front(calls), key);
      if before.None? && Increments(c, Last(calls), key) then Some(|calls| - 1) else before
  }

  /** The expiry that the increment `call` sets if it finds no counter has passed. */
  predicate Outlived(c: Settings, call: Call, at: nat) {
    !call.fault.ExpireFails? && at >= call.armed + (c.window + 1) * 1000
  }

  /** The call at which the key's present counter began: later ones begin again once it is outlived. */
  function Began(c: Settings, calls: seq<Call>, key: Key): (began: Option<nat>)
    ensures began.Some? ==> began.value < |calls| && Increments(c, calls[began.value], key)
  {
    if |calls| == 0 then None
    else
      var before := Began(c, Front(calls), key);
      if Increments(c, Last(calls), key) && (before.None? || Outlived(c, calls[before.value], Last(calls).at)) then Some(|calls| - 1)
      else before
  }

  /** A key's counter holds the increments since it began, and expires by the time it began. */
  predicate CounterKnown(c: Settings, calls: seq<Call>, counters: Counters, key: Key) {
    match Began(c, calls, key)
    case None => key !in counters && Count(c, calls, key) == 0
    case Some(b) =>
      && key in counters && counters[key].count == Count(c, calls, key) - Count(c, calls[..b], key)
      && counters[key].expires == if calls[b].fault.ExpireFails? then None else Some(calls[b].armed + (c.window + 1) * 1000)
  }

  /** What one call does to one counter. */
  lemma ServeKey(c: Settings, counters: Counters, call: Call, key: Key)
    ensures var t, counter := Serve(c, counters, call).0, Incremented(counters, key, call.at);
      if Increments(c, call, key) then
        key in t && t[key] == if counter.count == 1 && !call.fault.ExpireFails?
                              then counter.(expires := Some(call.armed + (c.window + 1) * 1000)) else counter
      else (key in t <==> key in counters) && (key in t ==> t[key] == counters[key])
  {
  }

  /** The counters after any history of calls, late ones and faults included. */
  lemma {:induction false} CountersExact(c: Settings, calls: seq<Call>, key: Key)
    ensures CounterKnown(c, calls, After(c, calls), key)
    ensures forall b :: Began(c, calls, key) == Some(b) ==> Count(c, calls[..b], key) < Count(c, calls, key)
  {
    if |calls| > 0 {
      var p := Front(calls);
      CountersExact(c, p, key);
      ServeKey(c, After(c, p), Last(calls), key);
      var before := Began(c, p, key);
      if before.Some? {
        assert calls[..before.value] == p[..before.value] && calls[before.value] == p[before.value];
      }
      assert calls[..|p|] == p;
    }
  }

  /** How many increments of its window call `i` finds counted, itself included. */
  function Counted(c: Settings, calls: seq<Call>, i: nat): int
    requires i < |calls|
  {
    var key, upTo := KeyOf(c, calls[i]), calls[..i + 1];
    match Began(c, upTo, key)
    case None => 0
    case Some(b) => Count(c, upTo, key) - Count(c, upTo[..b], key)
  }

  /**
   For every history, late increments and faults included: a request passes exactly when
   Redis answers and the increments of its window since the counter last began are within the
   limit, whatever other scopes, subjects and windows do.
   */
  lemma PassesByCounted(c: Settings, calls: seq<Call>, i: nat)
    requires i < |calls|
    ensures OutcomeAt(c, calls, i) == Passed <==>
      && !calls[i].fault.IncrFails?
      && !(calls[i].fault.ExpireFails? && Counted(c, calls, i) == 1)
      && Counted(c, calls, i) <= Limit(c, calls[i].scope)
  {
    var key, upTo := KeyOf(c, calls[i]), calls[..i + 1];
    assert Front(upTo) == calls[..i] && Last(upTo) == calls[i];
    CountersExact(c, calls[..i], key);
    CountersExact(c, upTo, key);
  }

  /** Increments take effect one after the other. */
  predicate TimesOrdered(calls: seq<Call>) {
    forall i, j :: 0 <= i < j < |calls| ==> calls[i].at <= calls[j].at
  }

  /** Call `i` comes before the expiry that the first increment of its window set. */
  predicate InTime(c: Settings, calls: seq<Call>, i: nat)
    requires i < |calls|
  {
    var first := FirstOf(c, calls[..i + 1], KeyOf(c, calls[i]));
    first.Some? && first.value < i ==> !Outlived(c, calls[first.value], calls[i].at)
  }

  /** A counter never began but once exactly if the last increment is not late. */
  lemma {:induction false} BeganFirst(c: Settings, calls: seq<Call>, key: Key)
    requires TimesOrdered(calls)
    ensures FirstOf(c, calls, key).Some? <==> Began(c, calls, key).Some?
    ensures FirstOf(c, calls, key).Some? ==> FirstOf(c, calls, key).value <= Began(c, calls, key).value
    ensures FirstOf(c, calls, key).Some? && FirstOf(c, calls, key) != Began(c, calls, key) ==>
      Outlived(c, calls[FirstOf(c, calls, key).value], calls[Began(c, calls, key).value].at)
    ensures |calls| > 0 && Increments(c, Last(calls), key) ==>
      (FirstOf(c, calls, key) == Began(c, calls, key) <==>
         FirstOf(c, calls, key) == Some(|calls| - 1) || !Outlived(c, calls[FirstOf(c, calls, key).value], Last(calls).at))
  {
    if |calls| > 0 {
      BeganFirst(c, Front(calls), key);
    }
  }

  /** Nothing is counted before the first increment, and something before any later one. */
  lemma {:induction false} CountBeforeFirst(c: Settings, calls: seq<Call>, key: Key, b: nat)
    requires b <= |calls|
    ensures Count(c, calls[..b], key) == 0 <==> FirstOf(c, calls, key).None? || b <= FirstOf(c, calls, key).value
  {
    if |calls| > 0 {
      if b == |calls| {
        assert calls[..b] == calls;
        CountBeforeFirst(c, Front(calls), key, b - 1);
        assert Front(calls)[..b - 1] == Front(calls);
      } else {
        assert Front(calls)[..b] == calls[..b];
        CountBeforeFirst(c, Front(calls), key, b);
      }
    }
  }

  /**
   The limit is kept by ordinals exactly in time: an increment counts all increments of its
   window if and only if it comes before the expiry the first of them set.
   */
  lemma OrdinalExactly(c: Settings, calls: seq<Call>, i: nat)
    requires TimesOrdered(calls) && i < |calls| && !calls[i].fault.IncrFails?
    ensures Counted(c, calls, i) == Ordinal(c, calls, i) <==> InTime(c, calls, i)
  {
    var key, upTo := KeyOf(c, calls[i]), calls[..i + 1];
    assert Last(upTo) == calls[i];
    BeganFirst(c, upTo, key);
    CountBeforeFirst(c, upTo, key, Began(c, upTo, key).value);
  }

  /**
   A counter never starts again inside its window and the second after it: a request that
   comes in time passes exactly when Redis answers and its place among the window's requests
   of its scope and subject is within the limit.
   */
  lemma PassesByOrdinal(c: Settings, calls: seq<Call>, i: nat)
    requires TimesOrdered(calls) && i < |calls| && InTime(c, calls, i)
    ensures OutcomeAt(c, calls, i) == Passed <==>
      && !calls[i].fault.IncrFails?
      && !(calls[i].fault.ExpireFails? && Ordinal(c, calls, i) == 1)
      && Ordinal(c, calls, i) <= Limit(c, calls[i].scope)
  {
    PassesByCounted(c, calls, i);
    if !calls[i].fault.IncrFails? {
      OrdinalExactly(c, calls, i);
    }
  }

  lemma WindowStart(c: Settings, read: nat)
    ensures Window(c, read) * c.window * 1000 <= read < (Window(c, read) + 1) * c.window * 1000
  {
    var seconds := read / 1000;
    var k := seconds / c.window;
    assert seconds == k * c.window + seconds % c.window;
    assert (k + 1) * c.window == k * c.window + c.window;
  }

  /** An increment within a second of the end of the window its request read. */
  predicate Prompt(c: Settings, call: Call) {
    call.read <= call.at < (Window(c, call.read) + 1) * c.window * 1000 + 1000
  }

  /** Prompt increments are always in time. */
  lemma PromptInTime(c: Settings, calls: seq<Call>, i: nat)
    requires i < |calls| && Prompt(c, calls[i])
    requires forall j :: 0 <= j <= i ==> calls[j].read <= calls[j].at <= calls[j].armed
    ensures InTime(c, calls, i)
  {
    var key := KeyOf(c, calls[i]);
    var first := FirstOf(c, calls[..i + 1], key);
    if first.Some? {
      var f := calls[first.value];
      assert Window(c, f.read) == key.window == Window(c, calls[i].read);
      WindowStart(c, f.read);
      OneWindow(c, key.window);
    }
  }

  lemma OneWindow(c: Settings, k: nat)
    ensures (k + 1) * c.window * 1000 + 1000 == k * c.window * 1000 + (c.window + 1) * 1000
  {
  }

  // ---- how many requests pass ----

  predicate Counts(call: Call, scope: Scope, subject: Id, from: int, to: int) {
    call.scope == scope && call.subject == subject && from <= call.read < to
  }

  /** Requests of one scope and subject that pass and read the clock in [from, to). */
  function PassedIn(c: Settings, calls: seq<Call>, scope: Scope, subject: Id, from: int, to: int): nat {
    if |calls| == 0 then 0
    else
      PassedIn(c, Front(calls), scope, subject, from, to) +
      if Counts(Last(calls), scope, subject, from, to) && Serve(c, After(c, Front(calls)), Last(calls)).1.Passed? then 1 else 0
  }

  lemma Scaled(a: nat, b: nat, window: nat)
    requires a <= b
    ensures a * window * 1000 <= b * window * 1000
  {
    assert b * window == a * window + (b - a) * window;
  }

  lemma WindowOf(c: Settings, read: nat, k: nat)
    ensures Window(c, read) == k <==> k * c.window * 1000 <= read < (k + 1) * c.window * 1000
  {
    WindowStart(c, read);
    var w := Window(c, read);
    if w < k {
      Scaled(w + 1, k, c.window);
    } else if w > k {
      Scaled(k + 1, w, c.window);
    }
  }

  /** Every request of the scope and subject comes in time. */
  predicate AllInTime(c: Settings, calls: seq<Call>, scope: Scope, subject: Id) {
    forall i :: 0 <= i < |calls| && calls[i].scope == scope && calls[i].subject == subject ==> InTime(c, calls, i)
  }

  lemma InTimeBefore(c: Settings, calls: seq<Call>, scope: Scope, subject: Id)
    requires |calls| > 0 && TimesOrdered(calls) && AllInTime(c, calls, scope, subject)
    ensures TimesOrdered(Front(calls)) && AllInTime(c, Front(calls), scope, subject)
  {
    forall i | 0 <= i < |calls| - 1
      ensures InTime(c, Front(calls), i) == InTime(c, calls, i)
    {
      assert Front(calls)[..i + 1] == calls[..i + 1];
    }
  }

  /** The requests that pass in window `k`, one call at a time. */
  lemma WindowStep(c: Settings, calls: seq<Call>, scope: Scope, subject: Id, k: nat)
    requires |calls| > 0
    ensures var low, high := k * c.window * 1000, (k + 1) * c.window * 1000;
      PassedIn(c, calls, scope, subject, low, high) == PassedIn(c, Front(calls), scope, subject, low, high) +
        if KeyOf(c, Last(calls)) == Key(scope, k, subject) && OutcomeAt(c, calls, |calls| - 1).Passed? then 1 else 0
  {
    WindowOf(c, Last(calls).read, k);
    assert calls[..|calls| - 1] == Front(calls);
  }

  /** The outcome of the last call, when it comes in time and nothing fails. */
  lemma LastOutcome(c: Settings, calls: seq<Call>)
    requires |calls| > 0 && TimesOrdered(calls) && InTime(c, calls, |calls| - 1) && Last(calls).fault.NoFault?
    ensures Serve(c, After(c, Front(calls)), Last(calls)).1 == Passed <==>
      Count(c, calls, KeyOf(c, Last(calls))) <= Limit(c, Last(calls).scope)
  {
    PassesByOrdinal(c, calls, |calls| - 1);
    assert calls[..|calls| - 1] == Front(calls) && calls[..|calls| - 1 + 1] == calls;
  }

  /** A request that passes in time finds no more than the limit counted. */
  lemma LastPasses(c: Settings, calls: seq<Call>)
    requires |calls| > 0 && TimesOrdered(calls) && InTime(c, calls, |calls| - 1) && OutcomeAt(c, calls, |calls| - 1).Passed?
    ensures Count(c, calls, KeyOf(c, Last(calls))) <= Limit(c, Last(calls).scope)
    ensures Count(c, calls, KeyOf(c, Last(calls))) == Count(c, Front(calls), KeyOf(c, Last(calls))) + 1
  {
    PassesByOrdinal(c, calls, |calls| - 1);
    assert calls[..|calls| - 1 + 1] == calls;
  }

  lemma {:induction false} WindowBound(c: Settings, calls: seq<Call>, scope: Scope, subject: Id, k: nat)
    requires TimesOrdered(calls) && AllInTime(c, calls, scope, subject)
    ensures PassedIn(c, calls, scope, subject, k * c.window * 1000, (k + 1) * c.window * 1000) <=
      Min(Limit(c, scope), Count(c, calls, Key(scope, k, subject)))
  {
    if |calls| > 0 {
      InTimeBefore(c, calls, scope, subject);
      WindowBound(c, Front(calls), scope, subject, k);
      WindowStep(c, calls, scope, subject, k);
      if KeyOf(c, Last(calls)) == Key(scope, k, subject) && OutcomeAt(c, calls, |calls| - 1).Passed? {
        LastPasses(c, calls);
      }
    }
  }

  /** An interval no longer than a window reaches into at most two windows. */
  lemma {:induction false} SplitAtWindow(c: Settings, calls: seq<Call>, scope: Scope, subject: Id, from: int, mid: int, to: int)
    requires from <= mid <= to
    ensures PassedIn(c, calls, scope, subject, from, to) ==
      PassedIn(c, calls, scope, subject, from, mid) + PassedIn(c, calls, scope, subject, mid, to)
  {
    if |calls| > 0 {
      SplitAtWindow(c, Front(calls), scope, subject, from, mid, to);
    }
  }

  lemma {:induction false} Widen(c: Settings, calls: seq<Call>, scope: Scope, subject: Id, from: int, to: int, low: int, high: int)
    requires low <= from && to <= high
    ensures PassedIn(c, calls, scope, subject, from, to) <= PassedIn(c, calls, scope, subject, low, high)
  {
    if |calls| > 0 {
      Widen(c, Front(calls), scope, subject, from, to, low, high);
    }
  }

  /** Any half-open interval as long as the window lets at most twice the limit pass. */
  lemma AtMostTwice(c: Settings, calls: seq<Call>, scope: Scope, subject: Id, from: nat)
    requires TimesOrdered(calls) && AllInTime(c, calls, scope, subject)
    ensures PassedIn(c, calls, scope, subject, from, from + c.window * 1000) <= 2 * Limit(c, scope)
  {
    var k, size := Window(c, from), c.window * 1000;
    WindowStart(c, from);
    assert k * c.window * 1000 == k * size && (k + 1) * c.window * 1000 == (k + 1) * size;
    assert (k + 1 + 1) * c.window * 1000 == (k + 2) * size;
    assert (k + 1) * size == k * size + size && (k + 2) * size == (k + 1) * size + size;
    var mid := (k + 1) * size;
    SplitAtWindow(c, calls, scope, subject, from, mid, from + size);
    Widen(c, calls, scope, subject, from, mid, k * size, mid);
    Widen(c, calls, scope, subject, mid, from + size, mid, (k + 2) * size);
    WindowBound(c, calls, scope, subject, k);
    WindowBound(c, calls, scope, subject, k + 1);
  }

  /** Two full windows' worth of requests, around the moment the window turns. */
  function Burst(scope: Scope, subject: Id, edge: nat, half: nat, n: nat): seq<Call>
    requires edge > 0
  {
    if n == 0 then []
    else
      var moment := if n <= half then edge - 1 else edge;
      Burst(scope, subject, edge, half, n - 1) + [Call(scope, subject, moment, moment, moment, NoFault)]
  }

  lemma {:induction false} BurstShape(c: Settings, scope: Scope, subject: Id, half: nat, n: nat)
    ensures var edge := c.window * 1000;
      var calls := Burst(scope, subject, edge, half, n);
      && |calls| == n && TimesOrdered(calls)
      && forall i :: 0 <= i < n ==>
           calls[i].read == calls[i].at == calls[i].armed == (if i < half then edge - 1 else edge)
           && calls[i].scope == scope && calls[i].subject == subject && calls[i].fault.NoFault?
  {
    if n > 0 {
      BurstShape(c, scope, subject, half, n - 1);
    }
  }

  /** A request counted in the moment it reads the clock is prompt. */
  lemma AtOncePrompt(c: Settings, call: Call)
    requires call.at == call.read
    ensures Prompt(c, call)
  {
    WindowStart(c, call.read);
  }

  lemma AllAtOnceInTime(c: Settings, calls: seq<Call>, scope: Scope, subject: Id)
    requires forall i :: 0 <= i < |calls| ==> calls[i].read == calls[i].at == calls[i].armed
    ensures AllInTime(c, calls, scope, subject)
  {
    forall i | 0 <= i < |calls|
      ensures InTime(c, calls, i)
    {
      AtOncePrompt(c, calls[i]);
      PromptInTime(c, calls, i);
    }
  }

  lemma BurstInTime(c: Settings, scope: Scope, subject: Id, half: nat, n: nat)
    ensures TimesOrdered(Burst(scope, subject, c.window * 1000, half, n))
    ensures AllInTime(c, Burst(scope, subject, c.window * 1000, half, n), scope, subject)
  {
    BurstShape(c, scope, subject, half, n);
    AllAtOnceInTime(c, Burst(scope, subject, c.window * 1000, half, n), scope, subject);
  }

  /** Request n of a burst, counted from 1, is read in the first window or in the second. */
  lemma BurstLast(c: Settings, scope: Scope, subject: Id, half: nat, n: nat)
    requires n > 0
    ensures var calls := Burst(scope, subject, c.window * 1000, half, n);
      && |calls| == n && Front(calls) == Burst(scope, subject, c.window * 1000, half, n - 1)
      && Last(calls).read == (if n <= half then c.window * 1000 - 1 else c.window * 1000)
      && KeyOf(c, Last(calls)) == Key(scope, if n <= half then 0 else 1, subject) && Last(calls).fault.NoFault?
  {
    var calls := Burst(scope, subject, c.window * 1000, half, n);
    BurstShape(c, scope, subject, half, n - 1);
    assert Front(calls) == Burst(scope, subject, c.window * 1000, half, n - 1);
    WindowOf(c, Last(calls).read, 0);
    WindowOf(c, Last(calls).read, 1);
  }

  lemma BurstLastInTime(c: Settings, scope: Scope, subject: Id, half: nat, n: nat)
    requires n > 0
    ensures var calls := Burst(scope, subject, c.window * 1000, half, n);
      |calls| == n && TimesOrdered(calls) && InTime(c, calls, n - 1)
  {
    var calls := Burst(scope, subject, c.window * 1000, half, n);
    BurstInTime(c, scope, subject, half, n);
    BurstShape(c, scope, subject, half, n);
    assert calls[n - 1].scope == scope && calls[n - 1].subject == subject;
  }

  /** It passes exactly if its window has not counted more than the limit. */
  lemma BurstLastPasses(c: Settings, scope: Scope, subject: Id, half: nat, n: nat)
    requires n > 0
    ensures var calls := Burst(scope, subject, c.window * 1000, half, n);
      |calls| == n && (Serve(c, After(c, Front(calls)), Last(calls)).1 == Passed <==> Count(c, calls, KeyOf(c, Last(calls))) <= Limit(c, scope))
  {
    var calls := Burst(scope, subject, c.window * 1000, half, n);
    BurstLast(c, scope, subject, half, n);
    BurstLastInTime(c, scope, subject, half, n);
    LastOutcome(c, calls);
  }

  lemma {:induction false} BurstCounts(c: Settings, scope: Scope, subject: Id, half: nat, n: nat)
    ensures var calls := Burst(scope, subject, c.window * 1000, half, n);
      && Count(c, calls, Key(scope, 0, subject)) == Min(n, half)
      && Count(c, calls, Key(scope, 1, subject)) == Max(n - half, 0)
  {
    if n > 0 {
      BurstCounts(c, scope, subject, half, n - 1);
      BurstLast(c, scope, subject, half, n);
    }
  }

  /** One more request of the burst passes. */
  lemma BurstStep(c: Settings, scope: Scope, subject: Id, n: nat)
    requires 0 < n <= 2 * Limit(c, scope)
    ensures var calls, before := Burst(scope, subject, c.window * 1000, Limit(c, scope), n), Burst(scope, subject, c.window * 1000, Limit(c, scope), n - 1);
      && |calls| == n && Front(calls) == before
      && c.window * 1000 - 1 <= Last(calls).read <= c.window * 1000
      && Last(calls).scope == scope && Last(calls).subject == subject
      && Serve(c, After(c, before), Last(calls)).1 == Passed
  {
    var half := Limit(c, scope);
    BurstLast(c, scope, subject, half, n);
    BurstCounts(c, scope, subject, half, n);
    BurstLastPasses(c, scope, subject, half, n);
  }

  lemma LastCounts(c: Settings, calls: seq<Call>, scope: Scope, subject: Id, from: int, to: int)
    requires |calls| > 0 && Counts(Last(calls), scope, subject, from, to)
    requires Serve(c, After(c, Front(calls)), Last(calls)).1 == Passed
    ensures PassedIn(c, calls, scope, subject, from, to) == PassedIn(c, Front(calls), scope, subject, from, to) + 1
  {
  }

  lemma OneMorePasses(c: Settings, scope: Scope, subject: Id, edge: nat, n: nat)
    requires 0 < n <= 2 * Limit(c, scope) && edge == c.window * 1000
    ensures PassedIn(c, Burst(scope, subject, edge, Limit(c, scope), n), scope, subject, edge - 1, 2 * edge - 1) ==
      PassedIn(c, Burst(scope, subject, edge, Limit(c, scope), n - 1), scope, subject, edge - 1, 2 * edge - 1) + 1
  {
    BurstStep(c, scope, subject, n);
    LastCounts(c, Burst(scope, subject, edge, Limit(c, scope), n), scope, subject, edge - 1, 2 * edge - 1);
  }

  lemma {:induction false} BurstPasses(c: Settings, scope: Scope, subject: Id, edge: nat, n: nat)
    requires n <= 2 * Limit(c, scope) && edge == c.window * 1000
    ensures PassedIn(c, Burst(scope, subject, edge, Limit(c, scope), n), scope, subject, edge - 1, 2 * edge - 1) == n
  {
    if n > 0 {
      BurstPasses(c, scope, subject, edge, n - 1);
      OneMorePasses(c, scope, subject, edge, n);
    }
  }

  /** A burst of twice the limit, read within one window's length, passes as a whole. */
  lemma FullBurstPasses(c: Settings, scope: Scope, subject: Id, from: nat)
    requires from == c.window * 1000 - 1
    ensures PassedIn(c, Burst(scope, subject, from + 1, Limit(c, scope), 2 * Limit(c, scope)), scope, subject, from, from + c.window * 1000)
      == 2 * Limit(c, scope)
  {
    BurstPasses(c, scope, subject, from + 1, 2 * Limit(c, scope));
  }

  /** The bound is attained: twice the limit can pass within one window's length. */
  lemma TwiceAttained(c: Settings, scope: Scope, subject: Id) returns (calls: seq<Call>, from: nat)
    ensures TimesOrdered(calls) && AllInTime(c, calls, scope, subject)
    ensures PassedIn(c, calls, scope, subject, from, from + c.window * 1000) == 2 * Limit(c, scope)
  {
    from := c.window * 1000 - 1;
    calls := Burst(scope, subject, from + 1, Limit(c, scope), 2 * Limit(c, scope));
    FullBurstPasses(c, scope, subject, from);
    BurstInTime(c, scope, subject, Limit(c, scope), 2 * Limit(c, scope));
  }

  const TIGHT: Settings := Budgets(1, 1, 1, 1, 1, 1, 1, 1)

  /** A request that read the clock in the first second and was counted `at` milliseconds. */
  function Late(at: nat): Call {
    Call(General, 0, 0, at, at, NoFault)
  }

  /**
   Late increments do break both bounds: with one request a second allowed, three requests of
   the first second pass when their increments take effect two seconds apart.
   */
  lemma LateRequestsPass()
    ensures TimesOrdered([Late(0), Late(2000), Late(4000)])
    ensures PassedIn(TIGHT, [Late(0), Late(2000), Late(4000)], General, 0, 0, 1000) == 3 > 2 * Limit(TIGHT, General)
  {
    var calls := [Late(0), Late(2000), Late(4000)];
    var key := Key(General, 0, 0);
    assert Front(calls) == [Late(0), Late(2000)] && Front([Late(0), Late(2000)]) == [Late(0)] && Front([Late(0)]) == [];
    assert After(TIGHT, [])== map[];
    assert After(TIGHT, [Late(0)])[key] == Counter(1, Some(2000));
    assert After(TIGHT, [Late(0), Late(2000)])[key] == Counter(1, Some(4000));
    assert PassedIn(TIGHT, [Late(0)], General, 0, 0, 1000) == 1;
    assert PassedIn(TIGHT, [Late(0), Late(2000)], General, 0, 0, 1000) == 2;
  }

  // ---- requests, and the calls they make ----

  /** Each call was made for the request of the same place. */
  predicate MadeFor(requests: seq<Request>, calls: seq<Call>) {
    |requests| == |calls| && forall i :: 0 <= i < |calls| ==> calls[i].scope == ScopeOf(requests[i])
  }

  lemma MadeForOneMore(requests: seq<Request>, calls: seq<Call>, r: Request, call: Call)
    requires MadeFor(requests, calls) && call.scope == ScopeOf(r)
    ensures MadeFor(requests + [r], calls + [call])
  {
  }

  /** How many changes of notifications a subject made in a window, as far as they were counted. */
  function ChangesMade(c: Settings, requests: seq<Request>, calls: seq<Call>, window: nat, subject: Id): nat
    requires |requests| == |calls|
  {
    if |calls| == 0 then 0
    else
      ChangesMade(c, Front(requests), Front(calls), window, subject) +
      if ChangesNotification(Last(requests)) && Last(calls).subject == subject
         && Last(calls).read / 1000 / c.window == window && !Last(calls).fault.IncrFails? then 1 else 0
  }

  lemma {:induction false} ChangesCounted(c: Settings, requests: seq<Request>, calls: seq<Call>, window: nat, subject: Id)
    requires MadeFor(requests, calls)
    ensures ChangesMade(c, requests, calls, window, subject) == Count(c, calls, Key(NotificationMutation, window, subject))
  {
    if |calls| > 0 {
      ChangesCounted(c, Front(requests), Front(calls), window, subject);
      ChangesExactly(Last(requests));
    }
  }

  /** A change of notifications that comes in time is judged by its place among its subject's changes. */
  predicate JudgedAmongChanges(c: Settings, requests: seq<Request>, calls: seq<Call>, outcome: Outcome)
    requires |requests| == |calls| > 0
  {
    var call := Last(calls);
    var place := ChangesMade(c, requests, calls, call.read / 1000 / c.window, call.subject);
    outcome == Passed <==>
      && !call.fault.IncrFails? && !(call.fault.ExpireFails? && place == 1)
      && place <= c.change
  }

  /**
   A request that changes a notification passes exactly if Redis answers and its place among
   the changing requests of its subject and window is within the budget for changes, whatever
   reading and other requests there are.
   */
  lemma ChangesLimited(c: Settings, requests: seq<Request>, calls: seq<Call>)
    requires |calls| > 0 && MadeFor(requests, calls) && TimesOrdered(calls)
    requires ChangesNotification(Last(requests)) && InTime(c, calls, |calls| - 1)
    ensures JudgedAmongChanges(c, requests, calls, OutcomeAt(c, calls, |calls| - 1))
  {
    var n := |calls| - 1;
    BudgetExactly(c, Last(requests));
    PassesByOrdinal(c, calls, n);
    assert calls[..n + 1] == calls;
    ChangesCounted(c, requests, calls, Window(c, calls[n].read), calls[n].subject);
  }

  // ---- the middleware ----

  class Gateway {
    const settings: Settings
    var counters: Counters
    ghost var calls: seq<Call>
    ghost var requests: seq<Request>

    ghost predicate Valid()
      reads this
    {
      counters == After(settings, calls) && MadeFor(requests, calls)
    }

    constructor (settings: Settings)
      ensures Valid() && this.settings == settings && calls == [] && requests == []
    {
      this.settings, counters, calls, requests := settings, map[], [], [];
    }

    /** The limit the second chain of tests picks. */
    function LimitFor(r: Request): (limit: nat)
      ensures limit == Limit(settings, ScopeOf(r))
    {
      if DocumentMutation(r) then settings.upload
      else if NotificationChange(r) then settings.change
      else if NotificationRequest(r) then settings.read
      else if ExportRequest(r) then settings.exports
      else if SearchRequest(r) then settings.search
      else if InsightsRequest(r) then settings.dashboard
      else settings.general
    }

    /** The calls to Redis for a request of this scope, and what comes of them. */
    method CountRequest(scope: Scope, limit: nat, subject: Id, read: nat, at: nat, armed: nat, fault: Fault) returns (outcome: Outcome)
      requires counters == After(settings, calls) && limit == Limit(settings, scope)
      modifies this`counters, this`calls
      ensures counters == After(settings, calls) && calls == old(calls) + [Call(scope, subject, read, at, armed, fault)]
      ensures outcome == OutcomeAt(settings, calls, |old(calls)|)
    {
      ghost var call := Call(scope, subject, read, at, armed, fault);
      calls := calls + [call];
      assert Front(calls) == old(calls) && calls[..|old(calls)|] == old(calls);
      var key := Key(scope, Window(settings, read), subject);
      if fault.IncrFails? {
        return Unavailable;
      }
      var counter := Incremented(counters, key, at);
      counters := counters[key := counter];
      if counter.count == 1 {
        if fault.ExpireFails? {
          return Unavailable;
        }
        counters := counters[key := counter.(expires := Some(armed + (settings.window + 1) * 1000))];
      }
      outcome := if counter.count > limit then Limited else Passed;
    }

    /** Counts a request and lets it pass or not; the health probes pass uncounted. */
    method Dispatch(r: Request, subject: Id, read: nat, at: nat, armed: nat, fault: Fault) returns (outcome: Outcome)
      requires Valid()
      modifies this
      ensures Valid()
      ensures Probe(r) ==> outcome == Passed && counters == old(counters) && calls == old(calls) && requests == old(requests)
      ensures !Probe(r) ==>
        && calls == old(calls) + [Call(ScopeOf(r), subject, read, at, armed, fault)]
        && requests == old(requests) + [r]
        && outcome == OutcomeAt(settings, calls, |old(calls)|)
      ensures ChangesNotification(r) ==> |calls| == |old(calls)| + 1
      ensures ChangesNotification(r) && TimesOrdered(calls) && InTime(settings, calls, |old(calls)|) ==>
        JudgedAmongChanges(settings, requests, calls, outcome)
    {
      if Probe(r) {
        return Passed;
      }
      ghost var before := calls;
      outcome := CountRequest(ScopeOf(r), LimitFor(r), subject, read, at, armed, fault);
      requests := requests + [r];
      MadeForOneMore(old(requests), old(calls), r, Last(calls));
      if ChangesNotification(r) && TimesOrdered(calls) && InTime(settings, calls, |before|) {
        ChangesLimited(settings, requests, calls);
      }
    }
  }
}
