/**
 The version-keyed dashboard cache of GovInsights, for one cache key apart from the version
 (tenant, module and filters fixed). Readers read the projection version, look in the cache,
 and on a miss run several queries before storing the result under the version they read;
 the consumer commits events between any two of their steps.
 */
module DashboardCache {
  import opened Common
  import opened ReadModel

  /**
   A dashboard is a function of the tables its queries saw. `seen[i]` is the length of the
   effect log when query i ran, so query i saw the projection of the first seen[i] events.
   */
  type Dashboard = seq<nat>

  datatype Reader =
    | Absent
    | Opened(version: nat, since: nat)                      // read the version when the log was `since` long
    | Querying(version: nat, since: nat, seen: Dashboard)   // missed
    | Served(version: nat, since: nat, dashboard: Dashboard)

  datatype State = State(log: seq<Write>, cache: map<nat, Dashboard>, readers: map<Id, Reader>)

  const INITIAL: State := State([], map[], map[])

  datatype Action =
    | Commit(e: Write)             // the consumer commits one event
    | Open(reader: Id)             // read the version from the checkpoint
    | LookUp(reader: Id, up: bool) // look in the cache; one that does not answer is a miss
    | Query(reader: Id)            // one dashboard query
    | Store(reader: Id)            // write the cache and answer
    | AnswerUncached(reader: Id)   // the cache write fails; answer anyway
    | Expire(version: nat)
    | Leave(reader: Id)            // the request ends or its process dies

  /** The version the checkpoint shows; there may be no checkpoint yet. */
  function Version(log: seq<Write>): nat {
    match ApplyAll(log).checkpoint
    case None => 0
    case Some(c) => c.projectionVersion
  }

  function ReaderOf(s: State, reader: Id): Reader {
    if reader in s.readers then s.readers[reader] else Absent
  }

  function Step(s: State, a: Action): Option<State> {
    match a
    case Commit(e) =>
      if e.id in ApplyAll(s.log).processed then None
      else Some(s.(log := s.log + [e]))
    case Open(r) =>
      if ReaderOf(s, r) != Absent then None
      else Some(s.(readers := s.readers[r := Opened(Version(s.log), |s.log|)]))
    case LookUp(r, up) =>
      (match ReaderOf(s, r)
       case Opened(v, since) =>
         if up && v in s.cache then Some(s.(readers := s.readers[r := Served(v, since, s.cache[v])]))
         else Some(s.(readers := s.readers[r := Querying(v, since, [])]))
       case _ => None)
    case Query(r) =>
      (match ReaderOf(s, r)
       case Querying(v, since, seen) => Some(s.(readers := s.readers[r := Querying(v, since, seen + [|s.log|])]))
       case _ => None)
    case Store(r) =>
      (match ReaderOf(s, r)
       case Querying(v, since, seen) =>
         Some(s.(cache := s.cache[v := seen], readers := s.readers[r := Served(v, since, seen)]))
       case _ => None)
    case AnswerUncached(r) =>
      (match ReaderOf(s, r)
       case Querying(v, since, seen) => Some(s.(readers := s.readers[r := Served(v, since, seen)]))
       case _ => None)
    case Expire(v) =>
      Some(s.(cache := s.cache - {v}))
    case Leave(r) =>
      Some(s.(readers := s.readers - {r}))
  }

  function Run(actions: seq<Action>): Option<State> {
    if |actions| == 0 then Some(INITIAL)
    else match Run(Front(actions))
         case None => None
         case Some(s) => Step(s, Last(actions))
  }

  /** How many of the first n effects map to a module. */
  function Mapped(log: seq<Write>, n: nat): nat
    requires n <= |log|
  {
    if n == 0 then 0 else Mapped(log, n - 1) + if log[n - 1].values.Some? then 1 else 0
  }

  predicate DistinctIds(log: seq<Write>) {
    forall i, j :: 0 <= i < j < |log| ==> log[i].id != log[j].id
  }

  /** The projection version counts exactly the event-driven changes committed so far. */
  lemma {:induction false} VersionCounts(log: seq<Write>)
    requires DistinctIds(log)
    ensures Version(log) == Mapped(log, |log|)
  {
    if |log| > 0 {
      var p := Front(log);
      VersionCounts(p);
      LastIsFirst(log);
      MappedPrefix(p, log, |p|);
      CountersExact(p);
    }
  }

  lemma {:induction false} MappedPrefix(p: seq<Write>, log: seq<Write>, n: nat)
    requires p <= log && n <= |p|
    ensures Mapped(p, n) == Mapped(log, n)
  {
    if n > 0 {
      MappedPrefix(p, log, n - 1);
    }
  }

  lemma {:induction false} MappedMonotone(log: seq<Write>, m: nat, n: nat)
    requires m <= n <= |log|
    ensures Mapped(log, m) <= Mapped(log, n)
  {
    if m < n {
      MappedMonotone(log, m, n - 1);
    }
  }

  /** Every query behind a dashboard labelled v saw at least v event-driven changes. */
  predicate Fresh(log: seq<Write>, v: nat, d: Dashboard) {
    forall i :: 0 <= i < |d| ==> d[i] <= |log| && v <= Mapped(log, d[i])
  }

  predicate ReaderOk(log: seq<Write>, r: Reader) {
    match r
    case Absent => true
    case Opened(v, since) => since <= |log| && v == Mapped(log, since)
    case Querying(v, since, seen) => since <= |log| && v == Mapped(log, since) && Fresh(log, v, seen)
    case Served(v, since, d) => since <= |log| && v == Mapped(log, since) && Fresh(log, v, d)
  }

  predicate Invariant(s: State) {
    && DistinctIds(s.log)
    && (forall v :: v in s.cache ==> Fresh(s.log, v, s.cache[v]))
    && (forall r :: r in s.readers ==> ReaderOk(s.log, s.readers[r]))
  }

  lemma FreshStays(p: seq<Write>, log: seq<Write>, v: nat, d: Dashboard)
    requires p <= log && Fresh(p, v, d)
    ensures Fresh(log, v, d)
  {
    forall i | 0 <= i < |d|
      ensures d[i] <= |log| && v <= Mapped(log, d[i])
    {
      MappedPrefix(p, log, d[i]);
    }
  }

  lemma ReaderStaysOk(p: seq<Write>, log: seq<Write>, r: Reader)
    requires p <= log && ReaderOk(p, r)
    ensures ReaderOk(log, r)
  {
    match r
    case Absent =>
    case Opened(v, since) =>
      MappedPrefix(p, log, since);
    case Querying(v, since, seen) =>
      MappedPrefix(p, log, since);
      FreshStays(p, log, v, seen);
    case Served(v, since, d) =>
      MappedPrefix(p, log, since);
      FreshStays(p, log, v, d);
  }

  lemma CommitKeeps(s: State, e: Write, t: State)
    requires Invariant(s) && Step(s, Commit(e)) == Some(t)
    ensures Invariant(t)
  {
    ProcessedIds(s.log);
    forall v | v in t.cache
      ensures Fresh(t.log, v, t.cache[v])
    {
      FreshStays(s.log, t.log, v, s.cache[v]);
    }
    forall r | r in t.readers
      ensures ReaderOk(t.log, t.readers[r])
    {
      ReaderStaysOk(s.log, t.log, s.readers[r]);
    }
  }

  lemma QueryKeeps(s: State, r: Id, t: State)
    requires Invariant(s) && Step(s, Query(r)) == Some(t)
    ensures Invariant(t)
  {
    var q := s.readers[r];
    MappedMonotone(s.log, q.since, |s.log|);
    assert ReaderOk(t.log, t.readers[r]);
  }

  lemma {:induction false} RunKeeps(actions: seq<Action>)
    requires Run(actions).Some?
    ensures Invariant(Run(actions).value)
  {
    if |actions| > 0 {
      RunKeeps(Front(actions));
      var s, t := Run(Front(actions)).value, Run(actions).value;
      match Last(actions)
      case Commit(e) => CommitKeeps(s, e, t);
      case Open(_) => VersionCounts(s.log);
      case LookUp(_, _) =>
      case Query(r) => QueryKeeps(s, r, t);
      case Store(_) =>
      case AnswerUncached(_) =>
      case Expire(_) =>
      case Leave(_) =>
    }
  }

  /**
   Freshness: a reader is only ever shown a dashboard every query of which ran on a
   projection holding every event-driven change committed when the reader read the version,
   whoever computed the dashboard and however the commits interleaved with its queries.
   */
  lemma ServedIsFresh(actions: seq<Action>, r: Id, i: nat, q: nat)
    requires Run(actions).Some? && ReaderOf(Run(actions).value, r).Served?
    requires var reader := ReaderOf(Run(actions).value, r);
      i < reader.since && i < |Run(actions).value.log| && q < |reader.dashboard|
    requires Run(actions).value.log[i].values.Some?
    ensures i < ReaderOf(Run(actions).value, r).dashboard[q]
  {
    RunKeeps(actions);
    var s := Run(actions).value;
    var reader := s.readers[r];
    assert ReaderOk(s.log, reader);
    var n := reader.dashboard[q];
    if n <= i {
      MappedMonotone(s.log, n, i);
      MappedMonotone(s.log, i + 1, reader.since);
    }
  }

  /** An event moves the projection version exactly when it maps to a module. */
  lemma VersionMoves(log: seq<Write>, e: Write)
    requires DistinctIds(log + [e]) && DistinctIds(log)
    ensures Version(log + [e]) == Version(log) + (if e.values.Some? then 1 else 0)
  {
    VersionCounts(log);
    VersionCounts(log + [e]);
    MappedPrefix(log, log + [e], |log|);
  }

  /** The database and the cache as one request sees them, with other commits in between. */
  class Service {
    var s: State
    ghost var history: seq<Action>

    ghost predicate Valid()
      reads this
    {
      Run(history) == Some(s)
    }

    constructor ()
      ensures Valid() && s == INITIAL
    {
      s, history := INITIAL, [];
    }

    method Call(a: Action)
      requires Valid() && Step(s, a).Some?
      modifies this
      ensures Valid() && s == Step(old(s), a).value && history == old(history) + [a]
    {
      s := Step(s, a).value;
      history := history + [a];
      assert Front(history) == old(history);
    }

    /** The consumer commits the new events among these. */
    method Interfere(events: seq<Write>)
      requires Valid()
      modifies this
      ensures Valid() && old(s.log) <= s.log && s.readers == old(s.readers) && s.cache == old(s.cache)
    {
      var i := 0;
      while i < |events|
        invariant Valid() && old(s.log) <= s.log && s.readers == old(s.readers) && s.cache == old(s.cache)
      {
        var model := ApplyAll(s.log);
        if events[i].id !in model.processed {
          Call(Commit(events[i]));
        }
        i := i + 1;
      }
    }

    /** Runs the dashboard queries one after the other, events being committed before each. */
    method Queries(r: Id, gaps: seq<seq<Write>>)
      requires Valid() && ReaderOf(s, r).Querying?
      modifies this
      ensures Valid() && old(s.log) <= s.log && s.cache == old(s.cache) && ReaderOf(s, r).Querying?
      ensures ReaderOf(s, r).version == ReaderOf(old(s), r).version
      ensures ReaderOf(s, r).since == ReaderOf(old(s), r).since
      ensures |ReaderOf(s, r).seen| == |ReaderOf(old(s), r).seen| + |gaps|
    {
      var i := 0;
      while i < |gaps|
        invariant i <= |gaps|
        invariant Valid() && old(s.log) <= s.log && s.cache == old(s.cache) && ReaderOf(s, r).Querying?
        invariant ReaderOf(s, r).version == ReaderOf(old(s), r).version
        invariant ReaderOf(s, r).since == ReaderOf(old(s), r).since
        invariant |ReaderOf(s, r).seen| == |ReaderOf(old(s), r).seen| + i
      {
        Interfere(gaps[i]);
        Call(Query(r));
        i := i + 1;
      }
    }

    /**
     One dashboard request: the version, the cache, and on a miss the queries and the cache
     write, events being committed before each. The answer holds every event-driven change
     committed before the request.
     */
    method CachedDashboard(r: Id, gap: seq<Write>, gaps: seq<seq<Write>>, readUp: bool, writeUp: bool) returns (d: Dashboard)
      requires Valid() && ReaderOf(s, r) == Absent
      modifies this
      ensures Valid() && old(s.log) <= s.log
      ensures readUp && Version(old(s.log)) in old(s.cache) ==>
        d == old(s.cache)[Version(old(s.log))] && s.cache == old(s.cache)
      ensures !(readUp && Version(old(s.log)) in old(s.cache)) ==>
        |d| == |gaps| && s.cache == if writeUp then old(s.cache)[Version(old(s.log)) := d] else old(s.cache)
      ensures forall i: nat, q: nat ::
        i < |old(s.log)| && q < |d| && old(s.log)[i].values.Some? ==> i < d[q]
    {
      ghost var before := s;
      Call(Open(r));
      Interfere(gap);
      Call(LookUp(r, readUp));
      if ReaderOf(s, r).Querying? {
        assert ReaderOf(s, r) == Querying(Version(before.log), |before.log|, []);
        Queries(r, gaps);
        if writeUp {
          Call(Store(r));
        } else {
          Call(AnswerUncached(r));
        }
      }
      d := ReaderOf(s, r).dashboard;
      forall i: nat, q: nat | i < |before.log| && q < |d| && before.log[i].values.Some?
        ensures i < d[q]
      {
        ServedIsFresh(history, r, i, q);
      }
    }
  }
}
