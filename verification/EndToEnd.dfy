/**
 From one end to the other: a contract's calls commit their events, the pipeline carries them
 through crashes, redeliveries and retries, and once it is drained the projected row is
 compared with the contract row.
 */
module EndToEnd {
  import opened Common
  import opened ReadModel
  import opened Projection
  import Contracts = ContractService
  import ContractDrain
  import Pipeline
  import PipelineOrder

  /** The pipeline's outbox rows on the contract's key are the events its calls committed. */
  ghost predicate HoldsExactly(outbox: seq<Write>, k: Key, ws: seq<Write>) {
    && (forall i :: 0 <= i < |ws| ==> ws[i] in outbox)
    && (forall w :: w in outbox && OnKey(w, k) ==> w in ws)
  }

  /** The effects of these writes were committed in the writes' own order. */
  predicate CommittedInOrder(log: seq<Write>, ws: seq<Write>) {
    forall i, j, a, b :: 0 <= i < j < |ws| && 0 <= a < |log| && 0 <= b < |log| && log[a] == ws[i] && log[b] == ws[j] ==> a < b
  }

  /** Where each of the writes stands in the log. */
  lemma {:induction false} Positions(log: seq<Write>, ws: seq<Write>) returns (pos: seq<nat>)
    requires forall i :: 0 <= i < |ws| ==> ws[i] in log
    ensures |pos| == |ws| && forall i :: 0 <= i < |ws| ==> pos[i] < |log| && log[pos[i]] == ws[i]
  {
    if |ws| == 0 {
      pos := [];
    } else {
      pos := Positions(log, Front(ws));
      assert Last(ws) == ws[|ws| - 1];
      var d :| 0 <= d < |log| && log[d] == Last(ws);
      pos := pos + [d];
    }
  }

  lemma SameMembers(log: seq<Write>, outbox: seq<Write>, w: Write)
    requires multiset(log) == multiset(outbox)
    ensures w in log <==> w in outbox
  {
    assert w in multiset(log) <==> w in multiset(outbox);
  }

  /** A write on the key that was committed is one of the source's, at the position found for it. */
  lemma PositionOf(log: seq<Write>, outbox: seq<Write>, k: Key, ws: seq<Write>, pos: seq<nat>, d: nat)
    requires Pipeline.DistinctIds(log) && multiset(log) == multiset(outbox) && HoldsExactly(outbox, k, ws)
    requires |pos| == |ws| && forall i :: 0 <= i < |ws| ==> pos[i] < |log| && log[pos[i]] == ws[i]
    requires d < |log| && OnKey(log[d], k)
    ensures d in pos
  {
    SameMembers(log, outbox, log[d]);
    var i :| 0 <= i < |ws| && ws[i] == log[d];
    assert pos[i] == d;
  }

  /** A drained log in the writes' order is an in-order delivery of them. */
  lemma InOrderDelivery(log: seq<Write>, outbox: seq<Write>, k: Key, ws: seq<Write>) returns (pos: seq<nat>)
    requires Pipeline.DistinctIds(log) && multiset(log) == multiset(outbox)
    requires HoldsExactly(outbox, k, ws) && CommittedInOrder(log, ws)
    ensures DeliveredInOrder(log, k, ws, pos)
  {
    forall i | 0 <= i < |ws|
      ensures ws[i] in log
    {
      SameMembers(log, outbox, ws[i]);
    }
    pos := Positions(log, ws);
    forall d | 0 <= d < |log| && FirstAt(log, d) && OnKey(log[d], k)
      ensures d in pos
    {
      PositionOf(log, outbox, k, ws, pos, d);
    }
    Ordered(log, ws, pos);
  }

  lemma Ordered(log: seq<Write>, ws: seq<Write>, pos: seq<nat>)
    requires Pipeline.DistinctIds(log) && CommittedInOrder(log, ws)
    requires |pos| == |ws| && forall i :: 0 <= i < |ws| ==> pos[i] < |log| && log[pos[i]] == ws[i]
    ensures forall i :: 0 <= i < |pos| ==> FirstAt(log, pos[i])
    ensures forall i, j :: 0 <= i < j < |pos| ==> pos[i] < pos[j]
  {
  }

  /**
   Drain refinement over every run of the pipeline, whatever crashes, redeliveries and
   dead-letter retries happened on the way: once it is drained, and the contract's effects
   were committed in the order of its calls, the projected row shows the contract's status,
   label, number, currency and assignments, and its amount and due date exactly as the
   amendments since the last full call allow.
   */
  lemma DrainedPipelineShowsContract(
    tenant: Id, id: Id, data: Contracts.Contract, commit: Contracts.Commit, calls: seq<Contracts.Call>, actions: seq<Pipeline.Action>)
    requires Contracts.Create(tenant, id, data, false, commit).Ok?
    requires Pipeline.Run(Pipeline.INITIAL, actions).Some? && Pipeline.Drained(Pipeline.Run(Pipeline.INITIAL, actions).value)
    requires var s := Contracts.AfterAll(Contracts.Create(tenant, id, data, false, commit).value, calls);
      var t := Pipeline.Run(Pipeline.INITIAL, actions).value;
      && ContractDrain.TimesOrdered(s.outbox)
      && HoldsExactly(t.outbox, ContractDrain.KeyOf(s), ProjectAll(s.outbox))
      && CommittedInOrder(t.log, ProjectAll(s.outbox))
    ensures var t := Pipeline.Run(Pipeline.INITIAL, actions).value;
      && t.model.rows == ApplyAll(t.log).rows
      && ContractDrain.RowRefines(Contracts.Create(tenant, id, data, false, commit).value, calls, t.log)
  {
    var s := Contracts.AfterAll(Contracts.Create(tenant, id, data, false, commit).value, calls);
    var t := Pipeline.Run(Pipeline.INITIAL, actions).value;
    Pipeline.DrainedExactlyOnce(actions);
    Pipeline.RunApplies(actions);
    var pos := InOrderDelivery(t.log, t.outbox, ContractDrain.KeyOf(s), ProjectAll(s.outbox));
    ContractDrain.DrainRefinesContract(tenant, id, data, commit, calls, t.log, pos);
  }

  /**
   The same from the run alone: if the contract's calls committed their events in order and no
   event took effect before an earlier one, the drained row shows the contract.
   */
  lemma OrderlyPipelineShowsContract(
    tenant: Id, id: Id, data: Contracts.Contract, commit: Contracts.Commit, calls: seq<Contracts.Call>, actions: seq<Pipeline.Action>)
    requires Contracts.Create(tenant, id, data, false, commit).Ok?
    requires Pipeline.Run(Pipeline.INITIAL, actions).Some? && Pipeline.Drained(Pipeline.Run(Pipeline.INITIAL, actions).value)
    requires PipelineOrder.NeverOvertakes(actions)
    requires var s := Contracts.AfterAll(Contracts.Create(tenant, id, data, false, commit).value, calls);
      var t := Pipeline.Run(Pipeline.INITIAL, actions).value;
      && ContractDrain.TimesOrdered(s.outbox)
      && HoldsExactly(t.outbox, ContractDrain.KeyOf(s), ProjectAll(s.outbox))
      && CommittedInOrder(t.outbox, ProjectAll(s.outbox))
    ensures var t := Pipeline.Run(Pipeline.INITIAL, actions).value;
      && t.model.rows == ApplyAll(t.outbox).rows
      && ContractDrain.RowRefines(Contracts.Create(tenant, id, data, false, commit).value, calls, t.outbox)
  {
    PipelineOrder.ProjectionIsPrefixFold(actions);
    DrainedPipelineShowsContract(tenant, id, data, commit, calls, actions);
  }
}
