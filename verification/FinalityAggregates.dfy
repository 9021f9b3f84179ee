/** Who publishes a finality aggregate: the runner's per-node duties (schedule/schedule.go) against
    the set the checker derives from the same plan (analysis/check_arrivals.py). */
module FinalityAggregates {
  import opened Arith
  import opened Positions

  type Published = (nat, nat, int)   // round key, subnet, host

  // The plan's slots are in order, and a finality chain has k >= 1.
  predicate Indexed(p: Plan) {
    p.k > 0 && forall i :: 0 <= i < |p.slots| ==> p.slots[i].slot == i
  }

  function KeySlot(p: Plan, round: nat): nat { if Segregated(p) then round else round * p.k }

  predicate HostsRef(refs: seq<AttesterRef>, node: int) { exists r <- refs :: r.node == node }

  // Round `round` of the plan draws an aggregator hosted at `node` on `subnet`.
  predicate Draws(p: Plan, round: nat, subnet: nat, node: int) {
    && KeySlot(p, round) < |p.slots|
    && subnet < |p.slots[KeySlot(p, round)].finalityAggregators|
    && HostsRef(p.slots[KeySlot(p, round)].finalityAggregators[subnet], node)
  }

  // The subnets below `upto` drawn with one of the node's validators, ascending.
  function HostedOn(draws: seq<seq<AttesterRef>>, node: int, upto: nat): seq<nat>
    requires upto <= |draws|
  {
    if upto == 0 then []
    else HostedOn(draws, node, upto - 1) + if HostsRef(draws[upto - 1], node) then [upto - 1] else []
  }

  // What a node aggregates in a round.
  function Aggregated(p: Plan, node: int, round: nat): seq<nat> {
    if p.k == 0 || KeySlot(p, round) >= |p.slots| then []
    else
      var draws := p.slots[KeySlot(p, round)].finalityAggregators;
      HostedOn(draws, node, |draws|)
  }

  lemma {:induction false} HostedOnExact(draws: seq<seq<AttesterRef>>, node: int, upto: nat)
    requires upto <= |draws|
    ensures forall s: nat :: s in HostedOn(draws, node, upto) <==> s < upto && HostsRef(draws[s], node)
    ensures Ascending(HostedOn(draws, node, upto))
  {
    if upto > 0 {
      HostedOnExact(draws, node, upto - 1);
      var front := HostedOn(draws, node, upto - 1);
      forall i | 0 <= i < |front| ensures front[i] < upto - 1 { assert front[i] in front; }
    }
  }

  /** A node's aggregation duties: exactly the subnets drawn with one of its validators, each once,
      ascending. */
  lemma AggregatedExact(p: Plan, node: int, round: nat)
    requires p.k > 0
    ensures forall s: nat :: s in Aggregated(p, node, round) <==> Draws(p, round, s, node)
    ensures Ascending(Aggregated(p, node, round))
  {
    if KeySlot(p, round) < |p.slots| {
      var draws := p.slots[KeySlot(p, round)].finalityAggregators;
      HostedOnExact(draws, node, |draws|);
    }
  }

  // finalityAggregations computes them, for a node with a finality chain or without.
  method FinalityAggregations(p: Plan, node: int, round: nat) returns (out: seq<nat>)
    ensures out == Aggregated(p, node, round)
    ensures p.k > 0 ==> forall s: nat :: s in out <==> Draws(p, round, s, node)
    ensures p.k == 0 ==> out == []
    ensures forall i, j :: 0 <= i < j < |out| ==> out[i] < out[j]
  {
    out := [];
    if p.k <= 0 { return; }
    AggregatedExact(p, node, round);
    var idx := if Segregated(p) then round else round * p.k;
    if idx >= |p.slots| { return; }
    var draws := p.slots[idx].finalityAggregators;
    for s := 0 to |draws|
      invariant out == HostedOn(draws, node, s)
    {
      var found := false;
      for i := 0 to |draws[s]|
        invariant !found && !HostsRef(draws[s][..i], node)
      {
        assert draws[s][..i + 1] == draws[s][..i] + [draws[s][i]];
        if draws[s][i].node == node {
          found := true;
          break;
        }
      }
      if !found { assert draws[s][..|draws[s]|] == draws[s]; }
      if found { out := out + [s]; }
    }
  }

  // A slot the checker reads a draw from, and the key it files it under.
  predicate Keyed(p: Plan, slot: nat)
    requires p.k > 0
  {
    Segregated(p) || slot % p.k == 0
  }

  function KeyOf(p: Plan, slot: nat): nat
    requires p.k > 0
  {
    if Segregated(p) then slot else slot / p.k
  }

  lemma KeyedIsKeySlot(p: Plan, slot: nat, round: nat)
    requires p.k > 0
    ensures Keyed(p, slot) && KeyOf(p, slot) == round <==> slot == KeySlot(p, round)
  {
    if slot == KeySlot(p, round) && !Segregated(p) { QuotientIs(round, p.k, slot); }
  }

  predicate Filed(p: Plan, slots: nat, x: Published)
    requires p.k > 0 && slots <= |p.slots|
  {
    exists i :: 0 <= i < slots && Keyed(p, i) && KeyOf(p, i) == x.0
                && x.1 < |p.slots[i].finalityAggregators| && HostsRef(p.slots[i].finalityAggregators[x.1], x.2)
  }

  lemma FiledIsDrawn(p: Plan, x: Published)
    requires p.k > 0
    ensures Filed(p, |p.slots|, x) <==> Draws(p, x.0, x.1, x.2)
  {
    if Filed(p, |p.slots|, x) {
      var i :| 0 <= i < |p.slots| && Keyed(p, i) && KeyOf(p, i) == x.0
               && x.1 < |p.slots[i].finalityAggregators| && HostsRef(p.slots[i].finalityAggregators[x.1], x.2);
      KeyedIsKeySlot(p, i, x.0);
    }
    if Draws(p, x.0, x.1, x.2) { KeyedIsKeySlot(p, KeySlot(p, x.0), x.0); }
  }

  // One slot's draws, filed under its key.
  function SlotFiled(p: Plan, i: nat): set<Published>
    requires p.k > 0 && i < |p.slots|
  {
    set s, r | 0 <= s < |p.slots[i].finalityAggregators| && r in p.slots[i].finalityAggregators[s]
             :: (KeyOf(p, i), s, r.node)
  }

  /** The checker's published set is exactly the union of all nodes' duties over all rounds. */
  method FinalityAggregatePublished(p: Plan) returns (published: set<Published>)
    requires Indexed(p)
    ensures forall x: Published :: x in published <==> Draws(p, x.0, x.1, x.2)
  {
    published := {};
    for i := 0 to |p.slots|
      invariant forall x: Published :: x in published <==> Filed(p, i, x)
    {
      ghost var before := published;
      var sp := p.slots[i];
      if Segregated(p) || sp.slot % p.k == 0 {
        var key := if Segregated(p) then sp.slot else sp.slot / p.k;
        for s := 0 to |sp.finalityAggregators|
          invariant forall x: Published :: x in published <==>
            x in before || (x.0 == key && x.1 < s && HostsRef(sp.finalityAggregators[x.1], x.2))
        {
          ghost var outer := published;
          var refs := sp.finalityAggregators[s];
          for j := 0 to |refs|
            invariant forall x: Published :: x in published <==>
              x in outer || (x.0 == key && x.1 == s && HostsRef(refs[..j], x.2))
          {
            assert refs[..j + 1] == refs[..j] + [refs[j]];
            published := published + {(key, s, refs[j].node)};
          }
          assert refs[..|refs|] == refs;
        }
      }
      forall x: Published ensures x in published <==> Filed(p, i + 1, x) {
        FiledSnoc(p, i, x);
      }
    }
    forall x: Published ensures Filed(p, |p.slots|, x) <==> Draws(p, x.0, x.1, x.2) { FiledIsDrawn(p, x); }
  }

  lemma FiledSnoc(p: Plan, i: nat, x: Published)
    requires p.k > 0 && i < |p.slots|
    ensures Filed(p, i + 1, x) <==>
              (Filed(p, i, x) || (Keyed(p, i) && KeyOf(p, i) == x.0
                 && x.1 < |p.slots[i].finalityAggregators| && HostsRef(p.slots[i].finalityAggregators[x.1], x.2)))
  {
    if Filed(p, i, x) {
      var w :| 0 <= w < i && Keyed(p, w) && KeyOf(p, w) == x.0
               && x.1 < |p.slots[w].finalityAggregators| && HostsRef(p.slots[w].finalityAggregators[x.1], x.2);
      assert 0 <= w < i + 1;
    }
  }
}
