/** The draws of simctl/schedule.py that the rest relies on, and the views schedule/schedule.go takes
    of them.  Every random sample is an arbitrary one of its stated size and range. */
module PlanDraws {
  import opened Arith
  import opened Positions

  function Min(a: nat, b: nat): nat { if a < b then a else b }

  function Below(n: nat): (r: set<nat>)
    ensures |r| == n && forall i: nat :: i in r <==> i < n
  {
    if n == 0 then {} else Below(n - 1) + {n - 1}
  }

  lemma SubsetCard(a: set<nat>, b: set<nat>)
    requires a <= b
    ensures |a| <= |b|
  {
    assert b == a + (b - a);
  }

  // ---------------------------------------------------------------- subscriber sets

  // The nodes outside `base` that drew group s.
  function Drew(n: nat, base: set<nat>, draws: nat -> set<nat>, s: nat): set<nat> {
    set node: nat | node < n && node !in base && s in draws(node)
  }

  // The groups a node is on.
  function On(groups: seq<set<nat>>, node: nat): set<nat> { set s: nat | s < |groups| && node in groups[s] }

  // Every node outside `base` joins what it drew.
  method DrawAll(n: nat, count: nat, base: set<nat>, draws: nat -> set<nat>) returns (groups: seq<set<nat>>)
    ensures |groups| == count && forall s: nat :: s < count ==> groups[s] == base + Drew(n, base, draws, s)
  {
    groups := seq(count, _ => base);
    for node := 0 to n
      invariant |groups| == count && forall s: nat :: s < count ==> groups[s] == base + Drew(node, base, draws, s)
    {
      if node in base { continue; }
      ghost var before := groups;
      var left := draws(node);
      while left != {}
        invariant |groups| == count && left <= draws(node)
        invariant forall s: nat :: s < count ==>
                    groups[s] == before[s] + if s in draws(node) - left then {node} else {}
      {
        var s :| s in left;
        if s < count { groups := groups[s := groups[s] + {node}]; }
        left := left - {s};
      }
    }
  }

  // Shuffle and slice: some k of the extras.
  method Pick(extra: set<nat>, k: nat) returns (more: set<nat>)
    requires k <= |extra|
    ensures more <= extra && |more| == k
  {
    more := {};
    while |more| < k
      invariant more <= extra && |more| <= k
    {
      assert extra == more + (extra - more);
      assert |extra - more| > 0;
      var node :| node in extra - more;
      more := more + {node};
    }
  }

  // Groups under the floor are topped up to it from the nodes not on them yet, and no others grow.
  method TopUpAll(n: nat, groups: seq<set<nat>>, wanted: nat) returns (topped: seq<set<nat>>)
    requires forall g <- groups :: g <= Below(n)
    ensures |topped| == |groups|
    ensures forall s: nat :: s < |groups| ==>
              && groups[s] <= topped[s] <= Below(n)
              && (if |groups[s]| >= Min(wanted, n) then topped[s] == groups[s] else |topped[s]| == Min(wanted, n))
  {
    topped := groups;
    for s := 0 to |groups|
      invariant |topped| == |groups| && forall i: nat :: s <= i < |groups| ==> topped[i] == groups[i]
      invariant forall i: nat :: i < s ==>
                  && groups[i] <= topped[i] <= Below(n)
                  && (if |groups[i]| >= Min(wanted, n) then topped[i] == groups[i] else |topped[i]| == Min(wanted, n))
    {
      assert groups[s] in groups;
      if |topped[s]| < Min(wanted, n) {
        var extra := Below(n) - topped[s];
        assert Below(n) == topped[s] + extra;
        var more := Pick(extra, Min(wanted, n) - |topped[s]|);
        topped := topped[s := topped[s] + more];
      }
    }
  }

  // A node's draws are groups it ends up on.
  lemma OnItsDraws(groups: seq<set<nat>>, n: nat, base: set<nat>, draws: nat -> set<nat>, node: nat)
    requires node < n && node !in base && forall s <- draws(node) :: s < |groups|
    requires forall s: nat :: s < |groups| ==> Drew(n, base, draws, s) <= groups[s]
    ensures draws(node) <= On(groups, node) && |draws(node)| <= |On(groups, node)|
  {
    SubsetCard(draws(node), On(groups, node));
  }

  predicate Sampled(n: nat, base: set<nat>, draws: nat -> set<nat>, k: nat, count: nat) {
    forall node: nat :: node < n && node !in base ==> |draws(node)| == k && forall s <- draws(node) :: s < count
  }

  /** Every node subscribes at least min(perNode, C) active subnets, every active subnet has at least
      min(floor, N) subscribers, and only subnets drawn below the floor were topped up, exactly to it. */
  method SubnetSubscribers(n: nat, c: nat, perNode: nat, wanted: nat, draws: nat -> set<nat>) returns (subs: seq<set<nat>>)
    requires Sampled(n, {}, draws, Min(perNode, c), c)
    ensures |subs| == c && forall s: nat :: s < c ==>
              && Drew(n, {}, draws, s) <= subs[s] <= Below(n) && |subs[s]| >= Min(wanted, n)
              && (subs[s] == Drew(n, {}, draws, s) || |subs[s]| == Min(wanted, n))
    ensures forall node: nat :: node < n ==> |On(subs, node)| >= Min(perNode, c)
  {
    var drawn := DrawAll(n, c, {}, draws);
    subs := TopUpAll(n, drawn, wanted);
    forall node: nat | node < n ensures |On(subs, node)| >= Min(perNode, c) { OnItsDraws(subs, n, {}, draws, node); }
  }

  /** Every column is held by the whole full-custody backbone, every other node holds at least
      min(custodyFloor, columns) of them, and only columns under the floor were topped up, exactly to it. */
  method ColumnSubscribers(n: nat, columns: nat, full: set<nat>, custodyFloor: nat, wanted: nat, draws: nat -> set<nat>)
      returns (cols: seq<set<nat>>)
    requires full <= Below(n) && Sampled(n, full, draws, Min(custodyFloor, columns), columns)
    ensures |cols| == columns && forall s: nat :: s < columns ==>
              && full + Drew(n, full, draws, s) <= cols[s] <= Below(n) && |cols[s]| >= Min(wanted, n)
              && (cols[s] == full + Drew(n, full, draws, s) || |cols[s]| == Min(wanted, n))
    ensures forall node: nat :: node < n && node !in full ==> |On(cols, node)| >= Min(custodyFloor, columns)
  {
    var drawn := DrawAll(n, columns, full, draws);
    cols := TopUpAll(n, drawn, wanted);
    forall node: nat | node < n && node !in full ensures |On(cols, node)| >= Min(custodyFloor, columns) {
      OnItsDraws(cols, n, full, draws, node);
    }
  }

  // ---------------------------------------------------------------- round-robin and partition

  // The members dealt to subnet i.
  function Dealt(members: seq<nat>, subnets: nat, i: nat): seq<nat>
    requires subnets > 0
  {
    if members == [] then []
    else
      var last := |members| - 1;
      Dealt(members[..last], subnets, i) + if last % subnets == i then [members[last]] else []
  }

  method SyncSubscribers(members: seq<nat>, subnets: nat) returns (subs: seq<seq<nat>>)
    requires subnets > 0
    ensures |subs| == subnets && forall i: nat :: i < subnets ==> subs[i] == Dealt(members, subnets, i)
  {
    subs := seq(subnets, _ => []);
    for j := 0 to |members|
      invariant |subs| == subnets && forall i: nat :: i < subnets ==> subs[i] == Dealt(members[..j], subnets, i)
    {
      assert members[..j + 1][..j] == members[..j];
      subs := subs[j % subnets := subs[j % subnets] + [members[j]]];
    }
    assert members[..|members|] == members;
  }

  // How many of the first `count` deals go to subnet i.
  function Share(count: nat, subnets: nat, i: nat): nat
    requires subnets > 0
  {
    count / subnets + if i < count % subnets then 1 else 0
  }

  lemma NextShare(count: nat, subnets: nat, i: nat)
    requires i < subnets
    ensures Share(count + 1, subnets, i) == Share(count, subnets, i) + if count % subnets == i then 1 else 0
  {
    var q, r := count / subnets, count % subnets;
    assert count == q * subnets + r;
    if r + 1 < subnets {
      QuotientIs(q, subnets, count + 1);
    } else {
      assert count + 1 == (q + 1) * subnets;
      QuotientIs(q + 1, subnets, count + 1);
    }
  }

  /** Sync membership is even: the i-th subnet gets exactly its round-robin share of the members. */
  lemma {:induction false} SyncIsEven(members: seq<nat>, subnets: nat, i: nat)
    requires i < subnets
    ensures |Dealt(members, subnets, i)| == Share(|members|, subnets, i)
  {
    if members != [] {
      SyncIsEven(members[..|members| - 1], subnets, i);
      NextShare(|members| - 1, subnets, i);
    }
  }

  /** A member is on the subnet of its index and on no other. */
  lemma {:induction false} SyncOnOneSubnet(members: seq<nat>, subnets: nat, j: nat, i: nat)
    requires i < subnets && j < |members|
    requires forall a, b :: 0 <= a < b < |members| ==> members[a] != members[b]
    ensures members[j] in Dealt(members, subnets, i) <==> i == j % subnets
  {
    var last := |members| - 1;
    if j < last {
      SyncOnOneSubnet(members[..last], subnets, j, i);
    } else {
      DealtAreMembers(members[..last], subnets, i);
    }
  }

  lemma {:induction false} DealtAreMembers(members: seq<nat>, subnets: nat, i: nat)
    requires subnets > 0
    ensures forall x <- Dealt(members, subnets, i) :: x in members
  {
    if members != [] { DealtAreMembers(members[..|members| - 1], subnets, i); }
  }

  /** Finality membership partitions all N nodes: each is on the subnet it drew and on no other, once. */
  method FinalitySubscribers(n: nat, subnets: nat, draw: nat -> nat) returns (subs: seq<seq<nat>>)
    requires forall node: nat :: node < n ==> draw(node) < subnets
    ensures |subs| == subnets
    ensures forall i: nat, x: nat :: i < subnets ==> multiset(subs[i])[x] == if x < n && draw(x) == i then 1 else 0
  {
    subs := seq(subnets, _ => []);
    for node := 0 to n
      invariant |subs| == subnets
      invariant forall i: nat, x: nat :: i < subnets ==> multiset(subs[i])[x] == if x < node && draw(x) == i then 1 else 0
    {
      subs := subs[draw(node) := subs[draw(node)] + [node]];
    }
  }

  // ---------------------------------------------------------------- the views of the plan

  /** A node's custody columns are, in order, exactly the columns whose subscriber list it is on, by
      either branch, when the backbone is on every list as ColumnSubscribers promises. */
  method CustodyColumns(node: nat, full: set<nat>, cols: seq<set<nat>>) returns (custody: seq<nat>)
    requires forall c: nat :: c < |cols| ==> full <= cols[c]
    ensures forall c: nat :: c in custody <==> c < |cols| && node in cols[c]
    ensures forall i, j :: 0 <= i < j < |custody| ==> custody[i] < custody[j]
  {
    custody := [];
    if node in full {
      custody := seq(|cols|, i => i);
      forall c: nat ensures c in custody <==> c < |cols| && node in cols[c] {
        if c < |cols| { assert custody[c] == c; }
      }
    } else {
      for c := 0 to |cols|
        invariant forall i: nat :: i in custody <==> i < c && node in cols[i]
        invariant forall i, j :: 0 <= i < j < |custody| ==> custody[i] < custody[j]
      {
        if node in cols[c] {
          assert forall i :: 0 <= i < |custody| ==> custody[i] in custody;
          custody := custody + [c];
        }
      }
    }
  }

  // One slot's committees: the sample cut into c runs of sc, seats numbered in order.
  method SlotCommittees(slot: int, vals: seq<nat>, c: nat, sc: nat, nodeOf: nat -> int) returns (sp: SlotPlan)
    requires |vals| == c * sc
    ensures WellDrawn(sp) && |sp.committees| == c && sp.slot == slot
    ensures forall ci: nat, i: nat :: ci < c && i < |sp.committees[ci]| ==>
              && |sp.committees[ci]| == sc && Seat(ci, sc, i) < |vals|
              && sp.committees[ci][i] == AttesterRef(nodeOf(vals[Seat(ci, sc, i)]), vals[Seat(ci, sc, i)], ci, i)
    ensures forall ci :: 0 <= ci < c ==> |sp.committees[ci]| == sc
  {
    var committees, subnetOf := [], [];
    for ci := 0 to c
      invariant |committees| == |subnetOf| == ci
      invariant forall j :: 0 <= j < ci ==> subnetOf[j] == j && |committees[j]| == sc
      invariant forall j: nat, i: nat :: j < ci && i < sc ==>
                  Seat(j, sc, i) < |vals| && committees[j][i] == AttesterRef(nodeOf(vals[Seat(j, sc, i)]), vals[Seat(j, sc, i)], j, i)
    {
      forall i: nat | i < sc ensures Seat(ci, sc, i) < |vals| { SeatFits(ci, sc, i, c); }
      var members := seq(sc, i requires 0 <= i < sc =>
        assert Seat(ci, sc, i) < |vals|; AttesterRef(nodeOf(vals[Seat(ci, sc, i)]), vals[Seat(ci, sc, i)], ci, i));
      committees, subnetOf := committees + [members], subnetOf + [ci];
    }
    sp := SlotPlan(slot, committees, subnetOf, []);
  }

  function Seat(ci: nat, sc: nat, i: nat): nat { ci * sc + i }

  lemma SeatFits(ci: nat, sc: nat, i: nat, c: nat)
    requires ci < c && i < sc
    ensures Seat(ci, sc, i) < c * sc
  {
    MulMono(ci + 1, c, sc);
  }

  /** Distinct seats draw from distinct places of the sample, so nobody sits twice in a slot. */
  lemma SeatsAreDistinct(sc: nat, ci: nat, i: nat, cj: nat, j: nat)
    requires i < sc && j < sc && Seat(ci, sc, i) == Seat(cj, sc, j)
    ensures ci == cj && i == j
  {
    QuotientIs(ci, sc, Seat(ci, sc, i));
    QuotientIs(cj, sc, Seat(cj, sc, j));
  }

  /** A node's attestation duties are exactly its seats. */
  method AttestDuties(sp: SlotPlan, node: int) returns (duties: seq<Duty>)
    ensures forall d :: d in duties <==> exists com <- sp.committees, r <- com :: r.node == node && d == Duty(r.subnet, r.val, r.position)
  {
    duties := [];
    for ci := 0 to |sp.committees|
      invariant forall d :: d in duties <==>
                  exists com <- sp.committees[..ci], r <- com :: r.node == node && d == Duty(r.subnet, r.val, r.position)
    {
      var com := sp.committees[ci];
      assert sp.committees[..ci + 1] == sp.committees[..ci] + [com];
      ghost var before := duties;
      for i := 0 to |com|
        invariant forall d :: d in duties <==> d in before || exists r <- com[..i] :: r.node == node && d == Duty(r.subnet, r.val, r.position)
      {
        assert com[..i + 1] == com[..i] + [com[i]];
        if com[i].node == node { duties := duties + [Duty(com[i].subnet, com[i].val, com[i].position)]; }
      }
      assert com[..|com|] == com;
    }
    assert sp.committees[..|sp.committees|] == sp.committees;
  }
}
