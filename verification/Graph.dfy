/** The peer-graph builders of netsim/graph.go and netsim/subnet.go.  Every random draw is an
    arbitrary value in its range, so what is proved holds for all of them. */
module Graph {

  type Edges = seq<set<int>>

  function Ids(ids: seq<int>): set<int> { set i | i in ids }

  predicate InRange(n: nat, ids: seq<int>) { forall id <- ids :: 0 <= id < n }

  // Undirected, loop-free, endpoints in range.
  ghost predicate Simple(edge: Edges) {
    forall i, j {:trigger j in edge[i]} :: 0 <= i < |edge| && j in edge[i] ==>
      0 <= j < |edge| && j != i && i in edge[j]
  }

  ghost predicate NoDuplicates<T>(s: seq<T>) {
    forall i, j :: 0 <= i < j < |s| ==> s[i] != s[j]
  }

  // The adjacency lists and the edge sets say the same thing.
  ghost predicate Agree(adj: seq<seq<int>>, edge: Edges) {
    && |adj| == |edge|
    && forall i :: 0 <= i < |adj| ==> NoDuplicates(adj[i]) && Ids(adj[i]) == edge[i]
  }

  // A walk that never leaves the group.
  ghost predicate IsPath(edge: Edges, group: set<int>, p: seq<int>) {
    && p != []
    && (forall i :: 0 <= i < |p| ==> p[i] in group && 0 <= p[i] < |edge|)
    && (forall i :: 0 <= i < |p| - 1 ==> p[i + 1] in edge[p[i]])
  }

  ghost predicate Joins(p: seq<int>, u: int, v: int) {
    p != [] && p[0] == u && p[|p| - 1] == v
  }

  ghost predicate Linked(edge: Edges, group: set<int>, u: int, v: int) {
    exists p :: IsPath(edge, group, p) && Joins(p, u, v)
  }

  // One connected piece through internal edges alone.
  ghost predicate Connected(edge: Edges, group: set<int>) {
    forall u, v :: u in group && v in group ==> Linked(edge, group, u, v)
  }

  ghost predicate AllConnected(edge: Edges, groups: seq<seq<int>>) {
    forall s <- groups :: Connected(edge, Ids(s))
  }

  predicate AllInRange(n: nat, groups: seq<seq<int>>) { forall s <- groups :: InRange(n, s) }

  ghost predicate Grows(before: Edges, after: Edges) {
    |before| == |after| && forall i :: 0 <= i < |before| ==> before[i] <= after[i]
  }

  // Every edge that is new runs between two members of the group.
  ghost predicate NewEdgesWithin(before: Edges, after: Edges, group: set<int>) {
    && |before| == |after|
    && forall i :: 0 <= i < |after| && after[i] != before[i] ==> i in group && after[i] <= before[i] + group
  }

  function WithEdge(edge: Edges, i: int, j: int): Edges {
    if i == j || i < 0 || j < 0 || i >= |edge| || j >= |edge| || j in edge[i] then edge
    else edge[i := edge[i] + {j}][j := edge[j] + {i}]
  }

  lemma SimpleAt(edge: Edges, i: int, j: int)
    requires Simple(edge) && 0 <= i < |edge| && j in edge[i]
    ensures 0 <= j < |edge| && j != i && i in edge[j]
  {
  }

  lemma SimpleWith(edge: Edges, after: Edges, i: int, j: int)
    requires Simple(edge) && |after| == |edge| && 0 <= i < |edge| && 0 <= j < |edge| && i != j
    requires forall a, b :: 0 <= a < |edge| ==> (b in after[a] <==> b in edge[a] || (a == i && b == j) || (a == j && b == i))
    ensures Simple(after)
  {
    forall a, b | 0 <= a < |after| && b in after[a] ensures 0 <= b < |after| && b != a && a in after[b] {
      if b in edge[a] { SimpleAt(edge, a, b); }
    }
  }

  lemma WithEdgeKeepsSimple(edge: Edges, i: int, j: int)
    requires Simple(edge)
    ensures Simple(WithEdge(edge, i, j))
    ensures Grows(edge, WithEdge(edge, i, j))
    ensures NewEdgesWithin(edge, WithEdge(edge, i, j), {i, j})
    ensures 0 <= i < |edge| && 0 <= j < |edge| && i != j ==>
              j in WithEdge(edge, i, j)[i] && i in WithEdge(edge, i, j)[j]
    ensures 0 <= i < |edge| && 0 <= j < |edge| && i != j ==> WithEdge(edge, i, j)[i] == edge[i] + {j}
  {
    if i == j || i < 0 || j < 0 || i >= |edge| || j >= |edge| { return; }
    var after := WithEdge(edge, i, j);
    if j in edge[i] {
      assert i in edge[j] && edge[i] == edge[i] + {j};
      return;
    }
    assert after[i] == edge[i] + {j} && after[j] == edge[j] + {i};
    assert forall k :: 0 <= k < |edge| && k != i && k != j ==> after[k] == edge[k];
    SimpleWith(edge, after, i, j);
  }

  lemma NewEdgesCompose(first: Edges, second: Edges, third: Edges, small: set<int>, group: set<int>)
    requires NewEdgesWithin(first, second, group) && NewEdgesWithin(second, third, small) && small <= group
    ensures NewEdgesWithin(first, third, group)
  {
    forall i | 0 <= i < |third| && third[i] != first[i] ensures i in group && third[i] <= first[i] + group {
      assert second[i] != first[i] || third[i] != second[i];
    }
  }

  lemma GrowsCompose(first: Edges, second: Edges, third: Edges)
    requires Grows(first, second) && Grows(second, third)
    ensures Grows(first, third)
  {
  }

  lemma ConnectedGrows(before: Edges, after: Edges, group: set<int>)
    requires Connected(before, group) && Grows(before, after)
    ensures Connected(after, group)
  {
    forall u, v | u in group && v in group ensures Linked(after, group, u, v) {
      assert Linked(before, group, u, v);
      var p :| IsPath(before, group, p) && Joins(p, u, v);
      assert IsPath(after, group, p);
    }
  }

  lemma AllConnectedGrow(before: Edges, after: Edges, groups: seq<seq<int>>)
    requires Grows(before, after) && AllConnected(before, groups)
    ensures AllConnected(after, groups)
  {
    forall s | s in groups ensures Connected(after, Ids(s)) {
      ConnectedGrows(before, after, Ids(s));
    }
  }

  lemma SingletonConnected(edge: Edges, x: int)
    requires 0 <= x < |edge|
    ensures Connected(edge, {x})
  {
    assert IsPath(edge, {x}, [x]) && Joins([x], x, x);
  }

  lemma PathWidens(edge: Edges, small: set<int>, large: set<int>, p: seq<int>)
    requires IsPath(edge, small, p) && small <= large
    ensures IsPath(edge, large, p)
  {
  }

  /** Attaching one member to any earlier member keeps the group in one piece. */
  lemma AttachKeepsConnected(edge: Edges, group: set<int>, x: int, r: int)
    requires Connected(edge, group) && r in group && 0 <= x < |edge| && 0 <= r < |edge|
    requires x == r || (x in edge[r] && r in edge[x])
    ensures Connected(edge, group + {x})
  {
    var wide := group + {x};
    forall u, v | u in wide && v in wide ensures Linked(edge, wide, u, v) {
      if u in group && v in group {
        assert Linked(edge, group, u, v);
        var p :| IsPath(edge, group, p) && Joins(p, u, v);
        PathWidens(edge, group, wide, p);
      } else if u == x && v == x {
        assert IsPath(edge, wide, [x]) && Joins([x], x, x);
      } else if u == x {
        assert Linked(edge, group, r, v);
        var p :| IsPath(edge, group, p) && Joins(p, r, v);
        PathWidens(edge, group, wide, p);
        assert IsPath(edge, wide, [x] + p) && Joins([x] + p, x, v);
      } else {
        assert Linked(edge, group, u, r);
        var p :| IsPath(edge, group, p) && Joins(p, u, r);
        PathWidens(edge, group, wide, p);
        assert IsPath(edge, wide, p + [x]) && Joins(p + [x], u, x);
      }
    }
  }

  /** What connectivity is for: a message held by one member and passed on over every internal edge
      reaches the whole group. */
  lemma FloodReachesAll(edge: Edges, group: set<int>, reached: set<int>, start: int)
    requires Connected(edge, group) && start in group && start in reached
    requires forall u, v :: u in reached && u in group && 0 <= u < |edge| && v in edge[u] && v in group ==> v in reached
    ensures group <= reached
  {
    forall v | v in group ensures v in reached {
      assert Linked(edge, group, start, v);
      var p :| IsPath(edge, group, p) && Joins(p, start, v);
      FloodAlong(edge, group, reached, p, |p| - 1);
    }
  }

  lemma {:induction false} FloodAlong(edge: Edges, group: set<int>, reached: set<int>, p: seq<int>, k: nat)
    requires IsPath(edge, group, p) && p[0] in reached && k < |p|
    requires forall u, v :: u in reached && u in group && 0 <= u < |edge| && v in edge[u] && v in group ==> v in reached
    ensures p[k] in reached
  {
    if k > 0 { FloodAlong(edge, group, reached, p, k - 1); }
  }

  function Upto(n: nat): (ids: seq<int>)
    ensures |ids| == n && forall i :: 0 <= i < n ==> ids[i] == i
  {
    seq(n, i => i)
  }

  lemma {:induction false} LengthIsCard(s: seq<int>)
    requires NoDuplicates(s)
    ensures |Ids(s)| == |s|
  {
    if s != [] {
      var front, last := s[..|s| - 1], s[|s| - 1];
      LengthIsCard(front);
      assert s == front + [last];
      assert Ids(s) == Ids(front) + {last};
    }
  }

  // A node's links inside a group.
  function CoMembers(edge: Edges, ids: seq<int>, id: int): nat {
    if 0 <= id < |edge| then |edge[id] * Ids(ids)| else 0
  }

  lemma CoMembersGrow(before: Edges, after: Edges, ids: seq<int>, id: int)
    requires Grows(before, after)
    ensures CoMembers(before, ids, id) <= CoMembers(after, ids, id)
  {
    if 0 <= id < |before| { SetGrows(before[id] * Ids(ids), after[id] * Ids(ids)); }
  }

  function MaxTries(k: int): nat { if k > 0 then k * 4 else 0 }

  // What a node's turn drew: every draw is a link of the node now, unless it was the node itself.
  predicate Drew(edge: Edges, id: int, from: set<int>, draws: seq<int>) {
    0 <= id < |edge| && forall d <- draws :: d in from && (d == id || d in edge[id])
  }

  // A member's turn ended at the target of co-member links, past it already, or with all its tries
  // spent.
  predicate FullTurn(edge: Edges, ids: seq<int>, id: int, target: int, k: int, draws: seq<int>) {
    && Drew(edge, id, Ids(ids), draws) && |draws| <= MaxTries(k)
    && (CoMembers(edge, ids, id) >= target || |draws| == MaxTries(k))
  }

  // The first i members had their turns.
  predicate Reached(edge: Edges, ids: seq<int>, target: int, k: int, turns: seq<seq<int>>, i: nat)
    requires i <= |ids|
  {
    |turns| == i && forall j :: 0 <= j < i ==> FullTurn(edge, ids, ids[j], target, k, turns[j])
  }

  lemma ReachedGrows(before: Edges, after: Edges, ids: seq<int>, target: int, k: int, turns: seq<seq<int>>, i: nat)
    requires i <= |ids| && Grows(before, after) && Reached(before, ids, target, k, turns, i)
    ensures Reached(after, ids, target, k, turns, i)
  {
    forall j | 0 <= j < i ensures FullTurn(after, ids, ids[j], target, k, turns[j]) {
      assert FullTurn(before, ids, ids[j], target, k, turns[j]);
      CoMembersGrow(before, after, ids, ids[j]);
    }
  }

  function GroupTarget(ids: seq<int>, k: int): int { if k < |ids| - 1 then k else |ids| - 1 }

  // Every member of every group had its turn.
  predicate AllReached(edge: Edges, groups: seq<seq<int>>, k: int, turns: seq<seq<seq<int>>>) {
    |turns| == |groups|
    && forall i :: 0 <= i < |groups| ==> Reached(edge, groups[i], GroupTarget(groups[i], k), k, turns[i], |groups[i]|)
  }

  lemma AllReachedGrow(before: Edges, after: Edges, groups: seq<seq<int>>, k: int, turns: seq<seq<seq<int>>>)
    requires Grows(before, after) && AllReached(before, groups, k, turns)
    ensures AllReached(after, groups, k, turns)
  {
    forall i | 0 <= i < |groups| ensures Reached(after, groups[i], GroupTarget(groups[i], k), k, turns[i], |groups[i]|) {
      ReachedGrows(before, after, groups[i], GroupTarget(groups[i], k), k, turns[i], |groups[i]|);
    }
  }

  // The first i nodes ended at the degree, past it already, or with all their tries spent.
  predicate Filled(edge: Edges, k: int, turns: seq<seq<int>>, i: nat)
    requires i <= |edge|
  {
    |turns| == i && forall j :: 0 <= j < i ==>
      && Drew(edge, j, Ids(Upto(|edge|)), turns[j]) && |turns[j]| <= MaxTries(k)
      && (|edge[j]| >= k || |turns[j]| == MaxTries(k))
  }

  lemma FilledGrows(before: Edges, after: Edges, k: int, turns: seq<seq<int>>, i: nat)
    requires i <= |before| && Grows(before, after) && Filled(before, k, turns, i)
    ensures Filled(after, k, turns, i)
  {
    forall j | 0 <= j < i ensures |after[j]| >= |before[j]| { SetGrows(before[j], after[j]); }
  }

  lemma SetGrows(a: set<int>, b: set<int>)
    requires a <= b
    ensures |a| <= |b|
  {
    assert b == a + (b - a);
  }

  lemma OneMoreNeighbour(neighbours: set<int>, group: set<int>, peer: int)
    requires peer in group && peer !in neighbours
    ensures |(neighbours + {peer}) * group| == |neighbours * group| + 1
  {
    assert (neighbours + {peer}) * group == neighbours * group + {peer};
  }

  // One attachment of randomTree: ids[i] gets a link to an id before it.
  lemma TreeStep(n: nat, before: Edges, after: Edges, ids: seq<int>, i: nat, draw: nat)
    requires draw < i < |ids| && InRange(n, ids) && |after| == n
    requires Connected(before, Ids(ids[..i])) && after == WithEdge(before, ids[i], ids[draw]) && Simple(before)
    ensures Connected(after, Ids(ids[..i + 1]))
  {
    assert ids[i] in ids && ids[draw] in ids && ids[draw] in ids[..i];
    WithEdgeKeepsSimple(before, ids[i], ids[draw]);
    ConnectedGrows(before, after, Ids(ids[..i]));
    AttachKeepsConnected(after, Ids(ids[..i]), ids[i], ids[draw]);
    assert ids[..i + 1] == ids[..i] + [ids[i]];
    assert Ids(ids[..i + 1]) == Ids(ids[..i]) + {ids[i]};
  }

  class Network {
    const n: nat
    var adj: seq<seq<int>>
    var edge: Edges

    ghost predicate Valid()
      reads this
    {
      |edge| == n && Simple(edge) && Agree(adj, edge)
    }

    constructor (n: nat)
      ensures this.n == n && Valid() && edge == seq(n, _ => {})
    {
      this.n := n;
      adj := seq(n, _ => []);
      edge := seq(n, _ => {});
    }

    method Add(i: int, j: int)
      requires Valid()
      modifies this
      ensures Valid() && edge == WithEdge(old(edge), i, j)
      ensures Grows(old(edge), edge) && NewEdgesWithin(old(edge), edge, {i, j})
      ensures 0 <= i < n && 0 <= j < n && i != j ==> j in edge[i] && i in edge[j]
    {
      WithEdgeKeepsSimple(edge, i, j);
      if i == j || i < 0 || j < 0 || i >= n || j >= n || j in edge[i] { return; }
      assert i !in edge[j] && j !in adj[i] && i !in adj[j] by {
        assert Ids(adj[i]) == edge[i] && Ids(adj[j]) == edge[j];
      }
      edge := edge[i := edge[i] + {j}][j := edge[j] + {i}];
      adj := adj[i := adj[i] + [j]][j := adj[j] + [i]];
      forall k | 0 <= k < n ensures NoDuplicates(adj[k]) && Ids(adj[k]) == edge[k] {
        assert NoDuplicates(old(adj)[k]) && Ids(old(adj)[k]) == old(edge)[k];
      }
    }

    method RandomTree(ids: seq<int>)
      requires Valid() && InRange(n, ids)
      modifies this
      ensures Valid() && Grows(old(edge), edge)
      ensures NewEdgesWithin(old(edge), edge, Ids(ids))
      ensures Connected(edge, Ids(ids))
    {
      if ids != [] {
        assert ids[0] in ids;
        SingletonConnected(edge, ids[0]);
      }
      var i := 1;
      assert ids != [] ==> Ids(ids[..1]) == {ids[0]};
      while i < |ids|
        invariant 1 <= i && (|ids| > 0 ==> i <= |ids|)
        invariant Valid() && Grows(old(edge), edge) && NewEdgesWithin(old(edge), edge, Ids(ids))
        invariant ids != [] ==> Connected(edge, Ids(ids[..i]))
      {
        var draw: nat :| draw < i;
        ghost var before := edge;
        assert ids[i] in ids && ids[draw] in ids;
        Add(ids[i], ids[draw]);
        NewEdgesCompose(old(edge), before, edge, {ids[i], ids[draw]}, Ids(ids));
        TreeStep(n, before, edge, ids, i, draw);
        i := i + 1;
      }
      if ids != [] { assert ids[..i] == ids; }
    }

    // Every node's turn ends at the degree, past it already, or with all its tries spent.
    method Fill(k: int) returns (ghost turns: seq<seq<int>>)
      requires Valid()
      modifies this
      ensures Valid() && Grows(old(edge), edge) && Filled(edge, k, turns, n)
    {
      turns := [];
      for i := 0 to n
        invariant Valid() && Grows(old(edge), edge) && Filled(edge, k, turns, i)
      {
        ghost var before := edge;
        ghost var draws := FillOne(i, k);
        FilledGrows(before, edge, k, turns, i);
        turns := turns + [draws];
      }
    }

    method FillOne(i: nat, k: int) returns (ghost draws: seq<int>)
      requires Valid() && i < n
      modifies this
      ensures Valid() && Grows(old(edge), edge)
      ensures Drew(edge, i, Ids(Upto(n)), draws) && |draws| <= MaxTries(k)
      ensures |edge[i]| >= k || |draws| == MaxTries(k)
      ensures |edge[i]| <= |old(edge)[i]| || |edge[i]| <= k
    {
      var tries := 0;
      draws := [];
      LengthIsCard(adj[i]);
      while |adj[i]| < k && tries < k * 4
        invariant Valid() && Grows(old(edge), edge) && |draws| == tries <= MaxTries(k)
        invariant Drew(edge, i, Ids(Upto(n)), draws)
        invariant |edge[i]| <= |old(edge)[i]| || |edge[i]| <= k
        decreases k * 4 - tries
      {
        LengthIsCard(adj[i]);
        var draw: nat :| draw < n;
        draws := DrawOne(i, draw, draws, k);
        tries := tries + 1;
      }
      LengthIsCard(adj[i]);
    }

    method DrawOne(i: nat, draw: nat, ghost soFar: seq<int>, ghost k: int) returns (ghost draws: seq<int>)
      requires Valid() && i < n && draw < n && Drew(edge, i, Ids(Upto(n)), soFar) && |edge[i]| < k
      modifies this
      ensures Valid() && Grows(old(edge), edge) && draws == soFar + [draw]
      ensures Drew(edge, i, Ids(Upto(n)), draws) && |edge[i]| <= k
    {
      WithEdgeKeepsSimple(edge, i, draw);
      Add(i, draw);
      draws := soFar + [draw];
      assert Upto(n)[draw] == draw;
    }

    // Counts the in-group entries of id's adjacency list, as the set of its in-group neighbours.
    method CountInGroup(id: int, group: set<int>) returns (inGroup: nat)
      requires Valid() && 0 <= id < n
      ensures inGroup == |edge[id] * group|
    {
      inGroup := 0;
      var list := adj[id];
      ghost var seen: set<int> := {};
      for i := 0 to |list|
        invariant seen == Ids(list[..i]) * group && inGroup == |seen|
      {
        assert list[..i + 1] == list[..i] + [list[i]];
        assert list[i] !in list[..i] by { assert NoDuplicates(adj[id]); }
        if list[i] in group {
          seen := seen + {list[i]};
          inGroup := inGroup + 1;
        }
      }
      assert list[..|list|] == list && Ids(adj[id]) == edge[id];
    }

    // One member's turn of groupFill.  The counter is the true in-group degree throughout, and the
    // turn ends at the target, past it already, or with all its tries spent.
    method TopUp(id: int, ids: seq<int>, target: int, k: int) returns (inGroup: nat, ghost draws: seq<int>)
      requires Valid() && InRange(n, ids) && id in ids
      modifies this
      ensures Valid() && Grows(old(edge), edge) && NewEdgesWithin(old(edge), edge, Ids(ids))
      ensures inGroup == |edge[id] * Ids(ids)|
      ensures Drew(edge, id, Ids(ids), draws) && |draws| <= MaxTries(k)
      ensures inGroup >= target || |draws| == MaxTries(k)
      ensures inGroup <= |old(edge)[id] * Ids(ids)| || inGroup <= target
    {
      inGroup := CountInGroup(id, Ids(ids));
      var tries := 0;
      draws := [];
      while inGroup < target && tries < k * 4
        invariant Valid() && Grows(old(edge), edge) && NewEdgesWithin(old(edge), edge, Ids(ids))
        invariant inGroup == |edge[id] * Ids(ids)| && |draws| == tries <= MaxTries(k)
        invariant Drew(edge, id, Ids(ids), draws)
        invariant inGroup <= |old(edge)[id] * Ids(ids)| || inGroup <= target
        decreases k * 4 - tries
      {
        var draw: nat :| draw < |ids|;
        var peer := ids[draw];
        tries := tries + 1;
        draws := draws + [peer];
        assert peer in ids;
        if peer == id || peer in edge[id] { continue; }
        ghost var before := edge;
        AddWithin(id, peer, ids);
        NewEdgesCompose(old(edge), before, edge, Ids(ids), Ids(ids));
        inGroup := inGroup + 1;
      }
    }

    method AddWithin(id: int, peer: int, ids: seq<int>)
      requires Valid() && InRange(n, ids) && id in ids && peer in ids && peer != id && peer !in edge[id]
      modifies this
      ensures Valid() && Grows(old(edge), edge) && NewEdgesWithin(old(edge), edge, Ids(ids))
      ensures |edge[id] * Ids(ids)| == |old(edge)[id] * Ids(ids)| + 1 && peer in edge[id]
    {
      ghost var before := edge;
      Add(id, peer);
      WithEdgeKeepsSimple(before, id, peer);
      NewEdgesCompose(before, before, edge, {id, peer}, Ids(ids));
      OneMoreNeighbour(before[id], Ids(ids), peer);
    }

    // Every member ends with its target of co-member links, or with all its tries spent.
    method GroupFill(ids: seq<int>, k: int) returns (ghost turns: seq<seq<int>>)
      requires Valid() && InRange(n, ids)
      modifies this
      ensures Valid() && Grows(old(edge), edge) && NewEdgesWithin(old(edge), edge, Ids(ids))
      ensures Reached(edge, ids, if k < |ids| - 1 then k else |ids| - 1, k, turns, |ids|)
    {
      var target := if k < |ids| - 1 then k else |ids| - 1;
      turns := [];
      for i := 0 to |ids|
        invariant Valid() && Grows(old(edge), edge) && NewEdgesWithin(old(edge), edge, Ids(ids))
        invariant Reached(edge, ids, target, k, turns, i)
      {
        turns := MemberTurn(ids, target, k, i, turns, old(edge));
      }
    }

    method MemberTurn(ids: seq<int>, target: int, k: int, i: nat, ghost soFar: seq<seq<int>>, ghost first: Edges)
        returns (ghost turns: seq<seq<int>>)
      requires Valid() && InRange(n, ids) && i < |ids| && Grows(first, edge) && NewEdgesWithin(first, edge, Ids(ids))
      requires Reached(edge, ids, target, k, soFar, i)
      modifies this
      ensures Valid() && Grows(first, edge) && NewEdgesWithin(first, edge, Ids(ids))
      ensures Reached(edge, ids, target, k, turns, i + 1)
    {
      ghost var before := edge;
      assert ids[i] in ids;
      var inGroup;
      ghost var draws;
      inGroup, draws := TopUp(ids[i], ids, target, k);
      NewEdgesCompose(first, before, edge, Ids(ids), Ids(ids));
      GrowsCompose(first, before, edge);
      ReachedGrows(before, edge, ids, target, k, soFar, i);
      turns := soFar + [draws];
    }

    // One random tree per group; finality groups are also topped up to `fillTo` internal links.
    method Trees(groups: seq<seq<int>>, fillTo: int) returns (ghost turns: seq<seq<seq<int>>>)
      requires Valid() && AllInRange(n, groups)
      modifies this
      ensures Valid() && Grows(old(edge), edge)
      ensures AllConnected(edge, groups)
      ensures fillTo > 0 ==> AllReached(edge, groups, fillTo, turns)
    {
      turns := [];
      for i := 0 to |groups|
        invariant Valid() && Grows(old(edge), edge)
        invariant AllConnected(edge, groups[..i])
        invariant fillTo > 0 ==> AllReached(edge, groups[..i], fillTo, turns)
      {
        turns := TreeOf(groups, fillTo, i, turns, old(edge));
      }
      assert groups[..|groups|] == groups;
    }

    method TreeOf(groups: seq<seq<int>>, fillTo: int, i: nat, ghost soFar: seq<seq<seq<int>>>, ghost first: Edges)
        returns (ghost turns: seq<seq<seq<int>>>)
      requires Valid() && AllInRange(n, groups) && i < |groups| && Grows(first, edge) && AllConnected(edge, groups[..i])
      requires fillTo > 0 ==> AllReached(edge, groups[..i], fillTo, soFar)
      modifies this
      ensures Valid() && Grows(first, edge) && AllConnected(edge, groups[..i + 1])
      ensures fillTo > 0 ==> AllReached(edge, groups[..i + 1], fillTo, turns)
    {
      ghost var before := edge;
      RandomTree(groups[i]);
      ghost var tree := edge;
      turns := soFar;
      assert groups[..i + 1] == groups[..i] + [groups[i]];
      if fillTo > 0 {
        ghost var more := GroupFill(groups[i], fillTo);
        turns := soFar + [more];
        GrowsCompose(before, tree, edge);
        ConnectedGrows(tree, edge, Ids(groups[i]));
        AllReachedGrow(before, edge, groups[..i], fillTo, soFar);
      }
      GrowsCompose(first, before, edge);
      AllConnectedGrow(before, edge, groups[..i]);
    }
  }

  const FINALITY_GROUP_DEGREE := 12

  /** For every sequence of draws the built graph is simple with agreeing representations, the whole
      network is connected, and so is every subnet, column, sync and finality group on its own; each
      finality member has its target of co-member links, and each node its degree, unless all the
      tries of its turn were drawn and linked. */
  method Discv5Graph(n: nat, subnets: seq<seq<int>>, columns: seq<seq<int>>, syncs: seq<seq<int>>,
                     finality: seq<seq<int>>, degree: int)
    returns (g: Network, ghost memberTurns: seq<seq<seq<int>>>, ghost nodeTurns: seq<seq<int>>)
    requires AllInRange(n, subnets) && AllInRange(n, columns) && AllInRange(n, syncs) && AllInRange(n, finality)
    ensures g.n == n && g.Valid() && fresh(g)
    ensures n >= 2 ==> Connected(g.edge, Ids(Upto(n)))
    ensures n >= 2 ==> AllConnected(g.edge, subnets) && AllConnected(g.edge, columns)
                       && AllConnected(g.edge, syncs) && AllConnected(g.edge, finality)
    ensures n >= 2 ==> AllReached(g.edge, finality, 12, memberTurns)
                       && Filled(g.edge, if degree > n - 1 then n - 1 else degree, nodeTurns, n)
    ensures n < 2 ==> g.edge == seq(n, _ => {})
  {
    g := new Network(n);
    memberTurns, nodeTurns := [], [];
    if n < 2 { return; }
    var k := if degree > n - 1 then n - 1 else degree;
    g.RandomTree(Upto(n));
    ghost var e0 := g.edge;
    ghost var _ := g.Trees(subnets, 0);
    ghost var e1 := g.edge;
    ghost var _ := g.Trees(columns, 0);
    ghost var e2 := g.edge;
    ghost var _ := g.Trees(syncs, 0);
    ghost var e3 := g.edge;
    memberTurns := g.Trees(finality, FINALITY_GROUP_DEGREE);
    ghost var e4 := g.edge;
    nodeTurns := g.Fill(k);
    AllReachedGrow(e4, g.edge, finality, FINALITY_GROUP_DEGREE, memberTurns);
    GrowsCompose(e3, e4, g.edge);
    GrowsCompose(e2, e3, g.edge);
    GrowsCompose(e1, e2, g.edge);
    GrowsCompose(e0, e1, g.edge);
    ConnectedGrows(e0, g.edge, Ids(Upto(n)));
    AllConnectedGrow(e1, g.edge, subnets);
    AllConnectedGrow(e2, g.edge, columns);
    AllConnectedGrow(e3, g.edge, syncs);
    AllConnectedGrow(e4, g.edge, finality);
  }
}
