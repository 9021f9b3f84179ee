/** Which node hosts a validator: the same rule as a linear scan (schedule/position.go), a binary
    search over prefix sums and a repeated host list (simctl/schedule.py,
    analysis/check_arrivals.py), and a contiguous range of ids (schedule/schedule.go). */
module Hosting {

  function Sum(counts: seq<nat>): nat {
    if counts == [] then 0 else Sum(counts[..|counts| - 1]) + counts[|counts| - 1]
  }

  // The first id hosted by `node`.
  function FirstId(counts: seq<nat>, node: nat): nat
    requires node <= |counts|
  {
    Sum(counts[..node])
  }

  // The reference: `node` hosts the contiguous ids that start at FirstId(node).
  predicate Hosts(counts: seq<nat>, node: int, val: int) {
    0 <= node < |counts| && FirstId(counts, node) <= val < FirstId(counts, node) + counts[node]
  }

  lemma FirstIdStep(counts: seq<nat>, node: nat)
    requires node < |counts|
    ensures FirstId(counts, node + 1) == FirstId(counts, node) + counts[node]
  {
    assert counts[..node + 1][..node] == counts[..node];
  }

  lemma {:induction false} FirstIdMonotone(counts: seq<nat>, a: nat, b: nat)
    requires a <= b <= |counts|
    ensures FirstId(counts, a) <= FirstId(counts, b)
    decreases b - a
  {
    if a < b {
      FirstIdStep(counts, b - 1);
      FirstIdMonotone(counts, a, b - 1);
    }
  }

  lemma FirstIdEnd(counts: seq<nat>)
    ensures FirstId(counts, |counts|) == Sum(counts)
  {
    assert counts[..|counts|] == counts;
  }

  lemma HostUnique(counts: seq<nat>, a: int, b: int, val: int)
    requires Hosts(counts, a, val) && Hosts(counts, b, val)
    ensures a == b
  {
    FirstIdStep(counts, a);
    FirstIdStep(counts, b);
    if a < b { FirstIdMonotone(counts, a + 1, b); }
    if b < a { FirstIdMonotone(counts, b + 1, a); }
  }

  function ScanFrom(counts: seq<nat>, node: nat, val: int): (host: int)
    requires node <= |counts|
    decreases |counts| - node
  {
    if node == |counts| then -1
    else if val < FirstId(counts, node) + counts[node] then node
    else ScanFrom(counts, node + 1, val)
  }

  // HostOf over validator counts when there are any, else uniformly over n nodes; -1 out of range.
  function HostOf(counts: seq<nat>, n: int, val: int): int {
    if val < 0 then -1
    else if |counts| > 0 then ScanFrom(counts, 0, val)
    else if n <= 0 then -1
    else val % n
  }

  lemma {:induction false} ScanFinds(counts: seq<nat>, node: nat, val: int)
    requires node <= |counts| && FirstId(counts, node) <= val
    ensures var h := ScanFrom(counts, node, val);
            if val < Sum(counts) then Hosts(counts, h, val) else h == -1
    decreases |counts| - node
  {
    if node == |counts| {
      FirstIdEnd(counts);
    } else {
      FirstIdStep(counts, node);
      if val < FirstId(counts, node + 1) {
        FirstIdMonotone(counts, node + 1, |counts|);
        FirstIdEnd(counts);
      } else {
        ScanFinds(counts, node + 1, val);
      }
    }
  }

  /** With counts present, the scan answers `node` exactly when node's contiguous range holds the
      id, and -1 exactly when no range does; empty nodes are never answered. */
  lemma HostOfIsTheRange(counts: seq<nat>, n: int, val: int, node: int)
    requires |counts| > 0 && 0 <= node
    ensures HostOf(counts, n, val) == node <==> Hosts(counts, node, val)
    ensures HostOf(counts, n, val) == -1 <==> !(0 <= val < Sum(counts))
  {
    if val >= 0 {
      assert counts[..0] == [];
      ScanFinds(counts, 0, val);
      if val < Sum(counts) && Hosts(counts, node, val) {
        HostUnique(counts, node, HostOf(counts, n, val), val);
      }
      if Hosts(counts, node, val) {
        FirstIdStep(counts, node);
        FirstIdMonotone(counts, node + 1, |counts|);
        FirstIdEnd(counts);
      }
    }
  }

  /** Without counts the validators are dealt out round-robin: an id's host is a node, a whole number
      of rounds below the id; and there is no host exactly for a negative id or no nodes. */
  lemma UniformHostIsRoundRobin(n: int, val: int) returns (rounds: int)
    ensures val >= 0 && n > 0 ==> 0 <= HostOf([], n, val) < n && val == rounds * n + HostOf([], n, val)
    ensures HostOf([], n, val) == -1 <==> val < 0 || n <= 0
  {
    rounds := if n > 0 then val / n else 0;
  }

  method HostScan(counts: seq<nat>, n: int, val: int) returns (host: int)
    ensures host == HostOf(counts, n, val)
  {
    if val < 0 { return -1; }
    if |counts| > 0 {
      var start := 0;
      assert counts[..0] == [];
      for node := 0 to |counts|
        invariant start == FirstId(counts, node)
        invariant ScanFrom(counts, 0, val) == ScanFrom(counts, node, val)
      {
        if val < start + counts[node] { return node; }
        FirstIdStep(counts, node);
        start := start + counts[node];
      }
      return -1;
    }
    if n <= 0 { return -1; }
    return val % n;
  }

  // accumulate(counts): bounds[i] is one past the last id hosted by node i.
  method Accumulate(counts: seq<nat>) returns (bounds: seq<nat>)
    ensures |bounds| == |counts|
    ensures forall i :: 0 <= i < |counts| ==> bounds[i] == FirstId(counts, i + 1)
  {
    bounds := [];
    var running := 0;
    assert counts[..0] == [];
    for i := 0 to |counts|
      invariant |bounds| == i && running == FirstId(counts, i)
      invariant forall j :: 0 <= j < i ==> bounds[j] == FirstId(counts, j + 1)
    {
      FirstIdStep(counts, i);
      running := running + counts[i];
      bounds := bounds + [running];
    }
  }

  // bisect_right: the insertion point after every bound <= val.
  method BisectRight(bounds: seq<nat>, val: nat) returns (at: nat)
    requires forall i, j :: 0 <= i < j < |bounds| ==> bounds[i] <= bounds[j]
    ensures at <= |bounds|
    ensures forall i :: 0 <= i < at ==> bounds[i] <= val
    ensures forall i :: at <= i < |bounds| ==> val < bounds[i]
  {
    at := 0;
    var hi := |bounds|;
    while at < hi
      invariant at <= hi <= |bounds|
      invariant forall i :: 0 <= i < at ==> bounds[i] <= val
      invariant forall i :: hi <= i < |bounds| ==> val < bounds[i]
    {
      var mid := (at + hi) / 2;
      if val < bounds[mid] { hi := mid; } else { at := mid + 1; }
    }
  }

  /** The generator's validator-to-node lookup.  It agrees with HostOf on an id iff the id is in
      range: past the last hosted id the search answers |counts| and the scan -1. */
  method NodeOf(counts: seq<nat>, n: nat, val: nat) returns (node: nat)
    requires |counts| == 0 ==> n > 0
    ensures |counts| == 0 ==> node == HostOf(counts, n, val)
    ensures |counts| > 0 ==> (node == HostOf(counts, n, val) <==> val < Sum(counts))
    ensures |counts| > 0 && val >= Sum(counts) ==> node == |counts|
  {
    if |counts| == 0 { return val % n; }
    var bounds := Accumulate(counts);
    forall i, j | 0 <= i < j < |bounds| ensures bounds[i] <= bounds[j] {
      FirstIdMonotone(counts, i + 1, j + 1);
    }
    node := BisectRight(bounds, val);
    FirstIdEnd(counts);
    HostOfIsTheRange(counts, n, val, node);
    assert counts[..0] == [];
    if node > 0 { assert bounds[node - 1] == FirstId(counts, node); }
    if node < |counts| {
      FirstIdStep(counts, node);
      assert bounds[node] == FirstId(counts, node + 1);
      FirstIdMonotone(counts, node + 1, |counts|);
    }
  }

  // The checker's host table: each host repeated once per hosted validator.
  method HostTable(counts: seq<nat>) returns (hostOf: seq<int>)
    ensures |hostOf| == Sum(counts)
    ensures forall val :: 0 <= val < |hostOf| ==> Hosts(counts, hostOf[val], val)
  {
    hostOf := [];
    assert counts[..0] == [];
    for host := 0 to |counts|
      invariant |hostOf| == FirstId(counts, host)
      invariant forall val :: 0 <= val < |hostOf| ==> Hosts(counts, hostOf[val], val)
    {
      FirstIdStep(counts, host);
      hostOf := hostOf + seq(counts[host], _ => host);
    }
    FirstIdEnd(counts);
  }

  /** The three rules are one: over every id in range the scan, the search and the table agree. */
  method RulesAgree(counts: seq<nat>, n: int, val: nat) returns (scan: int, search: nat, table: int)
    requires 0 <= val < Sum(counts)
    ensures scan == search == table && Hosts(counts, table, val)
  {
    assert |counts| > 0;
    scan := HostScan(counts, n, val);
    search := NodeOf(counts, 1, val);
    var hostOf := HostTable(counts);
    table := hostOf[val];
    HostOfIsTheRange(counts, n, val, table);
  }
}
