/** The finality position space of schedule/position.go, the duties of schedule/schedule.go and the
    identity resolver of driver/partial.go over one plan. */
module Positions {
  import opened Hosting
  import Arith

  datatype AttesterRef = AttesterRef(node: int, val: int, subnet: int, position: int)
  datatype SlotPlan = SlotPlan(slot: int, committees: seq<seq<AttesterRef>>, subnetOf: seq<int>,
                               finalityAggregators: seq<seq<AttesterRef>>)
  datatype Duty = Duty(subnet: int, val: int, position: int)
  datatype Kind = Attestation | FinalityVote | Other

  // subnetOf and roundOf are indexed by validator; an empty roundOf is base mode, an empty counts
  // is uniform hosting.
  datatype Plan = Plan(n: nat, v: nat, k: nat, subnetOf: seq<nat>, roundOf: seq<nat>,
                       counts: seq<nat>, slots: seq<SlotPlan>)

  predicate Segregated(p: Plan) { |p.roundOf| > 0 }

  // What the generator guarantees of its draws.
  predicate WellFormed(p: Plan) {
    && |p.subnetOf| == p.v
    && (Segregated(p) ==> |p.roundOf| == p.v && p.k >= 1 && forall r <- p.roundOf :: r < p.k)
    && (p.counts != [] ==> Sum(p.counts) == p.v && |p.counts| == p.n)
    && (p.counts == [] ==> p.n >= 1)
  }

  function Rounds(p: Plan): nat { if Segregated(p) then p.k else 1 }

  // The rank-table row a group key selects.
  function RoundOfGroup(p: Plan, group: nat): nat
    requires WellFormed(p)
  {
    if Segregated(p) then group % p.k else 0
  }

  function RoundOfVal(p: Plan, val: nat): nat
    requires WellFormed(p) && val < p.v
  {
    if Segregated(p) then p.roundOf[val] else 0
  }

  lemma RoundsInRange(p: Plan, val: nat, group: nat)
    requires WellFormed(p)
    ensures RoundOfGroup(p, group) < Rounds(p)
    ensures val < p.v ==> RoundOfVal(p, val) < Rounds(p)
  {
    if Segregated(p) && val < p.v { assert p.roundOf[val] in p.roundOf; }
  }

  // ---------------------------------------------------------------- cells and ranks

  predicate InCell(p: Plan, subnet: int, round: int, val: nat)
    requires WellFormed(p) && val < p.v
  {
    p.subnetOf[val] == subnet && RoundOfVal(p, val) == round
  }

  // The validators below `upto` of one (subnet, round) cell, ascending.
  function Cell(p: Plan, subnet: int, round: int, upto: nat): (cell: seq<nat>)
    requires WellFormed(p) && upto <= p.v
    ensures forall val <- cell :: val < upto
  {
    if upto == 0 then []
    else Cell(p, subnet, round, upto - 1)
         + if InCell(p, subnet, round, upto - 1) then [upto - 1] else []
  }

  // A validator's rank within its own cell.
  function Rank(p: Plan, val: nat): nat
    requires WellFormed(p) && val < p.v
  {
    |Cell(p, p.subnetOf[val], RoundOfVal(p, val), val)|
  }

  function WholeCell(p: Plan, subnet: int, group: nat): seq<nat>
    requires WellFormed(p)
  {
    Cell(p, subnet, RoundOfGroup(p, group), p.v)
  }

  lemma {:induction false} CellMembers(p: Plan, subnet: int, round: int, upto: nat, val: nat)
    requires WellFormed(p) && upto <= p.v
    ensures val in Cell(p, subnet, round, upto) <==> val < upto && InCell(p, subnet, round, val)
  {
    if upto > 0 { CellMembers(p, subnet, round, upto - 1, val); }
  }

  predicate Ascending(s: seq<nat>) { forall i, j :: 0 <= i < j < |s| ==> s[i] < s[j] }

  lemma {:induction false} CellAscends(p: Plan, subnet: int, round: int, upto: nat)
    requires WellFormed(p) && upto <= p.v
    ensures Ascending(Cell(p, subnet, round, upto))
  {
    if upto > 0 {
      CellAscends(p, subnet, round, upto - 1);
      var front := Cell(p, subnet, round, upto - 1);
      forall i | 0 <= i < |front| ensures front[i] < upto - 1 { assert front[i] in front; }
    }
  }

  lemma {:induction false} CellPrefix(p: Plan, subnet: int, round: int, m: nat, upto: nat)
    requires WellFormed(p) && m <= upto <= p.v
    ensures Cell(p, subnet, round, m) <= Cell(p, subnet, round, upto)
    decreases upto - m
  {
    if m < upto { CellPrefix(p, subnet, round, m, upto - 1); }
  }

  // The validators below `upto` that share a subnet and, under segregation, a round.
  ghost function Peers(p: Plan, subnet: int, round: int, upto: nat): set<nat>
    requires WellFormed(p) && upto <= p.v
  {
    set w: nat | w < upto && p.subnetOf[w] == subnet && (if |p.roundOf| > 0 then p.roundOf[w] == round else round == 0)
  }

  lemma {:induction false} CellCounts(p: Plan, subnet: int, round: int, upto: nat)
    requires WellFormed(p) && upto <= p.v
    ensures |Cell(p, subnet, round, upto)| == |Peers(p, subnet, round, upto)|
  {
    if upto == 0 {
      assert Peers(p, subnet, round, upto) == {};
    } else {
      CellCounts(p, subnet, round, upto - 1);
      assert Peers(p, subnet, round, upto) ==
        Peers(p, subnet, round, upto - 1) + if InCell(p, subnet, round, upto - 1) then {upto - 1} else {};
    }
  }

  /** A validator's position is the number of lower ids drawn to its subnet and, under segregation,
      to its round. */
  lemma RankCounts(p: Plan, val: nat)
    requires WellFormed(p) && val < p.v
    ensures Rank(p, val) == |Peers(p, p.subnetOf[val], if |p.roundOf| > 0 then p.roundOf[val] else 0, val)|
  {
    CellCounts(p, p.subnetOf[val], RoundOfVal(p, val), val);
  }

  /** val -> position -> val: the validator found at its own rank in its own cell is itself, and the
      rank is below the cell's size (the committee width of the wire bitmaps). */
  lemma RankRoundTrip(p: Plan, val: nat)
    requires WellFormed(p) && val < p.v
    ensures var cell := Cell(p, p.subnetOf[val], RoundOfVal(p, val), p.v);
            Rank(p, val) < |cell| && cell[Rank(p, val)] == val
  {
    var s, r := p.subnetOf[val], RoundOfVal(p, val);
    CellPrefix(p, s, r, val + 1, p.v);
    assert Cell(p, s, r, val + 1) == Cell(p, s, r, val) + [val];
  }

  /** position -> val -> position: every position of a cell is the rank of the validator there. */
  lemma PositionRoundTrip(p: Plan, subnet: int, round: int, position: nat)
    requires WellFormed(p) && position < |Cell(p, subnet, round, p.v)|
    ensures var val := Cell(p, subnet, round, p.v)[position];
            val < p.v && InCell(p, subnet, round, val) && Rank(p, val) == position
  {
    var cell := Cell(p, subnet, round, p.v);
    var val := cell[position];
    assert val in cell;
    CellMembers(p, subnet, round, p.v, val);
    RankRoundTrip(p, val);
    CellAscends(p, subnet, round, p.v);
  }

  /** The cells partition the validators: each lies in exactly the one cell its draws name. */
  lemma CellsPartition(p: Plan, val: nat, subnet: int, round: int)
    requires WellFormed(p) && val < p.v
    ensures val in Cell(p, subnet, round, p.v) <==>
              (subnet == p.subnetOf[val] && round == if |p.roundOf| > 0 then p.roundOf[val] else 0)
  {
    CellMembers(p, subnet, round, p.v, val);
  }

  // The rank tables, built once on first use.
  class RankTables {
    var built: bool
    var cells: seq<seq<seq<nat>>>
    var pos: seq<nat>

    constructor ()
      ensures !built
    {
      built, cells, pos := false, [], [];
    }

    ghost predicate Valid(p: Plan)
      requires WellFormed(p)
      reads this
    {
      built ==>
        && |pos| == p.v
        && (forall val :: 0 <= val < p.v ==> pos[val] == Rank(p, val))
        && (forall val :: 0 <= val < p.v ==> p.subnetOf[val] < |cells|)
        && TablesUpto(p, p.v)
    }

    ghost predicate TablesUpto(p: Plan, upto: nat)
      requires WellFormed(p) && upto <= p.v
      reads this
    {
      forall s :: 0 <= s < |cells| ==>
        && |cells[s]| == Rounds(p)
        && forall r :: 0 <= r < Rounds(p) ==> cells[s][r] == Cell(p, s, r, upto)
    }

    method Ranks(p: Plan)
      requires WellFormed(p) && Valid(p)
      modifies this
      ensures Valid(p) && built
    {
      if built { return; }
      var subnets := 0;
      for i := 0 to p.v
        invariant subnets >= 0
        invariant forall val :: 0 <= val < i ==> p.subnetOf[val] < subnets
      {
        if p.subnetOf[i] + 1 > subnets { subnets := p.subnetOf[i] + 1; }
      }
      cells := seq(subnets, _ => seq(Rounds(p), _ => []));
      pos := [];
      for val := 0 to p.v
        invariant !built
        invariant |pos| == val && forall w :: 0 <= w < val ==> pos[w] == Rank(p, w)
        invariant |cells| == subnets && TablesUpto(p, val)
      {
        var s, round := p.subnetOf[val], RoundOfVal(p, val);
        RoundsInRange(p, val, 0);
        pos := pos + [|cells[s][round]|];
        ghost var before := cells;
        cells := cells[s := cells[s][round := cells[s][round] + [val]]];
        forall t, r | 0 <= t < |cells| && 0 <= r < Rounds(p) ensures cells[t][r] == Cell(p, t, r, val + 1) {
          assert before[t][r] == Cell(p, t, r, val);
        }
      }
      built := true;
    }

    method FinalityPosition(p: Plan, val: int) returns (position: int)
      requires WellFormed(p) && Valid(p)
      modifies this
      ensures Valid(p)
      ensures position == if 0 <= val < p.v then Rank(p, val) else -1
    {
      Ranks(p);
      if val < 0 || val >= |pos| { return -1; }
      return pos[val];
    }

    // -1 outside the cell: in particular for every position of a subnet nobody drew.
    method FinalityValAt(p: Plan, subnet: int, group: nat, position: int) returns (val: int)
      requires WellFormed(p) && Valid(p)
      modifies this
      ensures Valid(p)
      ensures val == ValAt(p, subnet, group, position)
    {
      Ranks(p);
      RoundsInRange(p, 0, group);
      if subnet < 0 || subnet >= |cells| {
        ForeignCellEmpty(p, subnet, RoundOfGroup(p, group), p.v);
        return -1;
      }
      var cell := cells[subnet][RoundOfGroup(p, group)];
      if position < 0 || position >= |cell| { return -1; }
      return cell[position];
    }

    method FinalityCellSize(p: Plan, subnet: int, group: nat) returns (size: nat)
      requires WellFormed(p) && Valid(p)
      modifies this
      ensures Valid(p)
      ensures size == |WholeCell(p, subnet, group)|
    {
      Ranks(p);
      RoundsInRange(p, 0, group);
      if subnet < 0 || subnet >= |cells| {
        ForeignCellEmpty(p, subnet, RoundOfGroup(p, group), p.v);
        return 0;
      }
      return |cells[subnet][RoundOfGroup(p, group)]|;
    }
  }

  lemma {:induction false} ForeignCellEmpty(p: Plan, subnet: int, round: int, upto: nat)
    requires WellFormed(p) && upto <= p.v
    requires forall val :: 0 <= val < upto ==> p.subnetOf[val] != subnet
    ensures Cell(p, subnet, round, upto) == []
  {
    if upto > 0 { ForeignCellEmpty(p, subnet, round, upto - 1); }
  }

  function ValAt(p: Plan, subnet: int, group: nat, position: int): int
    requires WellFormed(p)
  {
    var cell := WholeCell(p, subnet, group);
    if 0 <= position < |cell| then cell[position] else -1
  }

  // ---------------------------------------------------------------- duties

  predicate Votes(p: Plan, val: nat, group: nat)
    requires WellFormed(p) && val < p.v
  {
    RoundOfVal(p, val) == RoundOfGroup(p, group)
  }

  function DutyOf(p: Plan, val: nat): Duty
    requires WellFormed(p) && val < p.v
  {
    Duty(p.subnetOf[val], val, Rank(p, val))
  }

  // The votes of a round owed by the validators below `upto` that `node` hosts, ascending.
  function Duties(p: Plan, node: nat, group: nat, upto: nat): seq<Duty>
    requires WellFormed(p) && upto <= p.v
  {
    if upto == 0 then []
    else Duties(p, node, group, upto - 1)
         + if HostOf(p.counts, p.n, upto - 1) == node && Votes(p, upto - 1, group) then [DutyOf(p, upto - 1)] else []
  }

  lemma {:induction false} DutiesSkip(p: Plan, node: nat, group: nat, lo: nat, hi: nat)
    requires WellFormed(p) && lo <= hi <= p.v
    requires forall val :: lo <= val < hi ==> HostOf(p.counts, p.n, val) != node
    ensures Duties(p, node, group, hi) == Duties(p, node, group, lo)
    decreases hi - lo
  {
    if lo < hi { DutiesSkip(p, node, group, lo, hi - 1); }
  }

  lemma UniformGap(n: nat, node: nat, val: nat, x: nat)
    requires node < n && val % n == node && val < x < val + n
    ensures x % n != node
  {
    var q, r := val / n, x - val;
    if node + r < n {
      assert x == q * n + (node + r);
      ModIs(q, n, node + r, x);
    } else {
      assert (q + 1) * n == q * n + n;
      assert x == (q + 1) * n + (node + r - n);
      ModIs(q + 1, n, node + r - n, x);
    }
  }

  lemma ModIs(q: nat, n: nat, r: nat, x: nat)
    requires r < n && x == q * n + r
    ensures x % n == r
  {
    Arith.QuotientIs(q, n, x);
  }

  // finalityVoteDuties: the contiguous range of ids under counts, every n-th id otherwise.
  method FinalityVoteDuties(p: Plan, node: nat, slot: nat) returns (out: seq<Duty>)
    requires WellFormed(p) && node < p.n
    ensures out == Duties(p, node, slot, p.v)
  {
    out := [];
    if |p.counts| > 0 {
      var start := 0;
      assert p.counts[..0] == [];
      for i := 0 to node
        invariant start == FirstId(p.counts, i)
      {
        FirstIdStep(p.counts, i);
        start := start + p.counts[i];
      }
      FirstIdStep(p.counts, node);
      FirstIdMonotone(p.counts, node + 1, |p.counts|);
      FirstIdEnd(p.counts);
      var end := start + p.counts[node];
      forall val | 0 <= val < p.v ensures HostOf(p.counts, p.n, val) == node <==> start <= val < end {
        HostOfIsTheRange(p.counts, p.n, val, node);
      }
      DutiesSkip(p, node, slot, 0, start);
      for val := start to end
        invariant out == Duties(p, node, slot, val)
      {
        if Votes(p, val, slot) { out := out + [DutyOf(p, val)]; }
      }
      DutiesSkip(p, node, slot, end, p.v);
    } else {
      var val := node;
      forall w | 0 <= w < node && w < p.v ensures HostOf(p.counts, p.n, w) != node { ModIs(0, p.n, w, w); }
      ModIs(0, p.n, node, node);
      DutiesSkip(p, node, slot, 0, if node < p.v then node else p.v);
      while val < p.v
        invariant val % p.n == node && node <= val
        invariant out == Duties(p, node, slot, if val < p.v then val else p.v)
        decreases p.v - val
      {
        if Votes(p, val, slot) { out := out + [DutyOf(p, val)]; }
        var next := val + p.n;
        var stop := if next < p.v then next else p.v;
        forall w | val + 1 <= w < stop ensures HostOf(p.counts, p.n, w) != node { UniformGap(p.n, node, val, w); }
        DutiesSkip(p, node, slot, val + 1, stop);
        StepKeepsResidue(p.n, node, val);
        val := next;
      }
    }
  }

  lemma StepKeepsResidue(n: nat, node: nat, val: nat)
    requires node < n && val % n == node
    ensures (val + n) % n == node
  {
    var q := val / n;
    assert (q + 1) * n == q * n + n;
    ModIs(q + 1, n, node, val + n);
  }

  /** A node owes a vote in a round for exactly the validators it hosts that vote in that round, on
      the drawn subnet and at the drawn cell's rank. */
  lemma {:induction false} DutiesExact(p: Plan, node: nat, group: nat, upto: nat, d: Duty)
    requires WellFormed(p) && upto <= p.v
    ensures d in Duties(p, node, group, upto) <==>
              && 0 <= d.val < upto
              && HostOf(p.counts, p.n, d.val) == node
              && Votes(p, d.val, group)
              && d == DutyOf(p, d.val)
  {
    if upto > 0 { DutiesExact(p, node, group, upto - 1, d); }
  }

  /** The same off the plan's own fields: the round is the drawn one, repeating every k groups, or any
      in base mode; the position counts the lower ids of the cell. */
  lemma DutiesAreDrawn(p: Plan, node: nat, group: nat, d: Duty)
    requires WellFormed(p)
    ensures d in Duties(p, node, group, p.v) <==>
              && 0 <= d.val < p.v
              && HostOf(p.counts, p.n, d.val) == node
              && (|p.roundOf| > 0 ==> p.roundOf[d.val] == group % p.k)
              && d.subnet == p.subnetOf[d.val]
              && d.position == |Peers(p, d.subnet, if |p.roundOf| > 0 then p.roundOf[d.val] else 0, d.val)|
  {
    DutiesExact(p, node, group, p.v, d);
    if 0 <= d.val < p.v { RankCounts(p, d.val); }
  }

  lemma {:induction false} DutiesAscend(p: Plan, node: nat, group: nat, upto: nat)
    requires WellFormed(p) && upto <= p.v
    ensures var ds := Duties(p, node, group, upto);
            forall i, j :: 0 <= i < j < |ds| ==> ds[i].val < ds[j].val
  {
    if upto > 0 {
      DutiesAscend(p, node, group, upto - 1);
      var front, ds := Duties(p, node, group, upto - 1), Duties(p, node, group, upto);
      forall i, j | 0 <= i < j < |ds| ensures ds[i].val < ds[j].val {
        assert ds[i] == front[i] && front[i] in front;
        DutiesExact(p, node, group, upto - 1, front[i]);
      }
    }
  }

  // ---------------------------------------------------------------- conservation of votes

  lemma HostInRange(p: Plan, val: nat)
    requires WellFormed(p) && val < p.v
    ensures 0 <= HostOf(p.counts, p.n, val) < p.n
  {
    if p.counts != [] {
      HostOfIsTheRange(p.counts, p.n, val, 0);
      assert p.counts[..0] == [];
      ScanFinds(p.counts, 0, val);
    }
  }

  // How often `val` occurs among the duties of one node in one round.
  function OwedBy(p: Plan, val: nat, group: nat, node: nat): nat
    requires WellFormed(p) && val < p.v
  {
    multiset(Duties(p, node, group, p.v))[DutyOf(p, val)]
  }

  function SumTo(f: nat -> nat, n: nat): nat {
    if n == 0 then 0 else SumTo(f, n - 1) + f(n - 1)
  }

  lemma {:induction false} SumOfSpike(f: nat -> nat, n: nat, at: int)
    requires forall i: nat :: i < n ==> f(i) == if i == at then 1 else 0
    ensures SumTo(f, n) == if 0 <= at < n then 1 else 0
  {
    if n > 0 { SumOfSpike(f, n - 1, at); }
  }

  // ... and among the duties of all nodes.
  function Owed(p: Plan, val: nat, group: nat): nat
    requires WellFormed(p) && val < p.v
  {
    SumTo(node => OwedBy(p, val, group, node), p.n)
  }

  lemma {:induction false} MultiplicityOfAscending(ds: seq<Duty>, d: Duty)
    requires forall i, j :: 0 <= i < j < |ds| ==> ds[i].val < ds[j].val
    ensures multiset(ds)[d] == if d in ds then 1 else 0
  {
    if ds != [] {
      var front, last := ds[..|ds| - 1], ds[|ds| - 1];
      MultiplicityOfAscending(front, d);
      assert ds == front + [last];
    }
  }

  lemma OwedByNode(p: Plan, val: nat, group: nat, node: nat)
    requires WellFormed(p) && val < p.v
    ensures OwedBy(p, val, group, node) ==
              if Votes(p, val, group) && HostOf(p.counts, p.n, val) == node then 1 else 0
  {
    DutiesAscend(p, node, group, p.v);
    DutiesExact(p, node, group, p.v, DutyOf(p, val));
    MultiplicityOfAscending(Duties(p, node, group, p.v), DutyOf(p, val));
  }

  /** Over all nodes each validator votes exactly once in every round of base mode, and under
      segregation exactly once in its own round and never in another. */
  lemma OneVotePerRound(p: Plan, val: nat, group: nat)
    requires WellFormed(p) && val < p.v
    ensures Owed(p, val, group) == if Votes(p, val, group) then 1 else 0
    ensures Votes(p, val, group) <==> (|p.roundOf| > 0 ==> p.roundOf[val] == group % p.k)
  {
    HostInRange(p, val);
    var f: nat -> nat := node => OwedBy(p, val, group, node);
    var at := if Votes(p, val, group) then HostOf(p.counts, p.n, val) else -1;
    forall node: nat | node < p.n ensures f(node) == if node == at then 1 else 0 {
      OwedByNode(p, val, group, node);
    }
    SumOfSpike(f, p.n, at);
  }

  // The votes owed for `val` in the rounds first, first + 1, ..., first + count - 1.
  function OwedOver(p: Plan, val: nat, first: nat, count: nat): nat
    requires WellFormed(p) && val < p.v
  {
    SumTo(i => Owed(p, val, first + i), count)
  }

  // The offset of the first round at or after `first` that is congruent to r.
  function Offset(k: nat, r: nat, first: nat): nat
    requires r < k
  {
    if first % k <= r then r - first % k else r + k - first % k
  }

  lemma HitsAtOffset(k: nat, r: nat, first: nat, i: nat)
    requires r < k && i < k
    ensures (first + i) % k == r <==> i == Offset(k, r, first)
  {
    var q, m := first / k, first % k;
    assert first == q * k + m;
    assert (q + 1) * k == q * k + k;
    if m + i < k { ModIs(q, k, m + i, first + i); }
    else { ModIs(q + 1, k, m + i - k, first + i); }
  }

  /** Any k consecutive segregated rounds hold exactly one vote of every validator. */
  lemma OneVotePerCycle(p: Plan, val: nat, first: nat)
    requires WellFormed(p) && Segregated(p) && val < p.v
    ensures OwedOver(p, val, first, p.k) == 1
  {
    RoundsInRange(p, val, 0);
    var r := RoundOfVal(p, val);
    var f: nat -> nat := i => Owed(p, val, first + i);
    var at := Offset(p.k, r, first);
    forall i: nat | i < p.k ensures f(i) == if i == at then 1 else 0 {
      OneVotePerRound(p, val, first + i);
      HitsAtOffset(p.k, r, first, i);
    }
    SumOfSpike(f, p.k, at);
  }

  // ---------------------------------------------------------------- cell counts

  // validators_per_subnet and validators_per_round_subnet as the generator counts them.
  method CountCells(p: Plan, subnets: nat) returns (perSubnet: seq<nat>, perRound: seq<seq<nat>>)
    requires WellFormed(p) && forall s <- p.subnetOf :: s < subnets
    ensures |perSubnet| == subnets && |perRound| == Rounds(p)
    ensures forall r :: 0 <= r < Rounds(p) ==> |perRound[r]| == subnets
    ensures forall r, s :: 0 <= r < Rounds(p) && 0 <= s < subnets ==> perRound[r][s] == |Peers(p, s, r, p.v)|
    ensures forall s :: 0 <= s < subnets ==> perSubnet[s] == |set w: nat | w < p.v && p.subnetOf[w] == s|
  {
    perSubnet := seq(subnets, _ => 0);
    perRound := seq(Rounds(p), _ => seq(subnets, _ => 0));
    for val := 0 to p.v
      invariant |perSubnet| == subnets && |perRound| == Rounds(p)
      invariant forall r :: 0 <= r < Rounds(p) ==> |perRound[r]| == subnets
      invariant forall r, s :: 0 <= r < Rounds(p) && 0 <= s < subnets ==> perRound[r][s] == |Cell(p, s, r, val)|
      invariant forall s :: 0 <= s < subnets ==> perSubnet[s] == InSubnet(p, s, val)
    {
      var s, r := p.subnetOf[val], RoundOfVal(p, val);
      RoundsInRange(p, val, 0);
      assert s in p.subnetOf;
      ghost var before := perRound;
      perSubnet := perSubnet[s := perSubnet[s] + 1];
      perRound := perRound[r := perRound[r][s := perRound[r][s] + 1]];
      forall r', s' | 0 <= r' < Rounds(p) && 0 <= s' < subnets
        ensures perRound[r'][s'] == |Cell(p, s', r', val + 1)|
      {
        assert before[r'][s'] == |Cell(p, s', r', val)|;
      }
    }
    forall r, s | 0 <= r < Rounds(p) && 0 <= s < subnets ensures perRound[r][s] == |Peers(p, s, r, p.v)| {
      CellCounts(p, s, r, p.v);
    }
    forall s | 0 <= s < subnets ensures perSubnet[s] == |set w: nat | w < p.v && p.subnetOf[w] == s| {
      InSubnetCounts(p, s, p.v);
    }
  }

  lemma {:induction false} InSubnetCounts(p: Plan, subnet: int, upto: nat)
    requires WellFormed(p) && upto <= p.v
    ensures InSubnet(p, subnet, upto) == |set w: nat | w < upto && p.subnetOf[w] == subnet|
  {
    if upto > 0 {
      InSubnetCounts(p, subnet, upto - 1);
      assert (set w: nat | w < upto && p.subnetOf[w] == subnet) ==
        (set w: nat | w < upto - 1 && p.subnetOf[w] == subnet) + if p.subnetOf[upto - 1] == subnet then {upto - 1} else {};
    }
  }

  function InSubnet(p: Plan, subnet: int, upto: nat): nat
    requires WellFormed(p) && upto <= p.v
  {
    if upto == 0 then 0 else InSubnet(p, subnet, upto - 1) + if p.subnetOf[upto - 1] == subnet then 1 else 0
  }

  function OverRounds(p: Plan, subnet: int, rounds: nat, upto: nat): nat
    requires WellFormed(p) && upto <= p.v
  {
    if rounds == 0 then 0 else OverRounds(p, subnet, rounds - 1, upto) + |Cell(p, subnet, rounds - 1, upto)|
  }

  function OverSubnets(p: Plan, subnets: nat, upto: nat): nat
    requires WellFormed(p) && upto <= p.v
  {
    if subnets == 0 then 0 else OverSubnets(p, subnets - 1, upto) + InSubnet(p, subnets - 1, upto)
  }

  lemma {:induction false} RoundsStep(p: Plan, subnet: int, rounds: nat, upto: nat)
    requires WellFormed(p) && 0 < upto <= p.v
    ensures OverRounds(p, subnet, rounds, upto) == OverRounds(p, subnet, rounds, upto - 1)
              + if p.subnetOf[upto - 1] == subnet && RoundOfVal(p, upto - 1) < rounds then 1 else 0
  {
    if rounds > 0 { RoundsStep(p, subnet, rounds - 1, upto); }
  }

  lemma {:induction false} RoundsZero(p: Plan, subnet: int, rounds: nat)
    requires WellFormed(p)
    ensures OverRounds(p, subnet, rounds, 0) == 0
  {
    if rounds > 0 { RoundsZero(p, subnet, rounds - 1); }
  }

  /** The round cells of a subnet sum to the subnet's own count. */
  lemma {:induction false} CellsSumToSubnet(p: Plan, subnet: int, upto: nat)
    requires WellFormed(p) && upto <= p.v
    ensures OverRounds(p, subnet, Rounds(p), upto) == InSubnet(p, subnet, upto)
  {
    if upto == 0 {
      RoundsZero(p, subnet, Rounds(p));
    } else {
      CellsSumToSubnet(p, subnet, upto - 1);
      RoundsStep(p, subnet, Rounds(p), upto);
      RoundsInRange(p, upto - 1, 0);
    }
  }

  lemma {:induction false} SubnetsStep(p: Plan, subnets: nat, upto: nat)
    requires WellFormed(p) && 0 < upto <= p.v
    ensures OverSubnets(p, subnets, upto) == OverSubnets(p, subnets, upto - 1)
              + if p.subnetOf[upto - 1] < subnets then 1 else 0
  {
    if subnets > 0 { SubnetsStep(p, subnets - 1, upto); }
  }

  lemma {:induction false} SubnetsZero(p: Plan, subnets: nat)
    requires WellFormed(p)
    ensures OverSubnets(p, subnets, 0) == 0
  {
    if subnets > 0 { SubnetsZero(p, subnets - 1); }
  }

  /** The subnet counts sum to the number of validators. */
  lemma {:induction false} SubnetsSumToAll(p: Plan, subnets: nat, upto: nat)
    requires WellFormed(p) && upto <= p.v && forall s <- p.subnetOf :: s < subnets
    ensures OverSubnets(p, subnets, upto) == upto
  {
    if upto == 0 {
      SubnetsZero(p, subnets);
    } else {
      SubnetsSumToAll(p, subnets, upto - 1);
      SubnetsStep(p, subnets, upto);
      assert p.subnetOf[upto - 1] in p.subnetOf;
    }
  }

  // ---------------------------------------------------------------- the identity resolver

  function IndexOf(xs: seq<int>, x: int): (i: int)
    ensures -1 <= i < |xs|
    ensures i >= 0 ==> xs[i] == x && forall j :: 0 <= j < i ==> xs[j] != x
    ensures i == -1 ==> x !in xs
  {
    if xs == [] then -1
    else if xs[0] == x then 0
    else var rest := IndexOf(xs[1..], x); if rest < 0 then -1 else rest + 1
  }

  function Committee(p: Plan, subnet: int, group: int): seq<AttesterRef> {
    if group < 0 || group >= |p.slots| then []
    else
      var ci := IndexOf(p.slots[group].subnetOf, subnet);
      if ci < 0 || ci >= |p.slots[group].committees| then [] else p.slots[group].committees[ci]
  }

  function CommitteeSize(p: Plan, kind: Kind, subnet: int, group: nat): nat
    requires WellFormed(p)
  {
    match kind
    case Attestation => |Committee(p, subnet, group)|
    case FinalityVote => |WholeCell(p, subnet, group)|
    case Other => 0
  }

  function SeatAt(refs: seq<AttesterRef>, position: int): (int, int) {
    if refs == [] then (-1, -1)
    else if refs[0].position == position then (refs[0].val, refs[0].node)
    else SeatAt(refs[1..], position)
  }

  // Which validator a wire position names, and on which node: -1, -1 when it names none.
  function Identity(p: Plan, kind: Kind, subnet: int, group: nat, position: int): (int, int)
    requires WellFormed(p)
  {
    match kind
    case Attestation => SeatAt(Committee(p, subnet, group), position)
    case FinalityVote =>
      var val := ValAt(p, subnet, group, position);
      if val >= 0 then (val, HostOf(p.counts, p.n, val)) else (-1, -1)
    case Other => (-1, -1)
  }

  /** A finality vote decodes to its publisher: for every duty of `node` in round `group`, in both
      modes, the resolver recovers exactly that validator and that node from the wire position, and
      the position fits the bitmap width both sides use. */
  lemma FinalityIdentityAgrees(p: Plan, node: nat, group: nat, d: Duty)
    requires WellFormed(p) && d in Duties(p, node, group, p.v)
    ensures Identity(p, FinalityVote, d.subnet, group, d.position) == (d.val, node)
    ensures 0 <= d.position < CommitteeSize(p, FinalityVote, d.subnet, group)
  {
    DutiesExact(p, node, group, p.v, d);
    RankRoundTrip(p, d.val);
  }

  /** The resolver is injective on a cell and total on it: every position below the width names a
      hosted validator of the round, at that position. */
  lemma FinalityIdentityOnto(p: Plan, subnet: int, group: nat, position: nat)
    requires WellFormed(p) && position < CommitteeSize(p, FinalityVote, subnet, group)
    ensures var (val, node) := Identity(p, FinalityVote, subnet, group, position);
            && 0 <= val < p.v && 0 <= node < p.n
            && Duty(subnet, val, position) in Duties(p, node, group, p.v)
  {
    PositionRoundTrip(p, subnet, RoundOfGroup(p, group), position);
    var (val, node) := Identity(p, FinalityVote, subnet, group, position);
    HostInRange(p, val);
    DutiesExact(p, node, group, p.v, Duty(subnet, val, position));
  }

  // A committee draw as the generator lays it out: one committee per subnet, seats numbered in order.
  predicate WellDrawn(sp: SlotPlan) {
    && |sp.committees| == |sp.subnetOf|
    && (forall i, j :: 0 <= i < j < |sp.subnetOf| ==> sp.subnetOf[i] != sp.subnetOf[j])
    && forall c :: 0 <= c < |sp.committees| ==> forall i :: 0 <= i < |sp.committees[c]| ==>
         sp.committees[c][i].position == i && sp.committees[c][i].subnet == sp.subnetOf[c]
  }

  lemma {:induction false} SeatFound(refs: seq<AttesterRef>, base: int, i: nat)
    requires i < |refs| && forall j :: 0 <= j < |refs| ==> refs[j].position == base + j
    ensures SeatAt(refs, base + i) == (refs[i].val, refs[i].node)
  {
    if i > 0 { SeatFound(refs[1..], base + 1, i - 1); }
  }

  lemma {:induction false} NoSeat(refs: seq<AttesterRef>, position: int)
    requires forall r <- refs :: r.position != position
    ensures SeatAt(refs, position) == (-1, -1)
  {
    if refs != [] {
      assert refs[0] in refs;
      NoSeat(refs[1..], position);
    }
  }

  /** Nothing else names anyone: a finality position outside the width, a committee position no seat
      has, an unknown subnet or slot, and every other kind give -1, -1. */
  lemma OtherwiseNobody(p: Plan, kind: Kind, subnet: int, group: nat, position: int)
    requires WellFormed(p)
    requires match kind
             case FinalityVote => position < 0 || position >= CommitteeSize(p, FinalityVote, subnet, group)
             case Attestation => group < |p.slots| ==>
               forall c :: 0 <= c < |p.slots[group].committees| && c < |p.slots[group].subnetOf| && p.slots[group].subnetOf[c] == subnet ==>
                 forall r <- p.slots[group].committees[c] :: r.position != position
             case Other => true
    ensures Identity(p, kind, subnet, group, position) == (-1, -1)
  {
    if kind.Attestation? { NoSeat(Committee(p, subnet, group), position); }
  }

  /** The same for a committee seat: its position on its subnet recovers its validator and node. */
  lemma AttestationIdentityAgrees(p: Plan, slot: nat, c: nat, i: nat)
    requires WellFormed(p) && slot < |p.slots| && WellDrawn(p.slots[slot])
    requires c < |p.slots[slot].committees| && i < |p.slots[slot].committees[c]|
    ensures var ref := p.slots[slot].committees[c][i];
            && Identity(p, Attestation, ref.subnet, slot, ref.position) == (ref.val, ref.node)
            && 0 <= ref.position < CommitteeSize(p, Attestation, ref.subnet, slot) == |p.slots[slot].committees[c]|
  {
    var sp := p.slots[slot];
    assert IndexOf(sp.subnetOf, sp.subnetOf[c]) == c;
    SeatFound(sp.committees[c], 0, i);
  }
}
