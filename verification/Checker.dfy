/** The arrival checkers of analysis/check_arrivals.py: each decides "every expected receiver got
    every message exactly once" from counts, a missing list, a duplicate list and a leak list. */
module Checker {
  import Positions
  import FinalityAggregates

  // Published events keyed by identity, and arrivals; times and the voted flag play no part in ok.
  datatype PubKey = PubKey(kind: int, slot: int, subnet: int, attester: int, origin: int)
  datatype Arrival = Arrival(node: nat, kind: int, slot: int, subnet: int, attester: int, origin: int)

  // A receipt: which node got which message.
  type Receipt<M> = (nat, M)

  function Without(nodes: set<nat>, x: int): set<nat> { set n | n in nodes && n != x }

  datatype Report<M(==)> = Report(arrivals: nat, expected: int, missing: seq<Receipt<M>>,
                              leaked: seq<Receipt<M>>, duplicates: set<Receipt<M>>)
  {
    predicate Ok() { missing == [] && leaked == [] && duplicates == {} && arrivals == expected }
  }

  // ---------------------------------------------------------------- counting decides exactness

  function Expected<M>(messages: set<M>, receivers: M -> set<nat>): set<Receipt<M>> {
    set m, n | m in messages && n in receivers(m) :: (n, m)
  }

  // Every expected receipt happened once and nothing else did.
  predicate Exact<K(==)>(arrivals: seq<K>, expected: set<K>) {
    multiset(arrivals) == multiset(expected)
  }

  function Repeated<K(==)>(arrivals: seq<K>): set<K> {
    set k | k in arrivals && multiset(arrivals)[k] > 1
  }

  lemma CardOfOnce<K>(arrivals: seq<K>)
    requires forall k <- arrivals :: multiset(arrivals)[k] <= 1
    ensures |set k | k in arrivals| == |arrivals|
    ensures multiset(arrivals) == multiset(set k | k in arrivals)
  {
    var keys := set k | k in arrivals;
    assert multiset(arrivals) == multiset(keys) by {
      forall k ensures multiset(arrivals)[k] == multiset(keys)[k] { }
    }
    assert |multiset(arrivals)| == |arrivals| && |multiset(keys)| == |keys|;
  }

  lemma SubsetOfSameCard<K>(a: set<K>, b: set<K>)
    requires a <= b && |a| == |b|
    ensures a == b
  {
    assert b == a + (b - a);
  }

  /** With nothing expected missing and nothing repeated, the bare totals agree exactly when the
      arrivals are the expected receipts, each once. */
  lemma CountingDecides<K>(arrivals: seq<K>, expected: set<K>)
    ensures ((forall k <- expected :: k in arrivals) && Repeated(arrivals) == {} && |arrivals| == |expected|)
            <==> Exact(arrivals, expected)
  {
    var keys := set k | k in arrivals;
    if (forall k <- expected :: k in arrivals) && Repeated(arrivals) == {} && |arrivals| == |expected| {
      forall k | k in arrivals ensures multiset(arrivals)[k] <= 1 { assert k !in Repeated(arrivals); }
      CardOfOnce(arrivals);
      SubsetOfSameCard(expected, keys);
    }
    if Exact(arrivals, expected) {
      assert |multiset(arrivals)| == |arrivals| && |multiset(expected)| == |expected|;
      forall k | k in expected ensures k in arrivals { assert k in multiset(arrivals); }
      forall k ensures k !in Repeated(arrivals) { assert multiset(expected)[k] <= 1; }
    }
  }

  lemma ExactPointwise<K(!new)>(arrivals: seq<K>, want: set<K>, right: K -> bool)
    requires forall k :: right(k) <==> multiset(arrivals)[k] == if k in want then 1 else 0
    ensures Exact(arrivals, want) <==> forall k :: right(k)
  {
    forall k ensures multiset(want)[k] == if k in want then 1 else 0 { }
  }

  // ---------------------------------------------------------------- the loop the checkers share

  function Pairs<M(==)>(nodes: set<nat>, m: M): set<Receipt<M>> { set n | n in nodes :: (n, m) }

  lemma {:induction false} PairCard<M>(nodes: set<nat>, m: M)
    ensures |Pairs(nodes, m)| == |nodes|
    decreases |nodes|
  {
    if x :| x in nodes {
      PairCard(nodes - {x}, m);
      assert Pairs(nodes, m) == Pairs(nodes - {x}, m) + {(x, m)};
    } else {
      assert nodes == {};
    }
  }

  lemma ExpectedStep<M>(done: set<M>, m: M, receivers: M -> set<nat>)
    requires m !in done
    ensures forall r :: r in Expected(done + {m}, receivers) <==>
                          (r in Expected(done, receivers) || (r.1 == m && r.0 in receivers(m)))
    ensures |Expected(done + {m}, receivers)| == |Expected(done, receivers)| + |receivers(m)|
  {
    var rest, one := Expected(done, receivers), Pairs(receivers(m), m);
    assert Expected(done + {m}, receivers) == rest + one;
    assert rest !! one;
    PairCard(receivers(m), m);
  }

  // One message: every candidate receiver but the excluded one is expected, and missing when the
  // message has not arrived there.
  method CoverOne<M(==)>(m: M, candidates: set<nat>, exclude: int, received: Receipt<M> -> bool)
    returns (expected: nat, missing: seq<Receipt<M>>)
    ensures expected == |Without(candidates, exclude)|
    ensures forall r :: r in missing <==> r.1 == m && r.0 in Without(candidates, exclude) && !received(r)
  {
    expected, missing := 0, [];
    var nodes := candidates;
    ghost var seen: set<nat> := {};
    while nodes != {}
      invariant nodes <= candidates && seen == Without(candidates - nodes, exclude)
      invariant expected == |seen|
      invariant forall r :: r in missing <==> r.1 == m && r.0 in seen && !received(r)
      decreases nodes
    {
      var node :| node in nodes;
      nodes := nodes - {node};
      if node == exclude { continue; }
      seen := seen + {node};
      expected := expected + 1;
      if !received((node, m)) { missing := missing + [(node, m)]; }
    }
    assert seen == Without(candidates, exclude);
  }

  // The double loop of every checker: all expected receipts counted, those not received listed.
  method Cover<M(==)>(messages: set<M>, candidates: M -> set<nat>, exclude: M -> int, received: Receipt<M> -> bool,
                      ghost receivers: M -> set<nat>)
    returns (expected: nat, missing: seq<Receipt<M>>)
    requires forall m :: receivers(m) == Without(candidates(m), exclude(m))
    ensures expected == |Expected(messages, receivers)|
    ensures forall r :: r in missing <==> r in Expected(messages, receivers) && !received(r)
  {
    expected, missing := 0, [];
    var todo := messages;
    ghost var done: set<M> := {};
    while todo != {}
      invariant done == messages - todo && todo <= messages
      invariant expected == |Expected(done, receivers)|
      invariant forall r :: r in missing <==> r in Expected(done, receivers) && !received(r)
      decreases todo
    {
      var m :| m in todo;
      todo := todo - {m};
      var here, absent := CoverOne(m, candidates(m), exclude(m), received);
      expected, missing := expected + here, missing + absent;
      ExpectedStep(done, m, receivers);
      done := done + {m};
    }
    assert done == messages;
  }

  /** The verdict every checker draws from its counts. */
  lemma VerdictIsExact<M>(report: Report<M>, arrivals: seq<Receipt<M>>, want: set<Receipt<M>>)
    requires report.arrivals == |arrivals| && report.expected == |want|
    requires forall r :: r in report.missing <==> r in want && r !in arrivals
    requires report.duplicates == Repeated(arrivals)
    ensures (report.missing == [] && report.duplicates == {} && report.arrivals == report.expected) <==>
              Exact(arrivals, want)
    ensures (forall r <- report.leaked :: r in arrivals && r !in want) ==> (report.Ok() <==> Exact(arrivals, want))
  {
    CountingDecides(arrivals, want);
    NoneMissing(report.missing, want, arrivals);
    if (forall r <- report.leaked :: r in arrivals && r !in want) && Exact(arrivals, want) {
      NoLeak(arrivals, want, report.leaked);
    }
  }

  lemma NoneMissing<K>(missing: seq<K>, want: set<K>, arrivals: seq<K>)
    requires forall r :: r in missing <==> r in want && r !in arrivals
    ensures missing == [] <==> forall k <- want :: k in arrivals
  {
    if missing != [] { assert missing[0] in missing; }
  }

  lemma ArrivedIsWanted<K>(arrivals: seq<K>, want: set<K>, k: K)
    requires Exact(arrivals, want)
    ensures k in arrivals ==> k in want
  {
    assert k in multiset(arrivals) <==> k in multiset(want);
  }

  // What arrived exactly as expected cannot be in a list of arrivals that were not expected.
  lemma NoLeak<K>(arrivals: seq<K>, want: set<K>, leaked: seq<K>)
    requires Exact(arrivals, want)
    requires forall r <- leaked :: r in arrivals && r !in want
    ensures leaked == []
  {
    if leaked != [] { ArrivedIsWanted(arrivals, want, leaked[0]); }
  }

  // ---------------------------------------------------------------- blocks

  type BlockMsg = (int, int)   // slot, origin

  function BlockPubs(pubs: set<PubKey>, kind: int): set<BlockMsg> {
    set k | k in pubs && k.kind == kind :: (k.slot, k.origin)
  }

  function BlockArrivals(arrs: seq<Arrival>, kind: int): seq<Receipt<BlockMsg>> {
    if arrs == [] then []
    else
      var a := arrs[|arrs| - 1];
      BlockArrivals(arrs[..|arrs| - 1], kind) + if a.kind == kind then [(a.node, (a.slot, a.origin))] else []
  }

  function ToOthers(nodes: set<nat>): BlockMsg -> set<nat> { (m: BlockMsg) => Without(nodes, m.1) }

  lemma MulStep(a: int, b: int)
    ensures a * b == (a - 1) * b + b
  {
  }

  // The total the block check computes never exceeds the true one, and equals it iff every origin
  // is one of the nodes.
  lemma {:induction false} BlockTotal(pubs: set<BlockMsg>, nodes: set<nat>, each: int)
    requires each == |nodes| - 1
    ensures |Expected(pubs, ToOthers(nodes))| >= |pubs| * each
    ensures |Expected(pubs, ToOthers(nodes))| == |pubs| * each <==> forall m <- pubs :: m.1 in nodes
    decreases |pubs|
  {
    if m :| m in pubs {
      BlockTotal(pubs - {m}, nodes, each);
      ExpectedStep(pubs - {m}, m, ToOthers(nodes));
      assert pubs - {m} + {m} == pubs;
      OthersCard(m, nodes);
      MulStep(|pubs|, each);
    } else {
      assert Expected(pubs, ToOthers(nodes)) == {};
    }
  }

  lemma OthersCard(m: BlockMsg, nodes: set<nat>)
    ensures |ToOthers(nodes)(m)| == if m.1 in nodes then |nodes| - 1 else |nodes|
  {
    if m.1 in nodes {
      assert nodes == Without(nodes, m.1) + {m.1};
    } else {
      assert Without(nodes, m.1) == nodes;
    }
  }

  predicate IsReception(a: Arrival, kind: int, r: Receipt<BlockMsg>) {
    a.kind == kind && a.node == r.0 && a.slot == r.1.0 && a.origin == r.1.1
  }

  ghost function ReceptionsAt(arrs: seq<Arrival>, kind: int, r: Receipt<BlockMsg>): set<int> {
    set i | 0 <= i < |arrs| && IsReception(arrs[i], kind, r)
  }

  // How often a node got the block of a slot and origin, whatever else the log says of it.
  ghost function Receptions(arrs: seq<Arrival>, kind: int, r: Receipt<BlockMsg>): nat { |ReceptionsAt(arrs, kind, r)| }

  ghost predicate BlockPublished(pubs: set<PubKey>, kind: int, slot: int, origin: int) {
    exists k <- pubs :: k.kind == kind && k.slot == slot && k.origin == origin
  }

  // What the block check asks of one node and one block: once where it is due, else never.
  ghost predicate BlockRight(pubs: set<PubKey>, arrs: seq<Arrival>, nodes: set<nat>, kind: int, r: Receipt<BlockMsg>) {
    Receptions(arrs, kind, r) == if BlockPublished(pubs, kind, r.1.0, r.1.1) && r.0 in nodes && r.0 != r.1.1 then 1 else 0
  }

  lemma ReceptionsStep(front: seq<Arrival>, a: Arrival, kind: int, r: Receipt<BlockMsg>)
    ensures Receptions(front + [a], kind, r) == Receptions(front, kind, r) + if IsReception(a, kind, r) then 1 else 0
  {
    var all, some := ReceptionsAt(front + [a], kind, r), ReceptionsAt(front, kind, r);
    assert |front| !in some;
    assert all == some + if IsReception(a, kind, r) then {|front|} else {};
  }

  lemma {:induction false} ReceptionsCount(arrs: seq<Arrival>, kind: int, r: Receipt<BlockMsg>)
    ensures multiset(BlockArrivals(arrs, kind))[r] == Receptions(arrs, kind, r)
  {
    if arrs != [] {
      var front, a := arrs[..|arrs| - 1], arrs[|arrs| - 1];
      ReceptionsCount(front, kind, r);
      assert arrs == front + [a];
      ReceptionsStep(front, a, kind, r);
    }
  }

  lemma BlocksPointwise(pubs: set<PubKey>, arrs: seq<Arrival>, nodes: set<nat>, kind: int)
    ensures Exact(BlockArrivals(arrs, kind), Expected(BlockPubs(pubs, kind), ToOthers(nodes))) <==>
            forall r: Receipt<BlockMsg> :: BlockRight(pubs, arrs, nodes, kind, r)
  {
    var got, want := BlockArrivals(arrs, kind), Expected(BlockPubs(pubs, kind), ToOthers(nodes));
    forall r: Receipt<BlockMsg>
      ensures BlockRight(pubs, arrs, nodes, kind, r) <==> multiset(got)[r] == if r in want then 1 else 0
    {
      ReceptionsCount(arrs, kind, r);
      BlockIsWanted(pubs, nodes, kind, r);
    }
    ExactPointwise(got, want, r => BlockRight(pubs, arrs, nodes, kind, r));
  }

  lemma BlockIsWanted(pubs: set<PubKey>, nodes: set<nat>, kind: int, r: Receipt<BlockMsg>)
    ensures r in Expected(BlockPubs(pubs, kind), ToOthers(nodes)) <==>
            BlockPublished(pubs, kind, r.1.0, r.1.1) && r.0 in nodes && r.0 != r.1.1
  {
    assert r.1 in BlockPubs(pubs, kind) <==> BlockPublished(pubs, kind, r.1.0, r.1.1);
    assert r in Expected(BlockPubs(pubs, kind), ToOthers(nodes)) <==> r.1 in BlockPubs(pubs, kind) && r.0 in ToOthers(nodes)(r.1);
  }

  /** The block check passes iff every published block reached every node but its origin exactly
      once, nothing else arrived, and every origin is one of the nodes.  The last is a condition of
      the check itself: its total assumes it, so one foreign origin fails a perfect delivery. */
  method Analyze(pubs: set<PubKey>, arrs: seq<Arrival>, nodes: set<nat>, kind: int)
    returns (report: Report<BlockMsg>)
    ensures report.Ok() <==>
              && (forall r: Receipt<BlockMsg> :: BlockRight(pubs, arrs, nodes, kind, r))
              && forall k <- pubs :: k.kind == kind ==> k.origin in nodes
    ensures forall r: Receipt<BlockMsg> :: r in report.missing <==>
              BlockPublished(pubs, kind, r.1.0, r.1.1) && r.0 in nodes && r.0 != r.1.1 && Receptions(arrs, kind, r) == 0
  {
    var blockPubs := BlockPubs(pubs, kind);
    var blockArrs := BlockArrivals(arrs, kind);
    var total, missing := Cover(blockPubs, (m: BlockMsg) => nodes, (m: BlockMsg) => m.1,
                                (r: Receipt<BlockMsg>) => r in blockArrs, ToOthers(nodes));
    var expected := |blockPubs| * (|nodes| - 1);
    report := Report(|blockArrs|, expected, missing, [], Repeated(blockArrs));
    ghost var want := Expected(blockPubs, ToOthers(nodes));
    BlockTotal(blockPubs, nodes, |nodes| - 1);
    VerdictIsExact(report.(expected := total), blockArrs, want);
    NoneMissing(missing, want, blockArrs);
    if report.Ok() { AllArrivedOnce(blockArrs, want); }
    BlocksPointwise(pubs, arrs, nodes, kind);
    forall k <- pubs | k.kind == kind ensures (k.slot, k.origin) in blockPubs { }
    forall r: Receipt<BlockMsg>
      ensures r in report.missing <==>
                BlockPublished(pubs, kind, r.1.0, r.1.1) && r.0 in nodes && r.0 != r.1.1 && Receptions(arrs, kind, r) == 0
    {
      ReceptionsCount(arrs, kind, r);
      BlockIsWanted(pubs, nodes, kind, r);
      assert r in blockArrs <==> multiset(blockArrs)[r] > 0;
    }
  }

  /** One foreign origin fails a perfect delivery: node 9's block reaches nodes 0 and 1 once each, and
      the check counts two arrivals against a total of one. */
  lemma ForeignOriginFails()
    ensures var nodes, pubs := {0, 1}, {PubKey(0, 0, 0, 0, 9)};
            var arrs := [Arrival(0, 0, 0, 0, 0, 9), Arrival(1, 0, 0, 0, 0, 9)];
            && (forall r: Receipt<BlockMsg> :: BlockRight(pubs, arrs, nodes, 0, r))
            && (0, 9) in BlockPubs(pubs, 0) && 9 !in nodes
            && |BlockArrivals(arrs, 0)| != |BlockPubs(pubs, 0)| * (|nodes| - 1)
  {
    var nodes, pubs := {0, 1}, {PubKey(0, 0, 0, 0, 9)};
    var arrs := [Arrival(0, 0, 0, 0, 0, 9), Arrival(1, 0, 0, 0, 0, 9)];
    assert arrs[..1] == [Arrival(0, 0, 0, 0, 0, 9)] && arrs[..1][..0] == [];
    assert BlockArrivals(arrs[..1], 0) == [(0, (0, 9))];
    assert BlockArrivals(arrs, 0) == [(0, (0, 9)), (1, (0, 9))];
    assert PubKey(0, 0, 0, 0, 9) in pubs;
    assert BlockPubs(pubs, 0) == {(0, 9)};
    assert Without(nodes, 9) == nodes;
    assert Expected(BlockPubs(pubs, 0), ToOthers(nodes)) == {(0, (0, 9)), (1, (0, 9))};
    assert |nodes| == 2;
    BlocksPointwise(pubs, arrs, nodes, 0);
  }

  lemma AllArrivedOnce<K>(arrivals: seq<K>, want: set<K>)
    requires (forall k <- want :: k in arrivals) && Repeated(arrivals) == {}
    ensures |want| <= |arrivals|
  {
    var keys := set k | k in arrivals;
    forall k | k in arrivals ensures multiset(arrivals)[k] <= 1 { assert k !in Repeated(arrivals); }
    CardOfOnce(arrivals);
    assert keys == want + (keys - want);
  }

  // ---------------------------------------------------------------- attestations and columns

  type VoteMsg = (int, int, int, int)   // slot, subnet, attester, origin; attester -1 for a column

  function VotePubs(pubs: set<PubKey>, kind: int): set<VoteMsg> {
    set k | k in pubs && k.kind == kind :: (k.slot, k.subnet, k.attester, k.origin)
  }

  function VoteArrivals(arrs: seq<Arrival>, kind: int): seq<Receipt<VoteMsg>> {
    if arrs == [] then []
    else
      var a := arrs[|arrs| - 1];
      VoteArrivals(arrs[..|arrs| - 1], kind)
      + if a.kind == kind then [(a.node, (a.slot, a.subnet, a.attester, a.origin))] else []
  }

  // The log line of a receipt, and whether its message was published.
  function LineOf(kind: int, r: Receipt<VoteMsg>): Arrival { Arrival(r.0, kind, r.1.0, r.1.1, r.1.2, r.1.3) }

  predicate Published(pubs: set<PubKey>, a: Arrival) { PubKey(a.kind, a.slot, a.subnet, a.attester, a.origin) in pubs }

  lemma {:induction false} LineCount(arrs: seq<Arrival>, kind: int, r: Receipt<VoteMsg>)
    ensures multiset(VoteArrivals(arrs, kind))[r] == multiset(arrs)[LineOf(kind, r)]
  {
    if arrs != [] {
      var front, a := arrs[..|arrs| - 1], arrs[|arrs| - 1];
      LineCount(front, kind, r);
      assert arrs == front + [a];
    }
  }

  lemma LinePublished(pubs: set<PubKey>, kind: int, r: Receipt<VoteMsg>)
    ensures r.1 in VotePubs(pubs, kind) <==> Published(pubs, LineOf(kind, r))
  {
    var a := LineOf(kind, r);
    if Published(pubs, a) { assert PubKey(a.kind, a.slot, a.subnet, a.attester, a.origin) in pubs; }
  }

  function Members(groups: map<int, set<nat>>, subnet: int): set<nat> {
    if subnet in groups then groups[subnet] else {}
  }

  function ToMembers(groups: map<int, set<nat>>): VoteMsg -> set<nat> {
    (m: VoteMsg) => Without(Members(groups, m.1), m.3)
  }

  method Leaks(arrivals: seq<Receipt<VoteMsg>>, permitted: Receipt<VoteMsg> -> bool)
    returns (leaked: seq<Receipt<VoteMsg>>)
    ensures forall r :: r in leaked <==> r in arrivals && !permitted(r)
  {
    leaked := [];
    for i := 0 to |arrivals|
      invariant forall r :: r in leaked <==> r in arrivals[..i] && !permitted(r)
    {
      assert arrivals[..i + 1] == arrivals[..i] + [arrivals[i]];
      if !permitted(arrivals[i]) { leaked := leaked + [arrivals[i]]; }
    }
    assert arrivals[..|arrivals|] == arrivals;
  }

  predicate On(groups: map<int, set<nat>>, subnet: int, node: nat) { subnet in groups && node in groups[subnet] }

  // What the attestation check asks of one possible log line: once where it is due, else never.
  predicate AttestationRight(pubs: set<PubKey>, arrs: seq<Arrival>, subscribers: map<int, set<nat>>, a: Arrival) {
    multiset(arrs)[a] == if Published(pubs, a) && On(subscribers, a.subnet, a.node) && a.node != a.origin then 1 else 0
  }

  lemma AttestationsPointwise(pubs: set<PubKey>, arrs: seq<Arrival>, subscribers: map<int, set<nat>>, kind: int)
    ensures Exact(VoteArrivals(arrs, kind), Expected(VotePubs(pubs, kind), ToMembers(subscribers))) <==>
            forall a: Arrival :: a.kind == kind ==> AttestationRight(pubs, arrs, subscribers, a)
  {
    var got, want := VoteArrivals(arrs, kind), Expected(VotePubs(pubs, kind), ToMembers(subscribers));
    var right := (r: Receipt<VoteMsg>) => AttestationRight(pubs, arrs, subscribers, LineOf(kind, r));
    forall r: Receipt<VoteMsg> ensures right(r) <==> multiset(got)[r] == if r in want then 1 else 0 {
      LineCount(arrs, kind, r);
      AttestationIsWanted(pubs, subscribers, kind, r);
    }
    ExactPointwise(got, want, right);
    ForAllLines(kind, right, (a: Arrival) => AttestationRight(pubs, arrs, subscribers, a));
    assert forall a: Arrival :: a.kind == kind ==>
      ((b: Arrival) => AttestationRight(pubs, arrs, subscribers, b))(a) == AttestationRight(pubs, arrs, subscribers, a);
  }

  // The receipts of a kind are its possible log lines.
  lemma ForAllLines(kind: int, right: Receipt<VoteMsg> -> bool, line: Arrival -> bool)
    requires forall r: Receipt<VoteMsg> :: right(r) <==> line(LineOf(kind, r))
    ensures (forall r: Receipt<VoteMsg> :: right(r)) <==> forall a: Arrival :: a.kind == kind ==> line(a)
  {
    forall a: Arrival | a.kind == kind ensures line(a) <==> right((a.node, (a.slot, a.subnet, a.attester, a.origin))) {
      assert LineOf(kind, (a.node, (a.slot, a.subnet, a.attester, a.origin))) == a;
    }
  }

  lemma AttestationIsWanted(pubs: set<PubKey>, subscribers: map<int, set<nat>>, kind: int, r: Receipt<VoteMsg>)
    ensures r in Expected(VotePubs(pubs, kind), ToMembers(subscribers)) <==>
            Published(pubs, LineOf(kind, r)) && On(subscribers, r.1.1, r.0) && r.0 != r.1.3
  {
    LinePublished(pubs, kind, r);
    assert r in Expected(VotePubs(pubs, kind), ToMembers(subscribers)) <==>
      r.1 in VotePubs(pubs, kind) && r.0 in ToMembers(subscribers)(r.1);
  }

  /** The attestation check (and, keyed by column, the column check) passes iff the log holds, for
      every published message and every subscriber of its subnet but its origin, exactly one arrival,
      and no other arrival of the kind. */
  method AnalyzeAttestations(pubs: set<PubKey>, arrs: seq<Arrival>, subscribers: map<int, set<nat>>, kind: int)
    returns (report: Report<VoteMsg>)
    ensures report.Ok() <==> forall a: Arrival :: a.kind == kind ==> AttestationRight(pubs, arrs, subscribers, a)
    ensures forall r: Receipt<VoteMsg> :: r in report.missing <==>
              Published(pubs, LineOf(kind, r)) && On(subscribers, r.1.1, r.0) && r.0 != r.1.3 && LineOf(kind, r) !in arrs
    ensures forall r: Receipt<VoteMsg> :: r in report.leaked <==>
              LineOf(kind, r) in arrs && !On(subscribers, r.1.1, r.0)
  {
    var attPubs, attArrs := VotePubs(pubs, kind), VoteArrivals(arrs, kind);
    var expected, missing := Cover(attPubs, (m: VoteMsg) => Members(subscribers, m.1), (m: VoteMsg) => m.3,
                                   (r: Receipt<VoteMsg>) => r in attArrs, ToMembers(subscribers));
    var leaked := Leaks(attArrs, (r: Receipt<VoteMsg>) => r.0 in Members(subscribers, r.1.1));
    report := Report(|attArrs|, expected, missing, leaked, Repeated(attArrs));
    VerdictIsExact(report, attArrs, Expected(attPubs, ToMembers(subscribers)));
    AttestationsPointwise(pubs, arrs, subscribers, kind);
    forall r: Receipt<VoteMsg>
      ensures r in attArrs <==> LineOf(kind, r) in arrs
      ensures r in Expected(attPubs, ToMembers(subscribers)) <==>
                Published(pubs, LineOf(kind, r)) && On(subscribers, r.1.1, r.0) && r.0 != r.1.3
    {
      InLog(arrs, kind, r);
      AttestationIsWanted(pubs, subscribers, kind, r);
    }
  }

  lemma InLog(arrs: seq<Arrival>, kind: int, r: Receipt<VoteMsg>)
    ensures r in VoteArrivals(arrs, kind) <==> LineOf(kind, r) in arrs
  {
    LineCount(arrs, kind, r);
    assert r in VoteArrivals(arrs, kind) <==> multiset(VoteArrivals(arrs, kind))[r] > 0;
    assert LineOf(kind, r) in arrs <==> multiset(arrs)[LineOf(kind, r)] > 0;
  }

  // ---------------------------------------------------------------- aggregates and AC votes

  function Range(n: nat): (r: set<nat>)
    ensures forall i :: i in r <==> 0 <= i < n
  {
    if n == 0 then {} else Range(n - 1) + {n - 1}
  }

  // A global-topic message and the node that published it: (slot, subnet, aggregator, aggregator)
  // for an aggregate or contribution, (slot, -1, validator, origin) for an AC or PTC vote.
  function ToAllBut(n: nat): VoteMsg -> set<nat> { (m: VoteMsg) => Without(Range(n), m.3) }

  // The counter and the per-message receiver sets the analyzers fill from the arrivals.
  method Tally(arrivals: seq<Receipt<VoteMsg>>)
    returns (counts: multiset<Receipt<VoteMsg>>, received: map<VoteMsg, set<nat>>)
    ensures counts == multiset(arrivals)
    ensures forall r: Receipt<VoteMsg> :: r in arrivals <==> (r.1 in received && r.0 in received[r.1])
  {
    counts, received := multiset{}, map[];
    for i := 0 to |arrivals|
      invariant counts == multiset(arrivals[..i])
      invariant forall r: Receipt<VoteMsg> :: r in arrivals[..i] <==> (r.1 in received && r.0 in received[r.1])
    {
      var (node, m) := arrivals[i];
      assert arrivals[..i + 1] == arrivals[..i] + [arrivals[i]];
      counts := counts + multiset{(node, m)};
      received := received[m := (if m in received then received[m] else {}) + {node}];
    }
    assert arrivals[..|arrivals|] == arrivals;
  }

  // What the global-topic checks ask of one possible receipt.
  predicate GlobalRight(published: set<VoteMsg>, n: nat, arrivals: seq<Receipt<VoteMsg>>, r: Receipt<VoteMsg>) {
    multiset(arrivals)[r] == if r.1 in published && r.0 < n && r.0 != r.1.3 then 1 else 0
  }

  lemma GlobalPointwise(published: set<VoteMsg>, n: nat, arrivals: seq<Receipt<VoteMsg>>)
    ensures Exact(arrivals, Expected(published, ToAllBut(n))) <==>
            forall r: Receipt<VoteMsg> :: GlobalRight(published, n, arrivals, r)
  {
    var right := (r: Receipt<VoteMsg>) => GlobalRight(published, n, arrivals, r);
    forall r: Receipt<VoteMsg>
      ensures right(r) <==> multiset(arrivals)[r] == if r in Expected(published, ToAllBut(n)) then 1 else 0
    {
      assert r in Expected(published, ToAllBut(n)) <==> r.1 in published && r.0 in ToAllBut(n)(r.1);
    }
    ExactPointwise(arrivals, Expected(published, ToAllBut(n)), right);
    assert forall r: Receipt<VoteMsg> :: right(r) <==> GlobalRight(published, n, arrivals, r);
  }

  /** The shared core of the aggregate, contribution, AC-vote and PTC-vote checks passes iff every
      published message reached all n nodes but its publisher exactly once and nothing else came. */
  method GlobalResult(published: set<VoteMsg>, n: nat, arrivals: seq<Receipt<VoteMsg>>)
    returns (report: Report<VoteMsg>)
    ensures report.Ok() <==> forall r: Receipt<VoteMsg> :: GlobalRight(published, n, arrivals, r)
    ensures forall r :: r in report.leaked <==> r in arrivals && r.0 == r.1.3
  {
    var counts, received := Tally(arrivals);
    var expected, missing := Cover(published, (m: VoteMsg) => Range(n), (m: VoteMsg) => m.3,
                                   (r: Receipt<VoteMsg>) => r.1 in received && r.0 in received[r.1], ToAllBut(n));
    var leaked := Leaks(arrivals, (r: Receipt<VoteMsg>) => r.0 != r.1.3);
    report := Report(|counts|, expected, missing, leaked, Repeated(arrivals));
    VerdictIsExact(report, arrivals, Expected(published, ToAllBut(n)));
    GlobalPointwise(published, n, arrivals);
  }

  // ---------------------------------------------------------------- finality votes

  // The hosts drawn to aggregate one (round key, subnet), as filled from the plan.
  method AggregatorHosts(p: Positions.Plan) returns (hosts: map<(nat, nat), set<nat>>)
    requires FinalityAggregates.Indexed(p)
    ensures forall key: nat, subnet: nat, node: nat ::
              (key, subnet) in hosts && node in hosts[(key, subnet)] <==> FinalityAggregates.Draws(p, key, subnet, node)
  {
    hosts := map[];
    var published := FinalityAggregates.FinalityAggregatePublished(p);
    var cells := set x | x in published :: (x.0, x.1);
    hosts := map c | c in cells :: set x | x in published && x.0 == c.0 && x.1 == c.1 && x.2 >= 0 :: x.2 as nat;
    forall key: nat, subnet: nat, node: nat
      ensures (key, subnet) in hosts && node in hosts[(key, subnet)] <==> FinalityAggregates.Draws(p, key, subnet, node)
    {
      var x: FinalityAggregates.Published := (key, subnet, node);
      if FinalityAggregates.Draws(p, key, subnet, node) { assert x in published; }
    }
  }

  function HostsOf(hosts: map<(nat, nat), set<nat>>, key: int, subnet: int): set<nat> {
    if key >= 0 && subnet >= 0 && (key, subnet) in hosts then hosts[(key, subnet)] else {}
  }

  // The stable members and the round's own aggregator hosts must receive a vote.
  function Required(members: map<int, set<nat>>, hosts: map<(nat, nat), set<nat>>, key: int, subnet: int): set<nat> {
    Members(members, subnet) + HostsOf(hosts, key, subnet)
  }

  // Under segregation the next round's hosts have pre-joined already and may receive it too.
  function Allowed(members: map<int, set<nat>>, hosts: map<(nat, nat), set<nat>>, segregated: bool,
                   key: int, subnet: int): set<nat> {
    Required(members, hosts, key, subnet) + if segregated then HostsOf(hosts, key + 1, subnet) else {}
  }

  function ToRequired(members: map<int, set<nat>>, hosts: map<(nat, nat), set<nat>>): VoteMsg -> set<nat> {
    (m: VoteMsg) => Without(Required(members, hosts, m.0, m.1), m.3)
  }

  function Kept(arrivals: seq<Receipt<VoteMsg>>, keep: Receipt<VoteMsg> -> bool): seq<Receipt<VoteMsg>> {
    if arrivals == [] then []
    else Kept(arrivals[..|arrivals| - 1], keep) + if keep(arrivals[|arrivals| - 1]) then [arrivals[|arrivals| - 1]] else []
  }

  lemma {:induction false} KeptCounts(arrivals: seq<Receipt<VoteMsg>>, keep: Receipt<VoteMsg> -> bool, r: Receipt<VoteMsg>)
    ensures multiset(Kept(arrivals, keep))[r] == if keep(r) then multiset(arrivals)[r] else 0
  {
    if arrivals != [] {
      KeptCounts(arrivals[..|arrivals| - 1], keep, r);
      assert arrivals == arrivals[..|arrivals| - 1] + [arrivals[|arrivals| - 1]];
    }
  }

  predicate HostedAt(hosts: map<(nat, nat), set<nat>>, key: int, subnet: int, node: nat) {
    key >= 0 && subnet >= 0 && (key, subnet) in hosts && node in hosts[(key, subnet)]
  }

  // What the finality-vote check asks of one possible log line: at a required receiver once when it is
  // due and else never; anywhere else it may only be at a host of the next segregated round.
  predicate VoteRight(pubs: set<PubKey>, arrs: seq<Arrival>, members: map<int, set<nat>>,
                      hosts: map<(nat, nat), set<nat>>, segregated: bool, a: Arrival) {
    if On(members, a.subnet, a.node) || HostedAt(hosts, a.slot, a.subnet, a.node)
    then multiset(arrs)[a] == if Published(pubs, a) && a.node != a.origin then 1 else 0
    else a in arrs ==> segregated && HostedAt(hosts, a.slot + 1, a.subnet, a.node)
  }

  lemma StrictPointwise(pubs: set<PubKey>, arrs: seq<Arrival>, kind: int, members: map<int, set<nat>>,
                        hosts: map<(nat, nat), set<nat>>, keep: Receipt<VoteMsg> -> bool, right: Receipt<VoteMsg> -> bool)
    requires forall r: Receipt<VoteMsg> :: keep(r) <==> r.0 in Required(members, hosts, r.1.0, r.1.1)
    requires forall r: Receipt<VoteMsg> :: right(r) <==> (keep(r) ==>
               multiset(arrs)[LineOf(kind, r)] == if Published(pubs, LineOf(kind, r)) && r.0 != r.1.3 then 1 else 0)
    ensures Exact(Kept(VoteArrivals(arrs, kind), keep), Expected(VotePubs(pubs, kind), ToRequired(members, hosts))) <==>
            forall r :: right(r)
  {
    var got, want := Kept(VoteArrivals(arrs, kind), keep), Expected(VotePubs(pubs, kind), ToRequired(members, hosts));
    forall r: Receipt<VoteMsg> ensures right(r) <==> multiset(got)[r] == if r in want then 1 else 0 {
      KeptCounts(VoteArrivals(arrs, kind), keep, r);
      LineCount(arrs, kind, r);
      LinePublished(pubs, kind, r);
      assert r in want <==> r.1 in VotePubs(pubs, kind) && r.0 in ToRequired(members, hosts)(r.1);
    }
    ExactPointwise(got, want, right);
  }

  /** The finality-vote check passes iff, in the log, each required receiver but its origin got every
      published vote exactly once and no other, and every other arrival is at an allowed receiver. */
  method AnalyzeFinalityVotes(pubs: set<PubKey>, arrs: seq<Arrival>, kind: int,
                              members: map<int, set<nat>>, hosts: map<(nat, nat), set<nat>>, segregated: bool)
    returns (report: Report<VoteMsg>)
    ensures report.Ok() <==> forall a: Arrival :: a.kind == kind ==> VoteRight(pubs, arrs, members, hosts, segregated, a)
  {
    var fvPubs, fvArrs := VotePubs(pubs, kind), VoteArrivals(arrs, kind);
    var leaked := Leaks(fvArrs, (r: Receipt<VoteMsg>) => r.0 in Allowed(members, hosts, segregated, r.1.0, r.1.1));
    var atRequired := (r: Receipt<VoteMsg>) => r.0 in Required(members, hosts, r.1.0, r.1.1);
    var strict := Kept(fvArrs, atRequired);
    var expected, missing := Cover(fvPubs, (m: VoteMsg) => Required(members, hosts, m.0, m.1), (m: VoteMsg) => m.3,
                                   (r: Receipt<VoteMsg>) => r in strict, ToRequired(members, hosts));
    report := Report(|strict|, expected, missing, leaked, Repeated(strict));
    VerdictIsExact(report, strict, Expected(fvPubs, ToRequired(members, hosts)));
    if leaked != [] { assert leaked[0] in leaked; }
    VotesPointwise(pubs, arrs, kind, members, hosts, segregated, atRequired);
  }

  // The part of VoteRight about required receivers, and the part about the others.
  predicate StrictRight(pubs: set<PubKey>, arrs: seq<Arrival>, members: map<int, set<nat>>, hosts: map<(nat, nat), set<nat>>,
                        a: Arrival) {
    a.node in Required(members, hosts, a.slot, a.subnet) ==>
      multiset(arrs)[a] == if Published(pubs, a) && a.node != a.origin then 1 else 0
  }

  predicate LeakFree(arrs: seq<Arrival>, members: map<int, set<nat>>, hosts: map<(nat, nat), set<nat>>, segregated: bool,
                     a: Arrival) {
    a in arrs ==> a.node in Allowed(members, hosts, segregated, a.slot, a.subnet)
  }

  lemma RightInParts(pubs: set<PubKey>, arrs: seq<Arrival>, members: map<int, set<nat>>,
                     hosts: map<(nat, nat), set<nat>>, segregated: bool, a: Arrival)
    ensures VoteRight(pubs, arrs, members, hosts, segregated, a) <==>
            StrictRight(pubs, arrs, members, hosts, a) && LeakFree(arrs, members, hosts, segregated, a)
  {
  }

  lemma StrictLines(pubs: set<PubKey>, arrs: seq<Arrival>, kind: int, members: map<int, set<nat>>,
                    hosts: map<(nat, nat), set<nat>>, keep: Receipt<VoteMsg> -> bool)
    requires forall r: Receipt<VoteMsg> :: keep(r) <==> r.0 in Required(members, hosts, r.1.0, r.1.1)
    ensures Exact(Kept(VoteArrivals(arrs, kind), keep), Expected(VotePubs(pubs, kind), ToRequired(members, hosts))) <==>
            forall a: Arrival :: a.kind == kind ==> StrictRight(pubs, arrs, members, hosts, a)
  {
    var right := (r: Receipt<VoteMsg>) => StrictRight(pubs, arrs, members, hosts, LineOf(kind, r));
    var line := (a: Arrival) => StrictRight(pubs, arrs, members, hosts, a);
    StrictPointwise(pubs, arrs, kind, members, hosts, keep, right);
    ForAllLines(kind, right, line);
    assert forall a: Arrival :: line(a) <==> StrictRight(pubs, arrs, members, hosts, a);
  }

  lemma LeakLines(arrs: seq<Arrival>, kind: int, members: map<int, set<nat>>, hosts: map<(nat, nat), set<nat>>, segregated: bool)
    ensures (forall r <- VoteArrivals(arrs, kind) :: r.0 in Allowed(members, hosts, segregated, r.1.0, r.1.1)) <==>
            forall a: Arrival :: a.kind == kind ==> LeakFree(arrs, members, hosts, segregated, a)
  {
    var right := (r: Receipt<VoteMsg>) => LeakFree(arrs, members, hosts, segregated, LineOf(kind, r));
    var line := (a: Arrival) => LeakFree(arrs, members, hosts, segregated, a);
    ForAllLines(kind, right, line);
    assert forall a: Arrival :: line(a) <==> LeakFree(arrs, members, hosts, segregated, a);
    forall r: Receipt<VoteMsg>
      ensures right(r) <==> (r in VoteArrivals(arrs, kind) ==> r.0 in Allowed(members, hosts, segregated, r.1.0, r.1.1))
    {
      InLog(arrs, kind, r);
    }
  }

  lemma VotesPointwise(pubs: set<PubKey>, arrs: seq<Arrival>, kind: int, members: map<int, set<nat>>,
                       hosts: map<(nat, nat), set<nat>>, segregated: bool, keep: Receipt<VoteMsg> -> bool)
    requires forall r: Receipt<VoteMsg> :: keep(r) <==> r.0 in Required(members, hosts, r.1.0, r.1.1)
    ensures (Exact(Kept(VoteArrivals(arrs, kind), keep), Expected(VotePubs(pubs, kind), ToRequired(members, hosts)))
             && forall r <- VoteArrivals(arrs, kind) :: r.0 in Allowed(members, hosts, segregated, r.1.0, r.1.1)) <==>
            forall a: Arrival :: a.kind == kind ==> VoteRight(pubs, arrs, members, hosts, segregated, a)
  {
    StrictLines(pubs, arrs, kind, members, hosts, keep);
    LeakLines(arrs, kind, members, hosts, segregated);
    forall a: Arrival
      ensures VoteRight(pubs, arrs, members, hosts, segregated, a) <==>
                StrictRight(pubs, arrs, members, hosts, a) && LeakFree(arrs, members, hosts, segregated, a)
    {
      RightInParts(pubs, arrs, members, hosts, segregated, a);
    }
  }

  // ---------------------------------------------------------------- finality votes of a plan

  predicate Drawn(p: Positions.Plan, key: int, subnet: int, node: nat) {
    key >= 0 && subnet >= 0 && FinalityAggregates.Draws(p, key, subnet, node)
  }

  // What the check asks of one possible log line under a plan.
  predicate PlanRight(p: Positions.Plan, pubs: set<PubKey>, arrs: seq<Arrival>, members: map<int, set<nat>>, a: Arrival) {
    if On(members, a.subnet, a.node) || Drawn(p, a.slot, a.subnet, a.node)
    then multiset(arrs)[a] == if Published(pubs, a) && a.node != a.origin then 1 else 0
    else a in arrs ==> Positions.Segregated(p) && Drawn(p, a.slot + 1, a.subnet, a.node)
  }

  /** The finality-vote check over a plan: it passes iff every published vote arrived exactly once at
      each stable member of its subnet and each host drawn to aggregate it in its round, except its
      own publisher, and every other arrival is, under segregation, at a host of the next round. */
  method AnalyzePlanVotes(p: Positions.Plan, pubs: set<PubKey>, arrs: seq<Arrival>, kind: int, members: map<int, set<nat>>)
    returns (report: Report<VoteMsg>)
    requires FinalityAggregates.Indexed(p)
    ensures report.Ok() <==> forall a: Arrival :: a.kind == kind ==> PlanRight(p, pubs, arrs, members, a)
  {
    var hosts := AggregatorHosts(p);
    report := AnalyzeFinalityVotes(pubs, arrs, kind, members, hosts, Positions.Segregated(p));
    forall key: int, subnet: int, node: nat ensures HostedAt(hosts, key, subnet, node) <==> Drawn(p, key, subnet, node) {
      HostsAreDrawn(p, hosts, key, subnet, node);
    }
    forall a: Arrival
      ensures VoteRight(pubs, arrs, members, hosts, Positions.Segregated(p), a) <==> PlanRight(p, pubs, arrs, members, a)
    {
      assert HostedAt(hosts, a.slot, a.subnet, a.node) <==> Drawn(p, a.slot, a.subnet, a.node);
      assert HostedAt(hosts, a.slot + 1, a.subnet, a.node) <==> Drawn(p, a.slot + 1, a.subnet, a.node);
    }
  }

  lemma HostsAreDrawn(p: Positions.Plan, hosts: map<(nat, nat), set<nat>>, key: int, subnet: int, node: nat)
    requires forall k: nat, s: nat, n: nat :: (k, s) in hosts && n in hosts[(k, s)] <==> FinalityAggregates.Draws(p, k, s, n)
    ensures HostedAt(hosts, key, subnet, node) <==> Drawn(p, key, subnet, node)
  {
    if key >= 0 && subnet >= 0 {
      var k: nat, s: nat := key, subnet;
      assert (k, s) in hosts && node in hosts[(k, s)] <==> FinalityAggregates.Draws(p, k, s, node);
    }
  }
}
