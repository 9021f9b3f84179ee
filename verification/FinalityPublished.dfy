/** What a whole finality run publishes (driver/runner.go): every vote exactly once over either
    transport, and exactly when the aggregates are those the checker of analysis/check_arrivals.py
    expects. */
module FinalityPublished {
  import opened Arith
  import opened Hosting
  import opened Positions
  import opened FinalityRun
  import FR = FinalityRounds
  import FA = FinalityAggregates

  // The node ran to its close.
  ghost predicate Complete(c: Setup, es: seq<Event>) {
    Ok(c) && IsRun(c, Start(c), es) && After(c, Start(c), es).closed
  }

  ghost function End(c: Setup, es: seq<Event>): Runner
    requires Complete(c, es)
  {
    After(c, Start(c), es)
  }

  function Bit(b: bool): nat { if b then 1 else 0 }

  // At the close every round of the run was armed; its timers fired exactly if due by then.
  lemma ClosedRound(c: Setup, es: seq<Event>, n: nat)
    requires Complete(c, es) && InRun(c, n)
    ensures var s := End(c, es);
            && n in s.rounds && RoundOk(c, s.begun, s.now, n, s.rounds[n]) && LogsOk(c, s)
            && (VoteDue(c, n) < CloseAt(c) ==> s.rounds[n].voteOnce)
            && (VoteDue(c, n) > CloseAt(c) ==> !s.rounds[n].voteOnce)
            && (AggDue(c, n) < CloseAt(c) && s.rounds[n].aggSubnets != [] ==> s.rounds[n].aggregateOnce)
            && (AggDue(c, n) > CloseAt(c) ==> !s.rounds[n].aggregateOnce)
  {
    StartInv(c);
    RunKeepsInv(c, Start(c), es);
    var s := End(c, es);
    assert n in s.rounds;
    assert RoundOk(c, s.begun, s.now, n, s.rounds[n]);
  }

  // ---------------------------------------------------------------- votes

  // How often something sent carries a duty's vote of round n.
  function Carries(w: Cast, n: nat, d: Duty): nat {
    match w
    case Message(round, subnet, val) => Bit(round == n && subnet == d.subnet && val == d.val)
    case Local(round, subnet, position) => Bit(round == n && subnet == d.subnet && position == d.position)
    case Fanout(round, subnet, positions) => if round == n && subnet == d.subnet then multiset(positions)[d.position] else 0
  }

  function Sent(log: seq<Cast>, n: nat, d: Duty): nat {
    if log == [] then 0 else Sent(log[..|log| - 1], n, d) + Carries(log[|log| - 1], n, d)
  }

  lemma {:induction false} SentInRound(log: seq<Cast>, n: nat, d: Duty)
    ensures Sent(log, n, d) == Sent(VotesIn(log, n), n, d)
  {
    if log != [] {
      var front, last := log[..|log| - 1], log[|log| - 1];
      SentInRound(front, n, d);
      if last.round == n {
        assert (VotesIn(front, n) + [last])[..|VotesIn(front, n)|] == VotesIn(front, n);
      } else {
        assert VotesIn(log, n) == VotesIn(front, n) && Carries(last, n, d) == 0;
      }
    }
  }

  lemma {:induction false} SentConcat(a: seq<Cast>, b: seq<Cast>, n: nat, d: Duty)
    ensures Sent(a + b, n, d) == Sent(a, n, d) + Sent(b, n, d)
  {
    if b == [] {
      assert a + b == a;
    } else {
      assert (a + b)[..|a + b| - 1] == a + b[..|b| - 1];
      SentConcat(a, b[..|b| - 1], n, d);
    }
  }

  predicate ByVal(ds: seq<Duty>) { forall i, j :: 0 <= i < j < |ds| ==> ds[i].val < ds[j].val }

  lemma {:induction false} MessagesSend(n: nat, ds: seq<Duty>, d: Duty)
    requires ByVal(ds) && forall x <- ds :: x.val == d.val ==> x == d
    ensures Sent(Messages(n, ds), n, d) == Bit(d in ds)
  {
    if ds != [] {
      var front, last := ds[..|ds| - 1], ds[|ds| - 1];
      MessagesSend(n, front, d);
      assert Messages(n, ds)[..|ds| - 1] == Messages(n, front);
      assert last in ds;
      if last == d { assert d !in front by { forall x <- front ensures x.val < last.val { } } }
    }
  }

  lemma {:induction false} PositionsCount(ds: seq<Duty>, d: Duty)
    requires ByVal(ds) && forall x <- ds :: x.subnet == d.subnet && x.position == d.position ==> x == d
    ensures multiset(FR.PositionsOn(ds, d.subnet))[d.position] == Bit(d in ds)
  {
    if ds != [] {
      var front, last := ds[..|ds| - 1], ds[|ds| - 1];
      PositionsCount(front, d);
      assert last in ds;
      if last == d { assert d !in front by { forall x <- front ensures x.val < last.val { } } }
    }
  }

  lemma {:induction false} LocalsSend(n: nat, own: int, positions: seq<int>, d: Duty)
    ensures Sent(Locals(n, own, positions), n, d) == if own == d.subnet then multiset(positions)[d.position] else 0
  {
    if positions != [] {
      var front := positions[..|positions| - 1];
      LocalsSend(n, own, front, d);
      assert Locals(n, own, positions)[..|positions| - 1] == Locals(n, own, front);
      assert positions == front + [positions[|positions| - 1]];
    }
  }

  lemma {:induction false} FanoutsSend(n: nat, ds: seq<Duty>, order: seq<int>, d: Duty)
    requires FR.Distinct(order)
    ensures Sent(Fanouts(n, ds, order), n, d) ==
            if d.subnet in order then multiset(FR.PositionsOn(ds, d.subnet))[d.position] else 0
  {
    if order != [] {
      var front := order[..|order| - 1];
      FanoutsSend(n, ds, front, d);
      assert Fanouts(n, ds, order)[..|order| - 1] == Fanouts(n, ds, front);
    }
  }

  // Within a round of a subnet a position names one validator.
  lemma PositionNamesOne(p: Plan, n: nat, val: nat, x: Duty, node: nat)
    requires WellFormed(p) && val < p.v && Votes(p, val, n) && x in Duties(p, node, n, p.v)
    ensures x.val == val || (x.subnet == p.subnetOf[val] && x.position == Rank(p, val)) ==> x == DutyOf(p, val)
  {
    DutiesExact(p, node, n, p.v, x);
    RankRoundTrip(p, val);
    RankRoundTrip(p, x.val);
  }

  // One node's burst sends a validator's vote exactly if the node hosts it, and once.
  lemma BurstSends(c: Setup, n: nat, order: seq<int>, val: nat)
    requires Ok(c) && val < c.p.v && Votes(c.p, val, n)
    requires ListsForeign(order, Duties(c.p, c.node, n, c.p.v), c.own)
    ensures Sent(Burst(c, n, Duties(c.p, c.node, n, c.p.v), order), n, DutyOf(c.p, val)) ==
            Bit(HostOf(c.p.counts, c.p.n, val) == c.node)
  {
    var ds, d := Duties(c.p, c.node, n, c.p.v), DutyOf(c.p, val);
    DutiesAscend(c.p, c.node, n, c.p.v);
    DutiesExact(c.p, c.node, n, c.p.v, d);
    forall x <- ds ensures x.val == val || (x.subnet == d.subnet && x.position == d.position) ==> x == d {
      PositionNamesOne(c.p, n, val, x, c.node);
    }
    if c.partial {
      PartialBurstSends(c, n, ds, order, d);
    } else {
      MessagesSend(n, ds, d);
    }
  }

  lemma PartialBurstSends(c: Setup, n: nat, ds: seq<Duty>, order: seq<int>, d: Duty)
    requires c.partial && ByVal(ds) && ListsForeign(order, ds, c.own)
    requires forall x <- ds :: x.subnet == d.subnet && x.position == d.position ==> x == d
    ensures Sent(Burst(c, n, ds, order), n, d) == Bit(d in ds)
  {
    var locals := Locals(n, c.own, FR.PositionsOn(ds, c.own));
    PositionsCount(ds, d);
    LocalsSend(n, c.own, FR.PositionsOn(ds, c.own), d);
    FanoutsSend(n, ds, order, d);
    SentConcat(locals, Fanouts(n, ds, order), n, d);
  }

  /** On every run to the close, over either transport, a node sends the vote of a validator in its
      round exactly once if it hosts the validator and never otherwise, provided the vote instant
      comes before the close; after it the vote is not sent at all. */
  lemma VoteSentOnce(c: Setup, es: seq<Event>, n: nat, val: nat)
    requires Complete(c, es) && InRun(c, n) && val < c.p.v && Votes(c.p, val, n)
    ensures VoteDue(c, n) < CloseAt(c) ==>
              Sent(End(c, es).votes, n, DutyOf(c.p, val)) == Bit(HostOf(c.p.counts, c.p.n, val) == c.node)
    ensures VoteDue(c, n) > CloseAt(c) ==> Sent(End(c, es).votes, n, DutyOf(c.p, val)) == 0
  {
    var s := End(c, es);
    ClosedRound(c, es, n);
    SentInRound(s.votes, n, DutyOf(c.p, val));
    if s.rounds[n].voteOnce { BurstSends(c, n, s.rounds[n].order, val); }
  }

  // The same setup at another node, on its own subnet.
  function Of(c: Setup, own: nat -> int, node: nat): Setup { c.(node := node, own := own(node)) }

  ghost function SentBy(c: Setup, es: seq<Event>, n: nat, d: Duty): nat {
    if Complete(c, es) then Sent(End(c, es).votes, n, d) else 0
  }

  /** Over a whole network, whatever the interleavings at its nodes, each validator's vote of a round
      is sent exactly once, when the round's vote instant comes before the close. */
  lemma NetworkSendsEachVoteOnce(c: Setup, own: nat -> int, runs: nat -> seq<Event>, n: nat, val: nat, sent: nat -> nat)
    requires forall node: nat :: node < c.p.n ==> Complete(Of(c, own, node), runs(node))
    requires Ok(c) && InRun(c, n) && val < c.p.v && Votes(c.p, val, n) && VoteDue(c, n) < CloseAt(c)
    requires forall node: nat :: node < c.p.n ==> sent(node) == SentBy(Of(c, own, node), runs(node), n, DutyOf(c.p, val))
    ensures SumTo(sent, c.p.n) == 1
  {
    HostInRange(c.p, val);
    forall node: nat | node < c.p.n ensures sent(node) == if node == HostOf(c.p.counts, c.p.n, val) then 1 else 0 {
      OneNodeSends(c, own, node, runs(node), n, val);
    }
    SumOfSpike(sent, c.p.n, HostOf(c.p.counts, c.p.n, val));
  }

  lemma OneNodeSends(c: Setup, own: nat -> int, node: nat, es: seq<Event>, n: nat, val: nat)
    requires Complete(Of(c, own, node), es)
    requires Ok(c) && InRun(c, n) && val < c.p.v && Votes(c.p, val, n) && VoteDue(c, n) < CloseAt(c)
    ensures SentBy(Of(c, own, node), es, n, DutyOf(c.p, val)) == Bit(HostOf(c.p.counts, c.p.n, val) == node)
  {
    var d := Of(c, own, node);
    assert VoteDue(d, n) == VoteDue(c, n) && CloseAt(d) == CloseAt(c);
    VoteSentOnce(d, es, n, val);
  }

  // Everything sent in a round names duties of the node in that round.
  ghost predicate Names(ds: seq<Duty>, w: Cast) {
    match w
    case Message(_, subnet, val) => exists d <- ds :: d.subnet == subnet && d.val == val
    case Local(_, subnet, position) => exists d <- ds :: d.subnet == subnet && d.position == position
    case Fanout(_, subnet, positions) => forall position <- positions :: exists d <- ds :: d.subnet == subnet && d.position == position
  }

  lemma {:induction false} PositionsNameDuties(ds: seq<Duty>, subnet: int)
    ensures forall position <- FR.PositionsOn(ds, subnet) :: exists d <- ds :: d.subnet == subnet && d.position == position
  {
    if ds != [] {
      var front, last := ds[..|ds| - 1], ds[|ds| - 1];
      PositionsNameDuties(front, subnet);
      forall position <- FR.PositionsOn(ds, subnet) ensures exists d <- ds :: d.subnet == subnet && d.position == position {
        if position in FR.PositionsOn(front, subnet) {
          var d :| d in front && d.subnet == subnet && d.position == position;
          assert d in ds;
        } else {
          assert last in ds;
        }
      }
    }
  }

  lemma {:induction false} SentWasLogged(log: seq<Cast>, w: Cast)
    requires w in log
    ensures w in VotesIn(log, w.round)
  {
    if w != log[|log| - 1] { SentWasLogged(log[..|log| - 1], w); }
  }

  lemma BurstNames(c: Setup, n: nat, ds: seq<Duty>, order: seq<int>, w: Cast)
    requires w in Burst(c, n, ds, order)
    ensures Names(ds, w)
  {
    PositionsNameDuties(ds, w.subnet);
    if w.Message? {
      var i :| 0 <= i < |ds| && w == Messages(n, ds)[i];
      assert ds[i] in ds;
    } else if w.Local? {
      var ps := FR.PositionsOn(ds, c.own);
      var i :| 0 <= i < |ps| && w == Locals(n, c.own, ps)[i];
      assert ps[i] in ps;
    } else {
      var i :| 0 <= i < |order| && w == Fanouts(n, ds, order)[i];
    }
  }

  /** Nothing else is sent: every message, local vote and fan-out position of the run names a duty the
      node has in that round. */
  lemma OnlyDutiesAreSent(c: Setup, es: seq<Event>, w: Cast)
    requires Complete(c, es) && w in End(c, es).votes
    ensures Names(Duties(c.p, c.node, w.round, c.p.v), w)
  {
    var s, n := End(c, es), w.round;
    StartInv(c);
    RunKeepsInv(c, Start(c), es);
    SentWasLogged(s.votes, w);
    assert VotesIn(s.votes, n) != [];
    BurstNames(c, n, s.rounds[n].duties, s.rounds[n].order, w);
  }

  // ---------------------------------------------------------------- aggregates

  lemma {:induction false} LoggedInRound(log: seq<Published>, x: Published)
    ensures multiset(log)[x] == multiset(AggregatesIn(log, x.0))[x]
  {
    if log != [] {
      LoggedInRound(log[..|log| - 1], x);
      assert log == log[..|log| - 1] + [log[|log| - 1]];
    }
  }

  lemma {:induction false} BurstPublishes(n: nat, node: nat, subnets: seq<nat>, x: Published)
    requires Ascending(subnets)
    ensures multiset(AggregateBurst(n, node, subnets))[x] == Bit(x.0 == n && x.1 in subnets && x.2 == node)
  {
    if subnets != [] {
      var front, last := subnets[..|subnets| - 1], subnets[|subnets| - 1];
      BurstPublishes(n, node, front, x);
      assert AggregateBurst(n, node, subnets) == AggregateBurst(n, node, front) + [(n, last, node)];
      assert last !in front by { forall s <- front ensures s < last { } }
    }
  }

  lemma DrawsInRun(c: Setup, n: nat)
    requires Ok(c)
    ensures FA.KeySlot(c.p, n) == FR.First(K(c), n)
  {
    FR.FirstIsMultiple(K(c), n);
  }

  /** On every run to the close a node publishes an aggregate once if the plan draws it for the node
      and its deadline comes before the close, and not at all if it is not drawn or the deadline
      comes after. */
  lemma AggregatePublishedOnce(c: Setup, es: seq<Event>, x: Published)
    requires Complete(c, es)
    ensures multiset(End(c, es).aggregates)[x] <= 1
    ensures x in End(c, es).aggregates ==> FA.Draws(c.p, x.0, x.1, x.2) && x.2 == c.node && AggDue(c, x.0) <= CloseAt(c)
    ensures FA.Draws(c.p, x.0, x.1, x.2) && x.2 == c.node && AggDue(c, x.0) < CloseAt(c) ==> x in End(c, es).aggregates
  {
    var s := End(c, es);
    var n := x.0;
    StartInv(c);
    RunKeepsInv(c, Start(c), es);
    LoggedInRound(s.aggregates, x);
    assert x in s.aggregates <==> multiset(s.aggregates)[x] > 0;
    FA.AggregatedExact(c.p, c.node, n);
    BurstPublishes(n, c.node, FA.Aggregated(c.p, c.node, n), x);
    DrawsInRun(c, n);
    if InRun(c, n) { ClosedRound(c, es, n); }
    if n in s.rounds { assert RoundOk(c, s.begun, s.now, n, s.rounds[n]); }
    assert AggregatesIn(s.aggregates, n) ==
      if n in s.rounds && s.rounds[n].aggregateOnce then AggregateBurst(n, c.node, s.rounds[n].aggSubnets) else [];
  }

  // ---------------------------------------------------------------- the exact condition

  // How many slots the run goes into a round it cuts short.
  function Short(c: Setup): nat
    requires c.p.k > 0
  {
    Slots(c) % K(c)
  }

  lemma RemainderAtMost(x: nat, k: nat)
    requires k > 0
    ensures x % k <= x
  {
    if x < k { QuotientIs(0, k, x); }
  }

  // The boundary slot of the round cut short.
  function CutSlot(c: Setup): (at: nat)
    requires c.p.k > 0 && 0 < Short(c)
    ensures at < Slots(c) && at == Slots(c) - Short(c)
  {
    RemainderAtMost(Slots(c), K(c));
    Slots(c) - Short(c)
  }

  // The slots run and the drain reach past the deadline of a round cut short.
  predicate DrainCovers(c: Setup)
    requires c.p.k > 0
  {
    AggOffset(c) < SlotStart(c, Short(c)) + c.drain
  }

  // The round cut short draws no aggregator on the node.
  predicate DrawsNone(c: Setup, node: int)
    requires c.p.k > 0 && 0 < Short(c)
  {
    forall refs <- c.p.slots[CutSlot(c)].finalityAggregators :: !FA.HostsRef(refs, node)
  }

  // A round that runs to its end has its deadline before the close; the one cut short, if any,
  // exactly when the drain covers it.
  lemma DeadlineMade(c: Setup, n: nat)
    requires Ok(c) && InRun(c, n)
    ensures AggDue(c, n) < CloseAt(c) <==> FR.First(K(c), n) + K(c) <= Slots(c) || DrainCovers(c)
    ensures FR.First(K(c), n) + K(c) > Slots(c) ==> Short(c) > 0 && FR.First(K(c), n) == Slots(c) - Short(c)
  {
    var k, first := K(c), FR.First(K(c), n);
    DueInsideRound(c, n);
    if first + k <= Slots(c) {
      SlotStartsGrow(c, first + k, Slots(c));
    } else {
      var r := Slots(c) - first;
      FR.FirstIsMultiple(k, n);
      assert Slots(c) == n * k + r;
      QuotientIs(n, k, Slots(c));
      assert Slots(c) % k == r;
      FirstAdds(c.slotDur, first, r);
    }
  }

  // ---------------------------------------------------------------- complete runs exist

  function ArmedVotes(s: Runner): set<nat> { set n | n in s.rounds && s.rounds[n].vote.Armed? }

  function ArmedAggregates(s: Runner): set<nat> { set n | n in s.rounds && s.rounds[n].aggregate.Armed? }

  // An aggregate goes out only before the close.
  ghost predicate Early(c: Setup, s: Runner) {
    forall n <- s.rounds :: s.rounds[n].aggregateOnce ==> AggDue(c, n) < CloseAt(c)
  }

  // Some iteration order of the fan-out map.
  function ForeignOrder(duties: seq<Duty>, own: int): seq<int> {
    if duties == [] then []
    else
      var front, s := ForeignOrder(duties[..|duties| - 1], own), duties[|duties| - 1].subnet;
      if s != own && s !in front then front + [s] else front
  }

  lemma {:induction false} ForeignOrderLists(duties: seq<Duty>, own: int)
    ensures ListsForeign(ForeignOrder(duties, own), duties, own)
  {
    if duties != [] {
      var front, last := duties[..|duties| - 1], duties[|duties| - 1];
      ForeignOrderLists(front, own);
      forall s ensures s in ForeignOrder(duties, own) <==> s != own && exists d <- duties :: d.subnet == s {
        if d :| d in duties && d.subnet == s { assert d in front || d == last; }
        if d :| d in front && d.subnet == s { assert d in duties; }
        assert last in duties;
      }
    }
  }

  // How far a runner still has to go: it never takes two steps without getting closer.
  function Measure(c: Setup, s: Runner): (int, nat, int, nat, int, nat, nat) {
    (CloseAt(c) - s.now, Bit(!s.closed), Slots(c) - s.begun, |s.pending|, Slots(c) - s.ended,
     |ArmedVotes(s)|, |ArmedAggregates(s)|)
  }

  predicate Closer(a: (int, nat, int, nat, int, nat, nat), b: (int, nat, int, nat, int, nat, nat)) {
    || a.0 < b.0
    || (a.0 == b.0 && a.1 < b.1)
    || (a.0 == b.0 && a.1 == b.1 && a.2 < b.2)
    || (a.0 == b.0 && a.1 == b.1 && a.2 == b.2 && a.3 < b.3)
    || (a.0 == b.0 && a.1 == b.1 && a.2 == b.2 && a.3 == b.3 && a.4 < b.4)
    || (a.0 == b.0 && a.1 == b.1 && a.2 == b.2 && a.3 == b.3 && a.4 == b.4 && a.5 < b.5)
    || (a.0 == b.0 && a.1 == b.1 && a.2 == b.2 && a.3 == b.3 && a.4 == b.4 && a.5 == b.5 && a.6 < b.6)
  }

  lemma SmallerSet(a: set<nat>, b: set<nat>, x: nat)
    requires x in b && a == b - {x}
    ensures |a| < |b|
  {
  }

  lemma FireVoteCloser(c: Setup, s: Runner, n: nat, order: seq<int>)
    requires Ok(c) && Enabled(c, s, FireVote(n, order))
    ensures Closer(Measure(c, Next(c, s, FireVote(n, order))), Measure(c, s))
  {
    var t := Next(c, s, FireVote(n, order));
    assert ArmedVotes(t) == ArmedVotes(s) - {n};
    SmallerSet(ArmedVotes(t), ArmedVotes(s), n);
  }

  lemma FireAggregateCloser(c: Setup, s: Runner, n: nat)
    requires Ok(c) && Enabled(c, s, FireAggregate(n))
    ensures Closer(Measure(c, Next(c, s, FireAggregate(n))), Measure(c, s))
  {
    var t := Next(c, s, FireAggregate(n));
    assert ArmedVotes(t) == ArmedVotes(s);
    assert ArmedAggregates(t) == ArmedAggregates(s) - {n};
    SmallerSet(ArmedAggregates(t), ArmedAggregates(s), n);
  }

  // With no timer due and no slot to begin or end, a unit of time can pass.
  lemma IdlePasses(c: Setup, s: Runner)
    requires Ok(c) && Inv(c, s) && !s.closed && s.now < CloseAt(c) && s.pending == {}
    requires !(s.begun < Slots(c) && s.now == SlotStart(c, s.begun)) && !(s.ended < s.begun && s.now == SlotStart(c, s.ended + 1))
    requires forall n <- s.rounds :: !Due(s.rounds[n].vote, s.now) && !Due(s.rounds[n].aggregate, s.now)
    ensures Enabled(c, s, Pass(s.now + 1))
  {
  }

  // A runner that is not closed can step closer; it closes as soon as it may.
  lemma SomeStep(c: Setup, s: Runner) returns (e: Event)
    requires Ok(c) && Inv(c, s) && !s.closed
    ensures Enabled(c, s, e) && Closer(Measure(c, Next(c, s, e)), Measure(c, s))
    ensures e.FireAggregate? ==> s.now < CloseAt(c)
  {
    if s.now == CloseAt(c) {
      if s.begun < Slots(c) { SlotStartsGrow(c, s.begun, Slots(c)); }
      e := Close;
    } else if n :| n in s.pending {
      e := Register(n);
      SmallerSet(s.pending - {n}, s.pending, n);
    } else if s.begun < Slots(c) && s.now == SlotStart(c, s.begun) {
      e := Begin;
    } else if s.ended < s.begun && s.now == SlotStart(c, s.ended + 1) {
      e := EndSlot;
    } else if n :| n in s.rounds && Due(s.rounds[n].vote, s.now) {
      var order := ForeignOrder(s.rounds[n].duties, c.own);
      ForeignOrderLists(s.rounds[n].duties, c.own);
      e := FireVote(n, order);
      FireVoteCloser(c, s, n, order);
    } else if n :| n in s.rounds && Due(s.rounds[n].aggregate, s.now) {
      e := FireAggregate(n);
      FireAggregateCloser(c, s, n);
    } else {
      IdlePasses(c, s);
      e := Pass(s.now + 1);
    }
  }

  lemma StepStaysEarly(c: Setup, s: Runner, e: Event)
    requires Ok(c) && Inv(c, s) && Enabled(c, s, e) && Early(c, s) && (e.FireAggregate? ==> s.now < CloseAt(c))
    ensures Early(c, Next(c, s, e))
  {
    if e.FireAggregate? { assert RoundOk(c, s.begun, s.now, e.n, s.rounds[e.n]); }
  }

  lemma {:induction false} SomeRun(c: Setup, s: Runner) returns (es: seq<Event>)
    requires Ok(c) && Inv(c, s) && Early(c, s)
    ensures IsRun(c, s, es) && After(c, s, es).closed && Early(c, After(c, s, es))
    decreases Measure(c, s).0, Measure(c, s).1, Measure(c, s).2, Measure(c, s).3, Measure(c, s).4,
              Measure(c, s).5, Measure(c, s).6
  {
    es := [];
    if !s.closed {
      var e := SomeStep(c, s);
      var t := Next(c, s, e);
      StepKeepsInv(c, s, e);
      StepStaysEarly(c, s, e);
      var rest := SomeRun(c, t);
      es := [e] + rest;
      assert es[1..] == rest;
    }
  }

  // A complete run always exists, one that closes ahead of any timer due at the same instant too.
  lemma CompleteRunExists(c: Setup) returns (es: seq<Event>)
    requires Ok(c)
    ensures Complete(c, es) && Early(c, End(c, es))
  {
    StartInv(c);
    es := SomeRun(c, Start(c));
  }

  // ---------------------------------------------------------------- published is expected, exactly when

  // The node's log holds exactly the aggregates the plan draws for it.
  ghost predicate AsExpected(c: Setup, es: seq<Event>)
    requires Complete(c, es)
  {
    forall x: Published :: x in End(c, es).aggregates <==> FA.Draws(c.p, x.0, x.1, x.2) && x.2 == c.node
  }

  ghost predicate AlwaysAsExpected(c: Setup) {
    forall es :: Complete(c, es) ==> AsExpected(c, es)
  }

  lemma CutShortIsDrawn(c: Setup, x: Published)
    requires Ok(c) && FA.Draws(c.p, x.0, x.1, x.2) && FR.First(K(c), x.0) + K(c) > Slots(c)
    ensures InRun(c, x.0) && Short(c) > 0 && !DrawsNone(c, x.2)
  {
    DrawsInRun(c, x.0);
    DeadlineMade(c, x.0);
    var refs := c.p.slots[CutSlot(c)].finalityAggregators[x.1];
    assert refs in c.p.slots[CutSlot(c)].finalityAggregators;
  }

  // The draw of a round cut short, as a round, subnet and host.
  lemma SomeDrawnLate(c: Setup, node: int) returns (x: Published)
    requires Ok(c) && Short(c) > 0 && !DrawsNone(c, node)
    ensures FA.Draws(c.p, x.0, x.1, x.2) && x.2 == node && InRun(c, x.0) && FR.First(K(c), x.0) + K(c) > Slots(c)
  {
    var k, at := K(c), CutSlot(c);
    var n := Slots(c) / k;
    FR.FirstIsMultiple(k, n);
    assert Slots(c) == n * k + Short(c);
    var draws := c.p.slots[at].finalityAggregators;
    var refs :| refs in draws && FA.HostsRef(refs, node);
    var s: nat :| s < |draws| && draws[s] == refs;
    DrawsInRun(c, n);
    x := (n, s, node);
  }

  lemma {:induction false} LoggedOnce(c: Setup, es: seq<Event>, x: Published)
    requires Complete(c, es) && Early(c, End(c, es)) && InRun(c, x.0) && AggDue(c, x.0) >= CloseAt(c)
    ensures x !in End(c, es).aggregates
  {
    var s := End(c, es);
    ClosedRound(c, es, x.0);
    LoggedInRound(s.aggregates, x);
    assert AggregatesIn(s.aggregates, x.0) == [];
  }

  /** On every complete run a node publishes exactly the aggregates the plan draws for it, if and only
      if the run cuts no round short, or the slots run and the drain reach past that round's deadline,
      or that round draws no aggregator on the node. */
  lemma NodePublishesExpectedIff(c: Setup)
    requires Ok(c)
    ensures AlwaysAsExpected(c) <==> Short(c) == 0 || DrainCovers(c) || DrawsNone(c, c.node)
  {
    if Short(c) == 0 || DrainCovers(c) || DrawsNone(c, c.node) {
      forall es | Complete(c, es) ensures AsExpected(c, es) {
        forall x: Published ensures x in End(c, es).aggregates <==> FA.Draws(c.p, x.0, x.1, x.2) && x.2 == c.node {
          AggregatePublishedOnce(c, es, x);
          if FA.Draws(c.p, x.0, x.1, x.2) && x.2 == c.node {
            DrawsInRun(c, x.0);
            DeadlineMade(c, x.0);
            if FR.First(K(c), x.0) + K(c) > Slots(c) { CutShortIsDrawn(c, x); }
          }
        }
      }
    } else {
      var es := CompleteRunExists(c);
      var x := SomeDrawnLate(c, c.node);
      DeadlineMade(c, x.0);
      LoggedOnce(c, es, x);
      assert !AsExpected(c, es);
    }
  }

  // Every aggregator the plan draws is hosted on one of its nodes.
  predicate HostsInRange(p: Plan) {
    forall sp <- p.slots, refs <- sp.finalityAggregators, r <- refs :: 0 <= r.node < p.n
  }

  predicate NoAggregators(sp: SlotPlan) {
    forall s: nat :: s < |sp.finalityAggregators| ==> sp.finalityAggregators[s] == []
  }

  /** Over the network the published aggregates are exactly the set the checker derives from the plan,
      on every run, if and only if the run cuts no round short, or the slots run and the drain reach
      past that round's deadline, or its boundary slot draws no aggregator at all. */
  lemma NetworkPublishesExpectedIff(c: Setup, own: nat -> int)
    requires Ok(c) && HostsInRange(c.p)
    ensures NetworkAsExpected(c, own) <==>
              Short(c) == 0 || DrainCovers(c) || NoAggregators(c.p.slots[CutSlot(c)])
  {
    if Short(c) == 0 || DrainCovers(c) {
      forall node: nat | node < c.p.n ensures AlwaysAsExpected(Of(c, own, node)) { OneNodeIff(c, own, node); }
    } else {
      NoAggregatorsIff(c);
      forall node: nat ensures AlwaysAsExpected(Of(c, own, node)) <==> DrawsNone(c, node) { OneNodeIff(c, own, node); }
    }
  }

  ghost predicate NetworkAsExpected(c: Setup, own: nat -> int) {
    forall node: nat :: node < c.p.n ==> AlwaysAsExpected(Of(c, own, node))
  }

  lemma OneNodeIff(c: Setup, own: nat -> int, node: nat)
    requires Ok(c)
    ensures AlwaysAsExpected(Of(c, own, node)) <==> Short(c) == 0 || DrainCovers(c) || DrawsNone(c, node)
  {
    NodePublishesExpectedIff(Of(c, own, node));
  }

  lemma NoAggregatorsIff(c: Setup)
    requires Ok(c) && HostsInRange(c.p) && 0 < Short(c)
    ensures NoAggregators(c.p.slots[CutSlot(c)]) <==> forall node: nat :: node < c.p.n ==> DrawsNone(c, node)
  {
    var sp := c.p.slots[CutSlot(c)];
    assert sp in c.p.slots;
    if s: nat :| s < |sp.finalityAggregators| && sp.finalityAggregators[s] != [] {
      var refs := sp.finalityAggregators[s];
      assert refs in sp.finalityAggregators;
      var r: AttesterRef := refs[0];
      assert r in refs && FA.HostsRef(refs, r.node);
      assert !DrawsNone(c, r.node);
    }
  }

  // ---------------------------------------------------------------- two inputs

  const DRAWN := [[AttesterRef(0, 0, 0, 0)]]

  // Five slots of ten units, four to a round, an aggregator drawn at both boundaries; the drain is
  // one slot.
  function FiveSlots(fraction: nat): Setup {
    var draws := (slot: int) => if slot % 4 == 0 then DRAWN else [];
    var slots := seq(5, slot => SlotPlan(slot, [], [], draws(slot)));
    Setup(Plan(1, 1, 4, [0], [], [], slots), 0, 0, false, 10, 1, fraction, 10)
  }

  lemma FiveSlotsFacts(fraction: nat)
    requires 5 <= fraction < 100
    ensures var c := FiveSlots(fraction);
            && Ok(c) && Short(c) == 1 && FA.Draws(c.p, 1, 0, 0) && !DrawsNone(c, 0)
            && AggOffset(c) == fraction * 40 / 100 && SlotStart(c, 1) == 10
  {
    var c := FiveSlots(fraction);
    assert c.p.slots[4].finalityAggregators == DRAWN;
    assert FA.HostsRef(DRAWN[0], 0) by { assert AttesterRef(0, 0, 0, 0) in DRAWN[0]; }
    assert FR.First(10, 1) == FR.First(10, 0) + 10;
    assert DRAWN[0] in c.p.slots[4].finalityAggregators;
    assert c.fraction * K(c) * c.slotDur == fraction * 40;
  }

  /** At 90% the second round's deadline falls after the close: the plan draws its aggregate, and no
      run publishes it. */
  lemma CutShortLosesAnAggregate(es: seq<Event>)
    requires Complete(FiveSlots(90), es)
    ensures FA.Draws(FiveSlots(90).p, 1, 0, 0) && (1, 0, 0) !in End(FiveSlots(90), es).aggregates
    ensures !AlwaysAsExpected(FiveSlots(90))
  {
    var c := FiveSlots(90);
    FiveSlotsFacts(90);
    AggregatePublishedOnce(c, es, (1, 0, 0));
    FR.FirstIsMultiple(4, 1);
    FirstAdds(10, 4, 1);
    NodePublishesExpectedIff(c);
  }

  /** At 40% the same round is cut short before its deadline and still publishes, in the drain. */
  lemma CutShortPublishesInTheDrain()
    ensures Ok(FiveSlots(40)) && AlwaysAsExpected(FiveSlots(40))
    ensures AggOffset(FiveSlots(40)) > SlotStart(FiveSlots(40), Short(FiveSlots(40)))
  {
    FiveSlotsFacts(40);
    NodePublishesExpectedIff(FiveSlots(40));
  }

  // ---------------------------------------------------------------- the two bursts, in place

  // emitFinalityVotes: one message per duty, or the local votes and then the fan-out map in its order,
  // which is returned too.
  method EmitFinalityVotes(c: Setup, n: nat, duties: seq<Duty>) returns (sent: seq<Cast>, order: seq<int>)
    ensures ListsForeign(order, duties, c.own) && sent == Burst(c, n, duties, order)
  {
    sent, order := [], ForeignOrder(duties, c.own);
    ForeignOrderLists(duties, c.own);
    if !c.partial {
      for i := 0 to |duties|
        invariant sent == Messages(n, duties)[..i]
      {
        sent := sent + [Message(n, duties[i].subnet, duties[i].val)];
      }
      return;
    }
    var local, fanout := FR.SplitVotes(duties, c.own);
    for i := 0 to |local|
      invariant sent == Locals(n, c.own, local)[..i]
    {
      sent := sent + [Local(n, c.own, local[i])];
    }
    order := [];
    var left := fanout.Keys;
    while left != {}
      invariant left <= fanout.Keys && FR.Distinct(order) && forall s :: s in order <==> s in fanout.Keys && s !in left
      invariant sent == Locals(n, c.own, local) + Fanouts(n, duties, order)
    {
      var s :| s in left;
      FanoutsExtend(n, duties, order, s);
      sent := sent + [Fanout(n, s, fanout[s])];
      order := order + [s];
      left := left - {s};
    }
  }

  lemma FanoutsExtend(n: nat, duties: seq<Duty>, order: seq<int>, s: int)
    ensures Fanouts(n, duties, order + [s]) == Fanouts(n, duties, order) + [Fanout(n, s, FR.PositionsOn(duties, s))]
  {
  }

  method EmitFinalityAggregate(n: nat, node: nat, subnets: seq<nat>) returns (sent: seq<Published>)
    ensures sent == AggregateBurst(n, node, subnets)
  {
    sent := [];
    for i := 0 to |subnets|
      invariant sent == AggregateBurst(n, node, subnets)[..i]
    {
      sent := sent + [(n, subnets[i], node)];
    }
  }
}
