/** The network state of the finality rounds in driver/runner.go: a round registers what it is about
    to set up, then subscribes and dials; its teardown spares whatever another registered round
    lists; reaping forgets it.  Rounds overlap: round n + 1 is set up while round n is torn down. */
module FinalityTeardown {

  type Topic = int

  // What prejoinFinality sets up for one round: the topics it subscribes only to aggregate, and the
  // peers it dials for votes and for aggregation together.
  datatype Round = Round(topics: set<Topic>, peers: set<int>)

  // `rounds` holds every round ever registered, `live` the keys of the finals map; `done` the
  // rounds whose once-guarded teardown has run and `joined` those whose pre-join has finished.
  datatype State = State(rounds: map<nat, Round>, live: set<nat>, joined: set<nat>, done: set<nat>,
                         topics: set<Topic>, peers: set<int>)

  datatype Event = Register(n: nat, round: Round) | Join(n: nat) | Drop(n: nat) | Reap(n: nat)

  // The long-lived half of the node: its own topics and its stable peers.
  datatype Stable = Stable(topics: set<Topic>, peers: set<int>)

  function Init(stable: Stable): State { State(map[], {}, {}, {}, stable.topics, stable.peers) }

  predicate Enabled(stable: Stable, s: State, e: Event) {
    match e
    case Register(n, round) => n !in s.rounds && round.topics !! stable.topics && round.peers !! stable.peers
    case Join(n) => n in s.rounds && n !in s.joined
    case Drop(n) => n in s.rounds
    case Reap(n) => n in s.live && n in s.rounds
  }

  // Everything the live rounds other than n list.
  function KeptTopics(s: State, n: nat): set<Topic> {
    set m, t | m in s.live && m != n && m in s.rounds && t in s.rounds[m].topics :: t
  }

  function KeptPeers(s: State, n: nat): set<int> {
    set m, p | m in s.live && m != n && m in s.rounds && p in s.rounds[m].peers :: p
  }

  function DropRound(s: State, n: nat): State
    requires n in s.rounds
  {
    if n in s.done then s
    else s.(done := s.done + {n},
            topics := s.topics - (s.rounds[n].topics - KeptTopics(s, n)),
            peers := s.peers - (s.rounds[n].peers - KeptPeers(s, n)))
  }

  // Some live round other than n lists it.
  predicate ListedElsewhere(s: State, n: nat, t: Topic) { exists m <- s.live :: m != n && m in s.rounds && t in s.rounds[m].topics }

  predicate PeerListedElsewhere(s: State, n: nat, p: int) { exists m <- s.live :: m != n && m in s.rounds && p in s.rounds[m].peers }

  /** A round's first teardown takes away exactly what it lists and no other live round does; a second
      one takes nothing. */
  lemma TeardownIsExact(s: State, n: nat, t: Topic, p: int)
    requires n in s.rounds
    ensures var d := DropRound(s, n);
            && d.rounds == s.rounds && d.live == s.live && d.joined == s.joined && d.done == s.done + {n}
            && (n in s.done ==> d.topics == s.topics && d.peers == s.peers)
            && (n !in s.done ==>
                  && (t in d.topics <==> t in s.topics && (t in s.rounds[n].topics ==> ListedElsewhere(s, n, t)))
                  && (p in d.peers <==> p in s.peers && (p in s.rounds[n].peers ==> PeerListedElsewhere(s, n, p))))
  {
    if n in s.done { assert s.done + {n} == s.done; }
    assert t in KeptTopics(s, n) <==> ListedElsewhere(s, n, t);
    assert p in KeptPeers(s, n) <==> PeerListedElsewhere(s, n, p);
  }

  function Next(stable: Stable, s: State, e: Event): State
    requires Enabled(stable, s, e)
  {
    match e
    case Register(n, round) => s.(rounds := s.rounds[n := round], live := s.live + {n})
    case Join(n) => s.(joined := s.joined + {n},
                       topics := s.topics + s.rounds[n].topics, peers := s.peers + s.rounds[n].peers)
    case Drop(n) => DropRound(s, n)
    case Reap(n) => DropRound(s.(live := s.live - {n}), n)
  }

  predicate IsRun(stable: Stable, s: State, es: seq<Event>)
    decreases |es|
  {
    es == [] || (Enabled(stable, s, es[0]) && IsRun(stable, Next(stable, s, es[0]), es[1..]))
  }

  function After(stable: Stable, s: State, es: seq<Event>): State
    requires IsRun(stable, s, es)
    decreases |es|
  {
    if es == [] then s else After(stable, Next(stable, s, es[0]), es[1..])
  }

  // ---------------------------------------------------------------- safety, in any order

  predicate Inv(stable: Stable, s: State) {
    && s.live <= s.rounds.Keys && s.joined <= s.rounds.Keys && s.done <= s.rounds.Keys
    && s.rounds.Keys <= s.live + s.done
    && stable.topics <= s.topics && stable.peers <= s.peers
    && (forall n <- s.rounds :: s.rounds[n].topics !! stable.topics && s.rounds[n].peers !! stable.peers)
    && (forall n <- s.joined :: n !in s.done ==> s.rounds[n].topics <= s.topics && s.rounds[n].peers <= s.peers)
  }

  lemma DropKeepsInv(stable: Stable, s: State, n: nat)
    requires Inv(stable, s) || (n in s.rounds && n !in s.live && Inv(stable, s.(live := s.live + {n})))
    requires n in s.rounds
    ensures Inv(stable, DropRound(s, n))
  {
    var after := DropRound(s, n);
    forall m | m in s.joined && m !in after.done
      ensures s.rounds[m].topics <= after.topics && s.rounds[m].peers <= after.peers
    {
      if n !in s.done {
        assert m in s.live && m != n;
        forall t | t in s.rounds[m].topics ensures t in KeptTopics(s, n) { }
        forall p | p in s.rounds[m].peers ensures p in KeptPeers(s, n) { }
      }
    }
  }

  lemma StepKeepsInv(stable: Stable, s: State, e: Event)
    requires Inv(stable, s) && Enabled(stable, s, e)
    ensures Inv(stable, Next(stable, s, e))
  {
    match e
    case Drop(n) => DropKeepsInv(stable, s, n);
    case Reap(n) =>
      assert s.(live := s.live - {n}).(live := s.live - {n} + {n}) == s by { assert s.live - {n} + {n} == s.live; }
      DropKeepsInv(stable, s.(live := s.live - {n}), n);
    case _ =>
  }

  lemma {:induction false} RunKeepsInv(stable: Stable, s: State, es: seq<Event>)
    requires Inv(stable, s) && IsRun(stable, s, es)
    ensures Inv(stable, After(stable, s, es))
    decreases |es|
  {
    if es != [] {
      StepKeepsInv(stable, s, es[0]);
      RunKeepsInv(stable, Next(stable, s, es[0]), es[1..]);
    }
  }

  /** For any number of rounds and any order of their steps: a round that has finished its pre-join
      and is not yet torn down keeps every topic and peer it set up, and the node's own topics and
      stable peers are never lost. */
  lemma TeardownSparesLiveRounds(stable: Stable, es: seq<Event>, n: nat)
    requires IsRun(stable, Init(stable), es)
    ensures var s := After(stable, Init(stable), es);
            && stable.topics <= s.topics && stable.peers <= s.peers
            && (n in s.joined && n !in s.done ==>
                  n in s.rounds && s.rounds[n].topics <= s.topics && s.rounds[n].peers <= s.peers)
  {
    RunKeepsInv(stable, Init(stable), es);
  }

  // ---------------------------------------------------------------- nothing is left behind

  // What the rounds still to be torn down list.
  function PendingTopics(s: State): set<Topic> {
    set m, t | m in s.live && m !in s.done && m in s.rounds && t in s.rounds[m].topics :: t
  }

  function PendingPeers(s: State): set<int> {
    set m, p | m in s.live && m !in s.done && m in s.rounds && p in s.rounds[m].peers :: p
  }

  predicate Tight(stable: Stable, s: State) {
    s.topics <= stable.topics + PendingTopics(s) && s.peers <= stable.peers + PendingPeers(s)
  }

  // The order the slot clock gives: a round joins before it is torn down, and when a round is torn
  // down every round torn down before it has been reaped.
  predicate Orderly(s: State, e: Event) {
    match e
    case Register(_, _) => true
    case Join(n) => n in s.live && n !in s.done
    case Drop(n) => n in s.joined && s.live * s.done <= {n}
    case Reap(n) => n in s.joined && s.live * s.done <= {n}
  }

  predicate OrderlyRun(stable: Stable, s: State, es: seq<Event>)
    requires IsRun(stable, s, es)
    decreases |es|
  {
    es == [] || (Orderly(s, es[0]) && OrderlyRun(stable, Next(stable, s, es[0]), es[1..]))
  }

  lemma StepStaysTight(stable: Stable, s: State, e: Event)
    requires Inv(stable, s) && Tight(stable, s) && Enabled(stable, s, e) && Orderly(s, e)
    ensures Tight(stable, Next(stable, s, e))
  {
    var after := Next(stable, s, e);
    forall t | t in after.topics && t !in stable.topics ensures t in PendingTopics(after) {
      if t in s.topics {
        var m :| m in s.live && m !in s.done && m in s.rounds && t in s.rounds[m].topics;
        assert m in after.rounds && after.rounds[m] == s.rounds[m];
        if m !in after.live || m in after.done {
          assert t in KeptTopics(if e.Reap? then s.(live := s.live - {e.n}) else s, e.n);
        }
      }
    }
    forall p | p in after.peers && p !in stable.peers ensures p in PendingPeers(after) {
      if p in s.peers {
        var m :| m in s.live && m !in s.done && m in s.rounds && p in s.rounds[m].peers;
        assert m in after.rounds && after.rounds[m] == s.rounds[m];
        if m !in after.live || m in after.done {
          assert p in KeptPeers(if e.Reap? then s.(live := s.live - {e.n}) else s, e.n);
        }
      }
    }
  }

  lemma {:induction false} RunStaysTight(stable: Stable, s: State, es: seq<Event>)
    requires Inv(stable, s) && Tight(stable, s) && IsRun(stable, s, es) && OrderlyRun(stable, s, es)
    ensures Tight(stable, After(stable, s, es)) && Inv(stable, After(stable, s, es))
    decreases |es|
  {
    if es != [] {
      StepKeepsInv(stable, s, es[0]);
      StepStaysTight(stable, s, es[0]);
      RunStaysTight(stable, Next(stable, s, es[0]), es[1..]);
    }
  }

  /** On every orderly run nothing outlives its round: once every registered round is reaped the
      node is subscribed to exactly its own topics and connected to exactly its stable peers. */
  lemma OrderlyRunsEndStable(stable: Stable, es: seq<Event>)
    requires IsRun(stable, Init(stable), es) && OrderlyRun(stable, Init(stable), es)
    requires After(stable, Init(stable), es).live == {}
    ensures var s := After(stable, Init(stable), es); s.topics == stable.topics && s.peers == stable.peers
  {
    RunStaysTight(stable, Init(stable), es);
  }

  /** A teardown leaves something that no round still to be torn down accounts for exactly when it
      spares a topic or peer that only rounds already torn down, and not yet reaped, still list. */
  lemma LeakExactlyWhen(stable: Stable, s: State, n: nat)
    requires Inv(stable, s) && Tight(stable, s) && n in s.joined && n in s.live && n !in s.done
    ensures Tight(stable, DropRound(s, n)) <==>
              (s.rounds[n].topics * KeptTopics(s, n) <= PendingTopics(DropRound(s, n))
               && s.rounds[n].peers * KeptPeers(s, n) <= PendingPeers(DropRound(s, n)))
  {
    var after := DropRound(s, n);
    forall t | t in after.topics && t !in stable.topics && t !in PendingTopics(after)
      ensures t in s.rounds[n].topics * KeptTopics(s, n)
    {
      var m :| m in s.live && m !in s.done && m in s.rounds && t in s.rounds[m].topics;
      assert m == n || (m in after.live && m !in after.done);
    }
    forall p | p in after.peers && p !in stable.peers && p !in PendingPeers(after)
      ensures p in s.rounds[n].peers * KeptPeers(s, n)
    {
      var m :| m in s.live && m !in s.done && m in s.rounds && p in s.rounds[m].peers;
      assert m == n || (m in after.live && m !in after.done);
    }
    forall t | t in s.rounds[n].topics * KeptTopics(s, n) ensures t in after.topics && t !in stable.topics { }
    forall p | p in s.rounds[n].peers * KeptPeers(s, n) ensures p in after.peers && p !in stable.peers { }
  }

  // Kept though neither the node itself nor any round still to be torn down needs it.
  predicate StrayTopic(stable: Stable, s: State, t: Topic) {
    t in s.topics && t !in stable.topics && t !in PendingTopics(s)
  }

  predicate StrayPeer(stable: Stable, s: State, p: int) {
    p in s.peers && p !in stable.peers && p !in PendingPeers(s)
  }

  predicate Lists(e: Event, t: Topic) { e.Register? && t in e.round.topics }

  predicate ListsPeer(e: Event, p: int) { e.Register? && p in e.round.peers }

  // Only a registration brings a new topic or peer to be torn down.
  lemma PendingOnlyRegisters(stable: Stable, s: State, e: Event)
    requires Enabled(stable, s, e)
    ensures forall t <- PendingTopics(Next(stable, s, e)) :: t in PendingTopics(s) || Lists(e, t)
    ensures forall p <- PendingPeers(Next(stable, s, e)) :: p in PendingPeers(s) || ListsPeer(e, p)
  {
  }

  // What a teardown takes away was still to be torn down.
  lemma OnlyPendingIsDropped(stable: Stable, s: State, e: Event)
    requires Inv(stable, s) && Enabled(stable, s, e)
    ensures s.topics - Next(stable, s, e).topics <= PendingTopics(s)
    ensures s.peers - Next(stable, s, e).peers <= PendingPeers(s)
  {
    if (e.Drop? || e.Reap?) && e.n !in s.done {
      assert e.n in s.live && e.n in s.rounds;
      forall t <- s.rounds[e.n].topics ensures t in PendingTopics(s) { }
      forall p <- s.rounds[e.n].peers ensures p in PendingPeers(s) { }
    }
  }

  lemma StepKeepsStray(stable: Stable, s: State, e: Event, t: Topic)
    requires Inv(stable, s) && Enabled(stable, s, e) && StrayTopic(stable, s, t) && !Lists(e, t)
    ensures StrayTopic(stable, Next(stable, s, e), t)
  {
    PendingOnlyRegisters(stable, s, e);
    OnlyPendingIsDropped(stable, s, e);
  }

  lemma StepKeepsStrayPeer(stable: Stable, s: State, e: Event, p: int)
    requires Inv(stable, s) && Enabled(stable, s, e) && StrayPeer(stable, s, p) && !ListsPeer(e, p)
    ensures StrayPeer(stable, Next(stable, s, e), p)
  {
    PendingOnlyRegisters(stable, s, e);
    OnlyPendingIsDropped(stable, s, e);
  }

  /** What a teardown left behind stays subscribed or connected along every continuation in which no
      round listing it is registered, whatever else is set up, torn down and reaped. */
  lemma {:induction false} LeakLastsUntilListed(stable: Stable, s: State, es: seq<Event>, t: Topic, p: int)
    requires Inv(stable, s) && IsRun(stable, s, es)
    ensures StrayTopic(stable, s, t) && (forall e <- es :: !Lists(e, t)) ==> StrayTopic(stable, After(stable, s, es), t)
    ensures StrayPeer(stable, s, p) && (forall e <- es :: !ListsPeer(e, p)) ==> StrayPeer(stable, After(stable, s, es), p)
    decreases |es|
  {
    if es != [] {
      StepKeepsInv(stable, s, es[0]);
      if StrayTopic(stable, s, t) && !Lists(es[0], t) { StepKeepsStray(stable, s, es[0], t); }
      if StrayPeer(stable, s, p) && !ListsPeer(es[0], p) { StepKeepsStrayPeer(stable, s, es[0], p); }
      LeakLastsUntilListed(stable, Next(stable, s, es[0]), es[1..], t, p);
    }
  }

  // Round n is registered, holds on to t, and is not torn down.
  predicate Holds(s: State, n: nat, t: Topic) { n in s.rounds && t in s.rounds[n].topics && n !in s.done && t in s.topics }

  predicate HoldsPeer(s: State, n: nat, p: int) { n in s.rounds && p in s.rounds[n].peers && n !in s.done && p in s.peers }

  predicate Ends(e: Event, n: nat) { (e.Drop? || e.Reap?) && e.n == n }

  // Until its own teardown nothing takes from a live round what the node has of its list.
  lemma {:induction false} HeldUntilItsEnd(stable: Stable, s: State, es: seq<Event>, n: nat, t: Topic, p: int)
    requires Inv(stable, s) && IsRun(stable, s, es) && forall e <- es :: !Ends(e, n)
    ensures Holds(s, n, t) ==> Holds(After(stable, s, es), n, t)
    ensures HoldsPeer(s, n, p) ==> HoldsPeer(After(stable, s, es), n, p)
    decreases |es|
  {
    if es != [] {
      var e := es[0];
      assert e in es;
      StepKeepsInv(stable, s, e);
      if (e.Drop? || e.Reap?) && n in s.rounds && n !in s.done {
        var during := if e.Reap? then s.(live := s.live - {e.n}) else s;
        assert n in during.live;
        if t in s.rounds[n].topics { assert t in KeptTopics(during, e.n); }
        if p in s.rounds[n].peers { assert p in KeptPeers(during, e.n); }
      }
      HeldUntilItsEnd(stable, Next(stable, s, e), es[1..], n, t, p);
    }
  }

  /** The leak ends with a later round: once a round listing it has been registered, and whatever
      happens up to that round's own teardown, the teardown releases it exactly if no other live round
      lists it then. */
  lemma LaterRoundReleases(stable: Stable, s: State, n: nat, round: Round, es: seq<Event>, t: Topic, p: int)
    requires Inv(stable, s) && Enabled(stable, s, Register(n, round))
    requires IsRun(stable, Next(stable, s, Register(n, round)), es) && forall e <- es :: !Ends(e, n)
    ensures var mid := After(stable, Next(stable, s, Register(n, round)), es);
            && Enabled(stable, mid, Drop(n))
            && (t in round.topics * s.topics ==> (t in Next(stable, mid, Drop(n)).topics <==> t in KeptTopics(mid, n)))
            && (p in round.peers * s.peers ==> (p in Next(stable, mid, Drop(n)).peers <==> p in KeptPeers(mid, n)))
  {
    var first := Next(stable, s, Register(n, round));
    StepKeepsInv(stable, s, Register(n, round));
    assert n !in first.done;
    HeldUntilItsEnd(stable, first, es, n, t, p);
    RoundKept(stable, first, es, n);
    if t in round.topics * s.topics { assert Holds(first, n, t); }
    if p in round.peers * s.peers { assert HoldsPeer(first, n, p); }
  }

  lemma {:induction false} RoundKept(stable: Stable, s: State, es: seq<Event>, n: nat)
    requires IsRun(stable, s, es) && n in s.rounds
    ensures n in After(stable, s, es).rounds && After(stable, s, es).rounds[n] == s.rounds[n]
    decreases |es|
  {
    if es != [] { RoundKept(stable, Next(stable, s, es[0]), es[1..], n); }
  }

  const SHARED := Round({9}, {})
  const LEAKED := State(map[0 := SHARED, 1 := SHARED], {}, {0, 1}, {0, 1}, {1, 9}, {})

  /** Two overlapping rounds on one topic, each torn down before either is reaped, leak it. */
  lemma OverlappingTeardownsLeak()
    ensures var stable := Stable({1}, {});
            var es := [Register(0, SHARED), Join(0), Register(1, SHARED), Join(1), Drop(0), Drop(1), Reap(0), Reap(1)];
            && IsRun(stable, Init(stable), es)
            && After(stable, Init(stable), es) == LEAKED
            && LEAKED.live == {} && StrayTopic(stable, LEAKED, 9)
  {
    var stable := Stable({1}, {});
    var s0 := Init(stable);
    var s1 := Next(stable, s0, Register(0, SHARED));
    var s2 := Next(stable, s1, Join(0));
    var s3 := Next(stable, s2, Register(1, SHARED));
    var s4 := Next(stable, s3, Join(1));
    assert 9 in KeptTopics(s4, 0) by { assert 1 in s4.live; }
    var s5 := Next(stable, s4, Drop(0));
    assert 9 in s5.topics;
    assert 9 in KeptTopics(s5, 1) by { assert 0 in s5.live; }
    var s6 := Next(stable, s5, Drop(1));
    assert 9 in s6.topics;
    var s7 := Next(stable, s6, Reap(0));
    var s8 := Next(stable, s7, Reap(1));
    assert s8.live == {} && s8.topics == {1, 9} && s8.rounds == LEAKED.rounds;
    var es := [Register(0, SHARED), Join(0), Register(1, SHARED), Join(1), Drop(0), Drop(1), Reap(0), Reap(1)];
    Unfold(stable, s7, Reap(1), [], s8);
    Unfold(stable, s6, Reap(0), [Reap(1)], s8);
    Unfold(stable, s5, Drop(1), [Reap(0), Reap(1)], s8);
    Unfold(stable, s4, Drop(0), [Drop(1), Reap(0), Reap(1)], s8);
    Unfold(stable, s3, Join(1), [Drop(0), Drop(1), Reap(0), Reap(1)], s8);
    Unfold(stable, s2, Register(1, SHARED), [Join(1), Drop(0), Drop(1), Reap(0), Reap(1)], s8);
    Unfold(stable, s1, Join(0), [Register(1, SHARED), Join(1), Drop(0), Drop(1), Reap(0), Reap(1)], s8);
    Unfold(stable, s0, Register(0, SHARED), [Join(0), Register(1, SHARED), Join(1), Drop(0), Drop(1), Reap(0), Reap(1)], s8);
    assert es == [Register(0, SHARED)] + [Join(0), Register(1, SHARED), Join(1), Drop(0), Drop(1), Reap(0), Reap(1)];
  }

  /** A third round on the topic then takes the leak away with its own teardown. */
  lemma ThirdRoundReleasesTheLeak()
    ensures var stable := Stable({1}, {});
            var es := [Register(2, SHARED), Join(2), Drop(2), Reap(2)];
            && IsRun(stable, LEAKED, es)
            && After(stable, LEAKED, es).topics == stable.topics && After(stable, LEAKED, es).live == {}
  {
    var stable := Stable({1}, {});
    var s1 := Next(stable, LEAKED, Register(2, SHARED));
    var s2 := Next(stable, s1, Join(2));
    assert KeptTopics(s2, 2) == {};
    var s3 := Next(stable, s2, Drop(2));
    var s4 := Next(stable, s3, Reap(2));
    assert s4.live == {} && s4.topics == {1};
    Unfold(stable, s3, Reap(2), [], s4);
    Unfold(stable, s2, Drop(2), [Reap(2)], s4);
    Unfold(stable, s1, Join(2), [Drop(2), Reap(2)], s4);
    Unfold(stable, LEAKED, Register(2, SHARED), [Join(2), Drop(2), Reap(2)], s4);
    assert [Register(2, SHARED), Join(2), Drop(2), Reap(2)] == [Register(2, SHARED)] + [Join(2), Drop(2), Reap(2)];
  }

  lemma Unfold(stable: Stable, s: State, e: Event, rest: seq<Event>, end: State)
    requires Enabled(stable, s, e) && IsRun(stable, Next(stable, s, e), rest)
    requires After(stable, Next(stable, s, e), rest) == end
    ensures IsRun(stable, s, [e] + rest) && After(stable, s, [e] + rest) == end
  {
    assert ([e] + rest)[1..] == rest;
  }
}
