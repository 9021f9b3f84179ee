/** One tick of the partial-message manager (node/partial.go), exactly, and when validated positions
    are advertised: once to each peer a heartbeat chose, and never otherwise. */
module PartialTicks {
  import opened PartialBucket
  import opened PartialManager
  import opened PartialSafety
  import opened PartialWire
  import opened PartialNetwork
  import opened PartialRecovery
  import opened PartialEffects
  import opened PartialOnce

  // ---------------------------------------------------------------- one tick

  /** What a tick believes afterwards, wants afterwards and counts is what it sent: a position enters
      the belief about a peer exactly when a message to that peer carries it; a served peer's wants are
      forgotten and nobody else's; the forward count grows by the messages sent; no vote and no other
      group moves. */
  lemma TickExact(cfg: Config, m: Manager, key: Key, flags: PeerStates, accepts: set<Peer>, c: Choice, d: Data, p: Peer, pos: nat)
    requires PartialSafety.Inv(cfg, m) && TickOk(m, key, flags, c)
    ensures var (n, outs) := (Tick(cfg, m, key, flags, accepts, c), Emitted(cfg, m, key, flags, accepts, c));
            var (was, b) := (At(m, key, d), At(n, key, d));
            && (pos in PeerOf(b, p).available <==> pos in PeerOf(was, p).available || SendsTo(outs, p, d, pos))
            && PeerOf(b, p).pendingWant ==
                 (if p in c.turns && !Silent(m, key) && d in m.groups[key].buckets then {} else PeerOf(was, p).pendingWant)
            && Count(b.sendCount, pos) == Count(was.sendCount, pos) + Copies(outs, d, pos)
            && SameVotes(was, b) && TickLeaves(m, n, key)
  {
    TickCounts(cfg, m, key, flags, accepts, c, d, pos);
    TickBelief(cfg, m, key, flags, accepts, c, d, p, pos);
    TickFrame(cfg, m, key, flags, accepts, c, d);
    if !Silent(m, key) { TickWants(cfg.caps, m.groups[key], flags, accepts, c, d, p); }
  }

  // Only the group ticked may differ, and it keeps its width and its seal.
  ghost predicate TickLeaves(m: Manager, n: Manager, key: Key) {
    && n == m.(groups := n.groups) && n.groups.Keys == m.groups.Keys
    && (forall k <- m.groups :: k != key ==> n.groups[k] == m.groups[k])
    && (key in m.groups ==> n.groups[key].sealed == m.groups[key].sealed && n.groups[key].size == m.groups[key].size)
  }

  ghost predicate SameVotes(b: Bucket, n: Bucket) {
    n.held == b.held && n.validated == b.validated && n.validating == b.validating && n.local == b.local
  }

  lemma TickGroupVotes(caps: Caps, g: Group, flags: PeerStates, accepts: set<Peer>, c: Choice, d: Data)
    ensures SameVotes(BucketOf(g, d), BucketOf(TickGroup(caps, g, flags, accepts, c), d))
  {
    if d in g.buckets {
      AskAllFacts(caps, g.size, g.buckets[d], AskOrder(c.asks, d));
      ServeAllFacts(caps, AskAll(caps, g.buckets[d], AskOrder(c.asks, d), g.size), Gossips(flags), accepts, c.turns);
    }
  }

  lemma TickFrame(cfg: Config, m: Manager, key: Key, flags: PeerStates, accepts: set<Peer>, c: Choice, d: Data)
    ensures var n := Tick(cfg, m, key, flags, accepts, c);
            SameVotes(At(m, key, d), At(n, key, d)) && TickLeaves(m, n, key)
  {
    if !Silent(m, key) { TickGroupVotes(cfg.caps, m.groups[key], flags, accepts, c, d); }
  }

  lemma TickBelief(cfg: Config, m: Manager, key: Key, flags: PeerStates, accepts: set<Peer>, c: Choice, d: Data, p: Peer, pos: nat)
    requires PartialSafety.Inv(cfg, m) && TickOk(m, key, flags, c)
    ensures var (n, outs) := (Tick(cfg, m, key, flags, accepts, c), Emitted(cfg, m, key, flags, accepts, c));
            pos in PeerOf(At(n, key, d), p).available <==> pos in PeerOf(At(m, key, d), p).available || SendsTo(outs, p, d, pos)
  {
    var n, outs := Tick(cfg, m, key, flags, accepts, c), Emitted(cfg, m, key, flags, accepts, c);
    if SendsTo(outs, p, d, pos) {
      SentIsSettled(cfg, m, key, flags, accepts, c, d, p, pos);
    } else if pos in PeerOf(At(m, key, d), p).available {
      if !Silent(m, key) { TickOnward(cfg.caps, m.groups[key], flags, accepts, c, d); }
    } else if pos in PeerOf(At(n, key, d), p).available {
      ClaimedIsSent(cfg, m, key, flags, accepts, c, d, p, pos);
    }
  }

  lemma TickWants(caps: Caps, g: Group, flags: PeerStates, accepts: set<Peer>, c: Choice, d: Data, p: Peer)
    ensures PeerOf(BucketOf(TickGroup(caps, g, flags, accepts, c), d), p).pendingWant ==
            if p in c.turns && d in g.buckets then {} else PeerOf(BucketOf(g, d), p).pendingWant
  {
    if d in g.buckets {
      AskAllFacts(caps, g.size, g.buckets[d], AskOrder(c.asks, d));
      ServeAllFacts(caps, AskAll(caps, g.buckets[d], AskOrder(c.asks, d), g.size), Gossips(flags), accepts, c.turns);
    }
  }

  lemma TurnServes(caps: Caps, g: Group, flags: PeerStates, accepts: set<Peer>, c: Choice, i: nat, d: Data, pos: nat)
    requires GroupOk(caps, g) && IsTurn(g, flags, c, i) && c.turns[i] in accepts && d in g.buckets
    requires var (b, p) := (g.buckets[d], c.turns[i]);
             pos in b.validated && pos !in PeerOf(b, p).available && (flags[p].gossip ==> pos in PeerOf(b, p).pendingWant)
    ensures CarriedPos(OutAt(caps, g, flags, accepts, c, i).batches, d, pos)
            || Count(BucketOf(TickGroup(caps, g, flags, accepts, c), d).sendCount, pos) >= caps.maxPeers
  {
    var b := BeforeTurn(caps, g, flags, accepts, c, i, d);
    BeforeTurnFacts(caps, g, flags, accepts, c, i, d);
    BeliefBeforeTurn(caps, g, flags, accepts, c, i, d);
    OutCarries(caps, g, flags, accepts, c, i, d, pos);
    if Count(b.sendCount, pos) >= caps.maxPeers { LaterTurnsCount(caps, g, flags, accepts, c, i, d, pos); }
  }

  lemma {:induction false} LaterServing(caps: Caps, b: Bucket, gossips: set<Peer>, accepts: set<Peer>, order: seq<Peer>, i: nat, pos: nat)
    requires i <= |order|
    ensures Count(ServeAll(caps, b, gossips, accepts, order[..i]).sendCount, pos)
            <= Count(ServeAll(caps, b, gossips, accepts, order).sendCount, pos)
  {
    if i == |order| {
      assert order[..i] == order;
    } else {
      var front, last := order[..|order| - 1], order[|order| - 1];
      assert front[..i] == order[..i];
      LaterServing(caps, b, gossips, accepts, front, i, pos);
      ServeGrows(caps, ServeAll(caps, b, gossips, accepts, front), last, last in gossips, last in accepts, last, pos);
    }
  }

  lemma LaterTurnsCount(caps: Caps, g: Group, flags: PeerStates, accepts: set<Peer>, c: Choice, i: nat, d: Data, pos: nat)
    requires i <= |c.turns| && d in g.buckets
    ensures Count(BeforeTurn(caps, g, flags, accepts, c, i, d).sendCount, pos)
            <= Count(BucketOf(TickGroup(caps, g, flags, accepts, c), d).sendCount, pos)
  {
    var asked := AskAll(caps, g.buckets[d], AskOrder(c.asks, d), g.size);
    BeforeTurnIs(caps, g, flags, accepts, c, i, d);
    LaterServing(caps, asked, Gossips(flags), accepts, c.turns, i, pos);
  }

  /** No peer is passed over: in a tick whose turn for a peer came, every validated position the peer is
      not believed to hold, and asked for if it is a gossip peer, is sent to it, unless its forward
      budget is used up. */
  lemma TickServesAll(cfg: Config, m: Manager, key: Key, flags: PeerStates, accepts: set<Peer>, c: Choice, d: Data, p: Peer, pos: nat)
    requires Shapes(cfg, m) && !Silent(m, key) && TickOk(m, key, flags, c) && p in c.turns && p in accepts
    requires pos in At(m, key, d).validated && pos !in PeerOf(At(m, key, d), p).available
    requires flags[p].gossip ==> pos in PeerOf(At(m, key, d), p).pendingWant
    ensures SendsTo(Emitted(cfg, m, key, flags, accepts, c), p, d, pos)
            || Count(At(Tick(cfg, m, key, flags, accepts, c), key, d).sendCount, pos) >= cfg.caps.maxPeers
  {
    var g := m.groups[key];
    var i :| 0 <= i < |c.turns| && c.turns[i] == p;
    TurnServes(cfg.caps, g, flags, accepts, c, i, d, pos);
    OutsAll(cfg.caps, g, flags, accepts, c, |c.turns|, i);
    var out := OutAt(cfg.caps, g, flags, accepts, c, i);
    assert out.to == p;
    if CarriedPos(out.batches, d, pos) {
      var batch :| batch in out.batches && batch.data == d && pos in batch.positions;
      assert out in Emitted(cfg, m, key, flags, accepts, c);
    }
  }

  // ---------------------------------------------------------------- peer states

  predicate Armed(flags: PeerStates, p: Peer) { p in flags && flags[p].armed }

  predicate Gossiping(flags: PeerStates, p: Peer) { p in flags && flags[p].gossip }

  predicate SaysSomething(rpc: Rpc) {
    rpc.metadatas.Parsed? && exists md <- rpc.metadatas.items :: md.available != {} || md.requests != {}
  }

  /** An RPC marks its sender, and only it, a gossip peer, when a metadata of it that is let in says
      anything; it arms nobody and disarms nobody. */
  lemma HearingMarksTheSender(cfg: Config, m: Manager, flags: PeerStates, from: Peer, rpc: Rpc, p: Peer)
    requires Shapes(cfg, m)
    ensures var n := FlagsAfter(cfg, m, flags, from, rpc);
            && (Armed(n, p) <==> Armed(flags, p))
            && (p != from ==> (p in n <==> p in flags) && (p in flags ==> n[p] == flags[p]))
            && (Gossiping(n, p) <==>
                  Gossiping(flags, p) || (p == from && rpc.topic.PartialTopic? && SaysSomething(rpc) && rpc.batches.Parsed?
                   && !Below(m, KeyOf(rpc)) && cfg.sizeOf(KeyOf(rpc)) > 0))
  {
  }

  /** After a tick exactly the gossip peers it served have left the peer states; everyone else stays as
      it was.  A heartbeat marks and arms exactly the peers it chose, unless gossip is off. */
  lemma ServedGossipPeersLeave(cfg: Config, m: Manager, key: Key, flags: PeerStates, c: Choice, chosen: set<Peer>, p: Peer)
    ensures var n := FlagsAfterTick(m, key, flags, c);
            && (p in n <==> p in flags && (Silent(m, key) || p !in c.turns || !flags[p].gossip))
            && (p in n ==> n[p] == flags[p])
    ensures var n := EmitGossip(cfg, flags, chosen);
            && (Armed(n, p) <==> Armed(flags, p) || (p in chosen && !cfg.disableGossip))
            && (Gossiping(n, p) <==> Gossiping(flags, p) || (p in chosen && !cfg.disableGossip))
            && (p in n <==> p in flags || (p in chosen && !cfg.disableGossip))
  {
  }

  // ---------------------------------------------------------------- advertised once a heartbeat

  datatype SideEvent =
    | Beat(chosen: set<Peer>)
    | Hear(from: Peer, rpc: Rpc)
    | TickSide(accepts: set<Peer>, choice: Choice)
    | Other(event: Event)

  ghost predicate SideCan(cfg: Config, s: Side, key: Key, e: SideEvent) {
    match e
    case TickSide(_, choice) => TickOk(s.m, key, s.flags, choice)
    case Other(event) => Enabled(cfg, s.m, event) && !event.Incoming?
    case _ => true
  }

  // The manager with one group's peer states; the ticks of other groups are Other.
  ghost function SideNext(cfg: Config, s: Side, key: Key, e: SideEvent): Side
    requires SideCan(cfg, s, key, e)
  {
    match e
    case Beat(chosen) => s.(flags := EmitGossip(cfg, s.flags, chosen))
    case Hear(from, rpc) => Side(Receive(cfg, s.m, from, rpc).0, FlagsAfter(cfg, s.m, s.flags, from, rpc))
    case TickSide(accepts, choice) => Ticked(cfg, s, key, Tock(accepts, choice))
    case Other(event) => s.(m := Next(cfg, s.m, event))
  }

  ghost predicate IsSideRun(cfg: Config, s: Side, key: Key, es: seq<SideEvent>)
    decreases |es|
  {
    es == [] || (SideCan(cfg, s, key, es[0]) && IsSideRun(cfg, SideNext(cfg, s, key, es[0]), key, es[1..]))
  }

  ghost predicate TellsNothing(outs: seq<Out>, p: Peer) {
    forall out <- outs, md <- out.metadatas :: out.to == p ==> md.available == {}
  }

  // Until a heartbeat chooses the peer, no tick of the run advertises anything to it.
  ghost predicate QuietUntilChosen(cfg: Config, s: Side, key: Key, es: seq<SideEvent>, p: Peer)
    requires IsSideRun(cfg, s, key, es)
    decreases |es|
  {
    es == [] || (es[0].Beat? && p in es[0].chosen && !cfg.disableGossip) ||
    ((es[0].TickSide? ==> TellsNothing(Emitted(cfg, s.m, key, s.flags, es[0].accepts, es[0].choice), p))
     && QuietUntilChosen(cfg, SideNext(cfg, s, key, es[0]), key, es[1..], p))
  }

  lemma UnarmedTellsNothing(cfg: Config, s: Side, key: Key, accepts: set<Peer>, c: Choice, p: Peer)
    requires Shapes(cfg, s.m) && TickOk(s.m, key, s.flags, c) && !Armed(s.flags, p)
    ensures TellsNothing(Emitted(cfg, s.m, key, s.flags, accepts, c), p)
  {
    forall out <- Emitted(cfg, s.m, key, s.flags, accepts, c), md <- out.metadatas | out.to == p ensures md.available == {} {
      var i := OutsOnly(cfg.caps, s.m.groups[key], s.flags, accepts, c, |c.turns|, out);
      OutAtFacts(cfg.caps, s.m.groups[key], s.flags, accepts, c, i);
    }
  }

  // Arming is gossiping, in every state that starts with no peer known.
  predicate ArmedGossip(flags: PeerStates) { forall p <- flags :: flags[p].armed ==> flags[p].gossip }

  lemma SideStepKeeps(cfg: Config, s: Side, key: Key, e: SideEvent)
    requires PartialSafety.Inv(cfg, s.m) && ArmedGossip(s.flags) && SideCan(cfg, s, key, e)
    ensures PartialSafety.Inv(cfg, SideNext(cfg, s, key, e).m) && ArmedGossip(SideNext(cfg, s, key, e).flags)
  {
    match e
    case Beat(_) =>
    case Hear(from, rpc) => ReceiveKeeps(cfg, s.m, from, rpc);
    case TickSide(accepts, choice) => TickKeeps(cfg, s.m, key, s.flags, accepts, choice);
    case Other(event) => StepKeepsInv(cfg, s.m, event);
  }

  lemma {:induction false} UnarmedStaysQuiet(cfg: Config, s: Side, key: Key, es: seq<SideEvent>, p: Peer)
    requires PartialSafety.Inv(cfg, s.m) && ArmedGossip(s.flags) && IsSideRun(cfg, s, key, es) && !Armed(s.flags, p)
    ensures QuietUntilChosen(cfg, s, key, es, p)
    decreases |es|
  {
    if es != [] && !(es[0].Beat? && p in es[0].chosen && !cfg.disableGossip) {
      SideStepKeeps(cfg, s, key, es[0]);
      if es[0].TickSide? { UnarmedTellsNothing(cfg, s, key, es[0].accepts, es[0].choice, p); }
      UnarmedStaysQuiet(cfg, SideNext(cfg, s, key, es[0]), key, es[1..], p);
    }
  }

  /** Available is advertised once a heartbeat: after a tick that served a peer, whatever is heard,
      published, verified or ticked next, no tick advertises a position to that peer until a heartbeat
      chooses it again; and with gossip off none ever does. */
  lemma AdvertisedOnce(cfg: Config, s: Side, key: Key, tick: SideEvent, es: seq<SideEvent>, p: Peer)
    requires PartialSafety.Inv(cfg, s.m) && ArmedGossip(s.flags)
    requires tick.TickSide? && SideCan(cfg, s, key, tick) && p in tick.choice.turns && !Silent(s.m, key)
    requires IsSideRun(cfg, SideNext(cfg, s, key, tick), key, es)
    ensures QuietUntilChosen(cfg, SideNext(cfg, s, key, tick), key, es, p)
  {
    SideStepKeeps(cfg, s, key, tick);
    UnarmedStaysQuiet(cfg, SideNext(cfg, s, key, tick), key, es, p);
  }

  /** An armed gossip peer whose turn comes is told every validated position. */
  lemma ArmedIsTold(cfg: Config, m: Manager, key: Key, flags: PeerStates, accepts: set<Peer>, c: Choice, p: Peer, d: Data)
    requires Shapes(cfg, m) && !Silent(m, key) && TickOk(m, key, flags, c) && p in c.turns && flags[p] == Flags(true, true)
    requires At(m, key, d).validated != {}
    ensures exists out <- Emitted(cfg, m, key, flags, accepts, c), md <- out.metadatas ::
              out.to == p && md.data == d && md.available == At(m, key, d).validated
  {
    var g := m.groups[key];
    var i :| 0 <= i < |c.turns| && c.turns[i] == p;
    var out := OutAt(cfg.caps, g, flags, accepts, c, i);
    MetasToFacts(cfg.caps, g, c, p, true, c.orders[i]);
    OutAtFacts(cfg.caps, g, flags, accepts, c, i);
    OutsAll(cfg.caps, g, flags, accepts, c, |c.turns|, i);
    assert c.orders[i] in c.orders && d in c.orders[i];
    var md :| md in out.metadatas && md.data == d;
    assert Tells(BucketOf(g, d), p, true, g.size, md);
    assert out in Emitted(cfg, m, key, flags, accepts, c);
  }
}
