/** Gossip recovery between two partial-message managers (node/partial.go): a heartbeat and a tick at
    a, a tick at b, a tick at a and b's verifier leave everything a had validated validated at b,
    unless a budget is used up. */
module PartialRecovery {
  import opened PartialBucket
  import opened PartialManager
  import opened PartialSafety
  import opened PartialWire
  import opened PartialNetwork

  // ---------------------------------------------------------------- what hearing an RPC achieves

  ghost predicate Asks(mds: seq<Metadata>, d: Data, pos: nat) {
    exists md <- mds :: md.data == d && pos in md.requests
  }

  // What the receiver remembers about the sender in one bucket.
  ghost predicate Remembers(b: Bucket, from: Peer, mds: seq<Metadata>, d: Data, size: nat) {
    forall pos: nat :: pos < size ==>
      && (Told(mds, d, pos) ==> pos in PeerOf(b, from).available)
      && (Asks(mds, d, pos) ==> pos in PeerOf(b, from).pendingWant)
  }

  ghost predicate KeepsPeers(b: Bucket, n: Bucket, size: nat) {
    forall p: Peer :: PeerOf(b, p).available <= PeerOf(n, p).available && PeerOf(b, p).pendingWant <= PeerOf(n, p).pendingWant
  }

  lemma {:induction false} HearAllRemembers(g: Group, from: Peer, mds: seq<Metadata>, d: Data)
    ensures var n := HearAll(g, from, mds);
            && n.size == g.size && Remembers(BucketOf(n, d), from, mds, d, g.size)
            && g.buckets.Keys <= n.buckets.Keys && forall md <- mds :: md.data in n.buckets
  {
    if mds != [] {
      var front, last := mds[..|mds| - 1], mds[|mds| - 1];
      HearAllRemembers(g, from, front, d);
      WidthCovers(g.size);
      forall pos: nat | pos < g.size
        ensures Told(mds, d, pos) ==> pos in PeerOf(BucketOf(HearAll(g, from, mds), d), from).available
        ensures Asks(mds, d, pos) ==> pos in PeerOf(BucketOf(HearAll(g, from, mds), d), from).pendingWant
      {
        if Told(mds, d, pos) {
          var md :| md in mds && md.data == d && pos in md.available;
          assert md == last || Told(front, d, pos);
        }
        if Asks(mds, d, pos) {
          var md :| md in mds && md.data == d && pos in md.requests;
          assert md == last || Asks(front, d, pos);
        }
      }
      assert forall md <- mds :: md in front || md == last;
    }
  }

  lemma {:induction false} TakeAllKeepsPeers(g: Group, from: Peer, batches: seq<Batch>, d: Data)
    ensures var n := TakeAll(g, from, batches).group;
            KeepsPeers(BucketOf(g, d), BucketOf(n, d), g.size) && g.buckets.Keys <= n.buckets.Keys
  {
    if batches != [] {
      var front, batch := TakeAll(g, from, batches[..|batches| - 1]), batches[|batches| - 1];
      TakeAllKeepsPeers(g, from, batches[..|batches| - 1], d);
      if !front.outcome.Failed? && !CheckBatch(front.group.size, batch).Failed? {
        AddReceivedFacts(BucketOf(front.group, batch.data), batch.positions, batch.sigs);
      }
    }
  }

  // An RPC that is let in is remembered, and its buckets exist.
  lemma ReceiveRemembers(cfg: Config, m: Manager, from: Peer, rpc: Rpc, d: Data)
    requires Shapes(cfg, m) && !Early(cfg, m, rpc).0
    ensures var (key, n) := (KeyOf(rpc), Receive(cfg, m, from, rpc).0);
            && key in n.groups && n.groups[key].sealed == GroupOf(cfg, m, key).sealed
            && Remembers(At(n, key, d), from, rpc.metadatas.items, d, cfg.sizeOf(key))
            && ((exists md <- rpc.metadatas.items :: md.data == d) ==> d in n.groups[key].buckets)
  {
    var key := KeyOf(rpc);
    var g := GroupOf(cfg, m, key);
    var heard := HearAll(g, from, rpc.metadatas.items);
    GroupOfOk(cfg, m, key);
    HearAllRemembers(g, from, rpc.metadatas.items, d);
    TakeAllKeepsPeers(heard, from, rpc.batches.items, d);
    TakenFromFacts(cfg, m, from, rpc);
  }

  // Receiving leaves what a bucket has validated, sent and asked for.
  lemma ReceiveLeaves(cfg: Config, m: Manager, from: Peer, rpc: Rpc, key: Key, d: Data)
    requires Shapes(cfg, m)
    ensures OnlyReceived(At(m, key, d), At(Receive(cfg, m, from, rpc).0, key, d))
    ensures Receive(cfg, m, from, rpc).0.floor == m.floor
  {
    if !Early(cfg, m, rpc).0 { TakenFromFacts(cfg, m, from, rpc); }
  }

  // ---------------------------------------------------------------- a tick with one peer

  // The whole tick ran, with p the only peer.
  ghost predicate OneTurn(flags: PeerStates, c: Choice, p: Peer) {
    flags.Keys == {p} && c.turns == [p]
  }

  lemma AllTheSame<T(!new)>(order: seq<T>, p: T)
    requires |order| > 1 && forall x :: x in order ==> x == p
    ensures !Distinct(order)
  {
    assert order[0] in order && order[1] in order;
    assert order[0] == order[1];
  }

  lemma OnlyOne<T(!new)>(order: seq<T>, p: T)
    requires Lists(order, {p})
    ensures order == [p]
  {
    if |order| > 1 { AllTheSame(order, p); }
    assert p in order;
  }

  lemma AskOne(caps: Caps, b: Bucket, p: Peer, size: nat, order: seq<Peer>)
    requires Lists(order, {p})
    ensures AskAll(caps, b, order, size) == Ask(caps, b, p, size)
    ensures WantsOf(caps, b, order, p, size) == Wanted(caps, b, p, size)
  {
    OnlyOne(order, p);
    assert order[..0] == [];
  }

  lemma ServeOne(caps: Caps, b: Bucket, gossips: set<Peer>, accepts: set<Peer>, p: Peer)
    ensures ServeAll(caps, b, gossips, accepts, [p]) == Serve(caps, b, p, p in gossips, p in accepts)
  {
    assert [p][..0] == [];
  }

  lemma AskOnlyRequests(caps: Caps, b: Bucket, order: seq<Peer>, size: nat)
    ensures var n := AskAll(caps, b, order, size);
            && n == b.(requestCount := n.requestCount, peers := n.peers)
            && forall p: Peer :: PeerOf(n, p) == PeerOf(b, p)
  {
    AskAllFacts(caps, size, b, order);
  }

  // A position the tick's only peer did not get keeps its forward count.
  lemma UnclaimedCount(cfg: Config, m: Manager, key: Key, flags: PeerStates, accepts: set<Peer>, c: Choice, d: Data, p: Peer, pos: nat)
    requires OneTurn(flags, c, p)
    requires pos !in PeerOf(At(Tick(cfg, m, key, flags, accepts, c), key, d), p).available
    ensures var b := At(m, key, d);
            && Count(At(Tick(cfg, m, key, flags, accepts, c), key, d).sendCount, pos) == Count(b.sendCount, pos)
            && At(Tick(cfg, m, key, flags, accepts, c), key, d).validated == b.validated
  {
    if !Silent(m, key) && d in m.groups[key].buckets {
      var b := m.groups[key].buckets[d];
      var asked := AskAll(cfg.caps, b, AskOrder(c.asks, d), m.groups[key].size);
      AskOnlyRequests(cfg.caps, b, AskOrder(c.asks, d), m.groups[key].size);
      ServeOne(cfg.caps, asked, Gossips(flags), accepts, p);
    }
  }

  lemma OneTurnOut(cfg: Config, m: Manager, key: Key, flags: PeerStates, accepts: set<Peer>, c: Choice, p: Peer)
    requires TickOk(m, key, flags, c) && OneTurn(flags, c, p)
    ensures |Emitted(cfg, m, key, flags, accepts, c)| <= 1
    ensures !Silent(m, key) ==>
              var out := OutAt(cfg.caps, m.groups[key], flags, accepts, c, 0);
              Emitted(cfg, m, key, flags, accepts, c) == (if out.metadatas == [] && out.batches == [] then [] else [out])
  {
    if !Silent(m, key) { assert Outs(cfg.caps, m.groups[key], flags, accepts, c, 0) == []; }
  }

  // ---------------------------------------------------------------- the three legs

  // A heartbeat's tick advertises what is validated.
  lemma FirstTick(cfg: Config, m: Manager, key: Key, flags: PeerStates, accepts: set<Peer>, c: Choice, p: Peer, d: Data, pos: nat)
    requires Shapes(cfg, m) && TickOk(m, key, flags, c) && OneTurn(flags, c, p) && flags[p] == Flags(true, true)
    requires key in m.groups && !m.groups[key].sealed && pos in At(m, key, d).validated
    ensures var outs := Emitted(cfg, m, key, flags, accepts, c);
            |outs| == 1 && outs[0].to == p && Told(outs[0].metadatas, d, pos)
  {
    var g := m.groups[key];
    OneTurnOut(cfg, m, key, flags, accepts, c, p);
    MetasToFacts(cfg.caps, g, c, p, true, c.orders[0]);
    assert c.orders[0] in c.orders && d in c.orders[0];
    var out := OutAt(cfg.caps, g, flags, accepts, c, 0);
    var md :| md in out.metadatas && md.data == d;
    assert Tells(BucketOf(g, d), p, true, g.size, md);
  }

  lemma WantedIsAsked(caps: Caps, g: Group, flags: PeerStates, c: Choice, p: Peer, d: Data, pos: nat)
    requires ValidChoice(g, flags, c) && OneTurn(flags, c, p) && flags[p].gossip && d in g.buckets
    requires pos in Wanted(caps, g.buckets[d], p, g.size)
    ensures Asks(MetasTo(caps, g, c.asks, p, flags[p].armed, c.orders[0]), d, pos)
  {
    MetasToFacts(caps, g, c, p, flags[p].armed, c.orders[0]);
    assert c.orders[0] in c.orders && d in c.orders[0];
    assert Gossips(flags) == {p};
    AskOne(caps, g.buckets[d], p, g.size, c.asks[d]);
    var md :| md in MetasTo(caps, g, c.asks, p, flags[p].armed, c.orders[0]) && md.data == d;
  }

  // A tick asks a gossip peer for what it advertises and this node lacks.
  lemma WantTick(cfg: Config, m: Manager, key: Key, flags: PeerStates, accepts: set<Peer>, c: Choice, p: Peer, d: Data, pos: nat)
    requires Shapes(cfg, m) && TickOk(m, key, flags, c) && OneTurn(flags, c, p) && flags[p].gossip
    requires key in m.groups && !m.groups[key].sealed && d in m.groups[key].buckets && pos < cfg.sizeOf(key)
    requires pos in PeerOf(At(m, key, d), p).available && pos !in At(m, key, d).held
    requires Count(At(m, key, d).requestCount, pos) < cfg.caps.maxIWant
    ensures var outs := Emitted(cfg, m, key, flags, accepts, c);
            |outs| == 1 && outs[0].to == p && Asks(outs[0].metadatas, d, pos)
  {
    OneTurnOut(cfg, m, key, flags, accepts, c, p);
    WantedIsAsked(cfg.caps, m.groups[key], flags, c, p, d, pos);
  }

  // A tick sends a peer what it asked for, under the forward cap.
  lemma ServeTick(cfg: Config, m: Manager, key: Key, flags: PeerStates, accepts: set<Peer>, c: Choice, p: Peer, d: Data, pos: nat)
    requires Shapes(cfg, m) && TickOk(m, key, flags, c) && OneTurn(flags, c, p) && p in accepts
    requires key in m.groups && !m.groups[key].sealed && pos in At(m, key, d).validated
    requires pos !in PeerOf(At(m, key, d), p).available && pos in PeerOf(At(m, key, d), p).pendingWant
    requires Count(At(m, key, d).sendCount, pos) < cfg.caps.maxPeers
    ensures var outs := Emitted(cfg, m, key, flags, accepts, c);
            |outs| == 1 && outs[0].to == p && CarriedPos(outs[0].batches, d, pos)
  {
    var g := m.groups[key];
    OneTurnOut(cfg, m, key, flags, accepts, c, p);
    AskOnlyRequests(cfg.caps, g.buckets[d], AskOrder(c.asks, d), g.size);
    assert BeforeTurn(cfg.caps, g, flags, accepts, c, 0, d) == AskAll(cfg.caps, g.buckets[d], AskOrder(c.asks, d), g.size);
    ServedIsInTheOut(cfg.caps, g, flags, accepts, c, 0, d, pos);
  }

  // ---------------------------------------------------------------- the conversation

  // One node's manager, with the extension's peer states for the group.
  datatype Side = Side(m: Manager, flags: PeerStates)
  datatype Tock = Tock(accepts: set<Peer>, choice: Choice)

  // The tick ran to its end: every peer had its turn.
  ghost predicate Complete(s: Side, key: Key, k: Tock) {
    TickOk(s.m, key, s.flags, k.choice) && Lists(k.choice.turns, s.flags.Keys)
  }

  function Heartbeat(cfg: Config, s: Side, p: Peer): Side { s.(flags := EmitGossip(cfg, s.flags, {p})) }

  function Ticked(cfg: Config, s: Side, key: Key, k: Tock): Side {
    Side(Tick(cfg, s.m, key, s.flags, k.accepts, k.choice), FlagsAfterTick(s.m, key, s.flags, k.choice))
  }

  ghost function Says(cfg: Config, s: Side, key: Key, k: Tock): seq<Out>
    requires Complete(s, key, k)
  {
    Emitted(cfg, s.m, key, s.flags, k.accepts, k.choice)
  }

  // Receiving, in order, what was sent to this node.
  function Hears(cfg: Config, s: Side, from: Peer, to: Peer, key: Key, outs: seq<Out>): Side {
    if outs == [] then s
    else
      var front, out := Hears(cfg, s, from, to, key, outs[..|outs| - 1]), outs[|outs| - 1];
      if out.to != to then front
      else Side(Receive(cfg, front.m, from, RpcOf(key, out)).0,
                FlagsAfter(cfg, front.m, front.flags, from, RpcOf(key, out)))
  }

  // The verifier calls back everything it was given, in order.
  function Drain(m: Manager): Manager
    decreases |m.pending|
  {
    if m.pending == [] then m else Drain(CallBack(m, 0))
  }

  // a's heartbeat and tick heard by b; b's tick heard by a; a's tick heard by b; b's verifier.
  datatype Talk = Talk(cfg: Config, key: Key, a: Peer, b: Peer, first: Side, second: Side, k1: Tock, k2: Tock, k3: Tock)

  function A1(t: Talk): Side { Heartbeat(t.cfg, t.first, t.b) }
  function A2(t: Talk): Side { Ticked(t.cfg, A1(t), t.key, t.k1) }
  ghost function B1(t: Talk): Side
    requires Complete(A1(t), t.key, t.k1)
  {
    Hears(t.cfg, t.second, t.a, t.b, t.key, Says(t.cfg, A1(t), t.key, t.k1))
  }
  ghost function B2(t: Talk): Side
    requires Complete(A1(t), t.key, t.k1)
  {
    Ticked(t.cfg, B1(t), t.key, t.k2)
  }
  ghost function A3(t: Talk): Side
    requires Complete(A1(t), t.key, t.k1) && Complete(B1(t), t.key, t.k2)
  {
    Hears(t.cfg, A2(t), t.b, t.a, t.key, Says(t.cfg, B1(t), t.key, t.k2))
  }
  ghost function B3(t: Talk): Side
    requires Complete(A1(t), t.key, t.k1) && Complete(B1(t), t.key, t.k2) && Complete(A3(t), t.key, t.k3)
  {
    Hears(t.cfg, B2(t), t.a, t.b, t.key, Says(t.cfg, A3(t), t.key, t.k3))
  }

  ghost predicate Happens(t: Talk) {
    && Complete(A1(t), t.key, t.k1) && Complete(B1(t), t.key, t.k2) && Complete(A3(t), t.key, t.k3)
    && t.b in t.k1.accepts && t.b in t.k3.accepts
  }

  // The starting point: nothing in flight, so what a believes b to hold, b holds; the group is open
  // on both sides; each knows only the other.
  ghost predicate MayTalk(t: Talk) {
    var (m, n) := (t.first.m, t.second.m);
    && PartialSafety.Inv(t.cfg, m) && PartialSafety.Inv(t.cfg, n) && t.a != t.b && !t.cfg.disableGossip
    && t.first.flags.Keys <= {t.b} && t.second.flags.Keys <= {t.a}
    && t.key in m.groups && !m.groups[t.key].sealed && !Below(m, t.key) && !Below(n, t.key)
    && !GroupOf(t.cfg, n, t.key).sealed
    && forall d: Data, pos: nat :: pos in PeerOf(At(m, t.key, d), t.b).available ==> pos in At(n, t.key, d).held
  }

  // ---------------------------------------------------------------- the proof, leg by leg

  lemma HearsOne(cfg: Config, s: Side, from: Peer, to: Peer, key: Key, outs: seq<Out>)
    requires |outs| == 1 && outs[0].to == to
    ensures Hears(cfg, s, from, to, key, outs) ==
            Side(Receive(cfg, s.m, from, RpcOf(key, outs[0])).0, FlagsAfter(cfg, s.m, s.flags, from, RpcOf(key, outs[0])))
  {
    assert outs[..0] == [];
  }

  lemma {:induction false} HearsKeeps(cfg: Config, s: Side, from: Peer, to: Peer, key: Key, outs: seq<Out>, d: Data)
    requires PartialSafety.Inv(cfg, s.m)
    ensures var n := Hears(cfg, s, from, to, key, outs);
            && PartialSafety.Inv(cfg, n.m) && n.m.floor == s.m.floor
            && Grows(At(s.m, key, d), At(n.m, key, d)) && OnlyReceived(At(s.m, key, d), At(n.m, key, d))
  {
    if outs != [] {
      var front, out := Hears(cfg, s, from, to, key, outs[..|outs| - 1]), outs[|outs| - 1];
      HearsKeeps(cfg, s, from, to, key, outs[..|outs| - 1], d);
      if out.to == to {
        ReceiveKeeps(cfg, front.m, from, RpcOf(key, out));
        ReceiveLeaves(cfg, front.m, from, RpcOf(key, out), key, d);
        ReceiveAdds(cfg, front.m, from, RpcOf(key, out), key, d);
      }
    }
  }

  lemma TickedKeeps(cfg: Config, s: Side, key: Key, k: Tock, d: Data)
    requires PartialSafety.Inv(cfg, s.m)
    ensures var n := Ticked(cfg, s, key, k);
            && PartialSafety.Inv(cfg, n.m) && n.m.floor == s.m.floor
            && At(n.m, key, d).held == At(s.m, key, d).held
  {
    TickKeeps(cfg, s.m, key, s.flags, k.accepts, k.choice);
    TickEffect(cfg, s.m, key, s.flags, k.accepts, k.choice, key, d);
  }

  lemma {:induction false} DrainKeeps(cfg: Config, m: Manager, key: Key, d: Data)
    requires PartialSafety.Inv(cfg, m)
    ensures PartialSafety.Inv(cfg, Drain(m)) && Drain(m).pending == [] && Drain(m).floor == m.floor
    ensures At(Drain(m), key, d).held == At(m, key, d).held
    decreases |m.pending|
  {
    if m.pending != [] {
      CallBackKeeps(cfg, m, 0);
      CallBackFires(m, 0, key, d, 0);
      PromoteFacts(At(m, key, d), m.pending[0].work.positions);
      DrainKeeps(cfg, CallBack(m, 0), key, d);
    }
  }

  // With nothing left at the verifier, everything held is validated.
  lemma DrainedIsValidated(cfg: Config, m: Manager, key: Key, d: Data, pos: nat)
    requires PartialSafety.Inv(cfg, m) && m.pending == [] && !Below(m, key) && pos in At(m, key, d).held
    ensures pos in At(m, key, d).validated
  {
    assert Queued(m.pending, key, d, pos) == Bit(pos in At(m, key, d).validating);
    assert key in m.groups && d in m.groups[key].buckets;
  }

  lemma CommitteeBound(cfg: Config, m: Manager, key: Key, d: Data, pos: nat)
    requires Shapes(cfg, m) && pos in At(m, key, d).held
    ensures pos < cfg.sizeOf(key)
  {
    assert key in m.groups && d in m.groups[key].buckets;
  }

  // One packet with metadata for the bucket, heard by its addressee.
  lemma HeardMetadata(cfg: Config, s: Side, from: Peer, to: Peer, key: Key, outs: seq<Out>, d: Data)
    requires PartialSafety.Inv(cfg, s.m) && !Below(s.m, key)
    requires |outs| == 1 && outs[0].to == to && WellFormed(cfg, RpcOf(key, outs[0]))
    requires exists md <- outs[0].metadatas :: md.data == d && (md.available != {} || md.requests != {})
    ensures var n := Hears(cfg, s, from, to, key, outs);
            && key in n.m.groups && n.m.groups[key].sealed == GroupOf(cfg, s.m, key).sealed
            && d in n.m.groups[key].buckets
            && Remembers(At(n.m, key, d), from, outs[0].metadatas, d, cfg.sizeOf(key))
            && n.flags.Keys == s.flags.Keys + {from} && n.flags[from].gossip
  {
    var rpc := RpcOf(key, outs[0]);
    HearsOne(cfg, s, from, to, key, outs);
    assert KeyOf(rpc) == key && !Early(cfg, s.m, rpc).0;
    ReceiveRemembers(cfg, s.m, from, rpc, d);
  }

  // One well-formed packet with the position, heard by its addressee.
  lemma HeardBatch(cfg: Config, s: Side, from: Peer, to: Peer, key: Key, outs: seq<Out>, d: Data, pos: nat)
    requires PartialSafety.Inv(cfg, s.m) && !Below(s.m, key)
    requires |outs| == 1 && outs[0].to == to && WellFormed(cfg, RpcOf(key, outs[0])) && CarriedPos(outs[0].batches, d, pos)
    ensures pos in At(Hears(cfg, s, from, to, key, outs).m, key, d).held
  {
    HearsOne(cfg, s, from, to, key, outs);
    assert KeyOf(RpcOf(key, outs[0])) == key;
    ReceiveStores(cfg, s.m, from, RpcOf(key, outs[0]), d, pos);
  }

  // a's first tick advertises the position to b.
  lemma FirstSays(t: Talk, d: Data, pos: nat)
    requires MayTalk(t) && Happens(t) && pos in At(t.first.m, t.key, d).validated
    ensures var outs := Says(t.cfg, A1(t), t.key, t.k1);
            && |outs| == 1 && outs[0].to == t.b && Told(outs[0].metadatas, d, pos)
            && Backed(t.cfg, t.first.m, RpcOf(t.key, outs[0]))
            && A1(t).flags.Keys == {t.b} && OneTurn(A1(t).flags, t.k1.choice, t.b) && pos < t.cfg.sizeOf(t.key)
            && A2(t).flags == map[]
  {
    var cfg, key, s := t.cfg, t.key, A1(t);
    assert s.flags.Keys == {t.b} && s.flags[t.b] == Flags(true, true);
    OnlyOne(t.k1.choice.turns, t.b);
    FirstTick(cfg, s.m, key, s.flags, t.k1.accepts, t.k1.choice, t.b, d, pos);
    EmittedIsBacked(cfg, s.m, key, s.flags, t.k1.accepts, t.k1.choice, Says(cfg, s, key, t.k1)[0]);
    ValidatedHeld(cfg, s.m, key, d);
    CommitteeBound(cfg, s.m, key, d, pos);
  }

  // Leg one: b hears what a has validated, and a is a gossip peer there from now on.
  lemma LegOne(t: Talk, d: Data, pos: nat)
    requires MayTalk(t) && Happens(t) && pos in At(t.first.m, t.key, d).validated
    ensures var b1 := B1(t);
            && PartialSafety.Inv(t.cfg, b1.m) && !Below(b1.m, t.key)
            && b1.flags.Keys == {t.a} && b1.flags[t.a].gossip
            && t.key in b1.m.groups && !b1.m.groups[t.key].sealed && d in b1.m.groups[t.key].buckets
            && pos in PeerOf(At(b1.m, t.key, d), t.a).available
            && At(b1.m, t.key, d).requestCount == At(t.second.m, t.key, d).requestCount
  {
    var outs := Says(t.cfg, A1(t), t.key, t.k1);
    FirstSays(t, d, pos);
    HearsKeeps(t.cfg, t.second, t.a, t.b, t.key, outs, d);
    HeardMetadata(t.cfg, t.second, t.a, t.b, t.key, outs, d);
    assert Told(outs[0].metadatas, d, pos);
  }

  lemma InTheOnlyOut(outs: seq<Out>, p: Peer, d: Data, pos: nat)
    requires |outs| == 1
    requires exists out <- outs, batch <- out.batches :: out.to == p && batch.data == d && pos in batch.positions
    ensures CarriedPos(outs[0].batches, d, pos)
  {
    var out, batch :| out in outs && batch in out.batches && out.to == p && batch.data == d && pos in batch.positions;
    assert out == outs[0];
  }

  // A position a claims for b on its first tick, b holds.
  lemma ClaimedIsHeard(t: Talk, d: Data, pos: nat)
    requires MayTalk(t) && Happens(t) && pos in At(t.first.m, t.key, d).validated
    requires pos in PeerOf(At(A2(t).m, t.key, d), t.b).available
    ensures pos in At(B1(t).m, t.key, d).held
  {
    var outs := Says(t.cfg, A1(t), t.key, t.k1);
    FirstSays(t, d, pos);
    if pos in PeerOf(At(t.first.m, t.key, d), t.b).available {
      HearsKeeps(t.cfg, t.second, t.a, t.b, t.key, outs, d);
      assert Grows(At(t.second.m, t.key, d), At(B1(t).m, t.key, d));
    } else {
      ClaimedIsSent(t.cfg, A1(t).m, t.key, A1(t).flags, t.k1.accepts, t.k1.choice, d, t.b, pos);
      InTheOnlyOut(outs, t.b, d, pos);
      HeardBatch(t.cfg, t.second, t.a, t.b, t.key, outs, d, pos);
    }
  }

  // What a still owes b after its first tick, when b did not get the position.
  lemma StillOwed(t: Talk, d: Data, pos: nat)
    requires MayTalk(t) && Happens(t) && pos in At(t.first.m, t.key, d).validated
    requires pos !in At(B1(t).m, t.key, d).held
    ensures var b := At(A2(t).m, t.key, d);
            && pos !in PeerOf(b, t.b).available && pos in b.validated
            && Count(b.sendCount, pos) == Count(At(t.first.m, t.key, d).sendCount, pos)
  {
    FirstSays(t, d, pos);
    if pos in PeerOf(At(A2(t).m, t.key, d), t.b).available { ClaimedIsHeard(t, d, pos); }
    UnclaimedCount(t.cfg, A1(t).m, t.key, A1(t).flags, t.k1.accepts, t.k1.choice, d, t.b, pos);
  }

  lemma StaysOpen(cfg: Config, m: Manager, key: Key, flags: PeerStates, accepts: set<Peer>, c: Choice)
    requires key in m.groups
    ensures var n := Tick(cfg, m, key, flags, accepts, c);
            key in n.groups && n.groups[key].sealed == m.groups[key].sealed
  {
  }

  // b's tick asks a for the position.
  lemma SecondSays(t: Talk, d: Data, pos: nat)
    requires MayTalk(t) && Happens(t) && pos in At(t.first.m, t.key, d).validated
    requires pos !in At(B1(t).m, t.key, d).held
    requires Count(At(t.second.m, t.key, d).requestCount, pos) < t.cfg.caps.maxIWant
    ensures var outs := Says(t.cfg, B1(t), t.key, t.k2);
            && |outs| == 1 && outs[0].to == t.a && Asks(outs[0].metadatas, d, pos)
            && Backed(t.cfg, B1(t).m, RpcOf(t.key, outs[0]))
  {
    var s := B1(t);
    LegOne(t, d, pos);
    FirstSays(t, d, pos);
    OnlyOne(t.k2.choice.turns, t.a);
    WantTick(t.cfg, s.m, t.key, s.flags, t.k2.accepts, t.k2.choice, t.a, d, pos);
    EmittedIsBacked(t.cfg, s.m, t.key, s.flags, t.k2.accepts, t.k2.choice, Says(t.cfg, s, t.key, t.k2)[0]);
  }

  lemma OpenAfterFirst(t: Talk)
    requires MayTalk(t)
    ensures var m := A2(t).m;
            PartialSafety.Inv(t.cfg, m) && !Below(m, t.key) && t.key in m.groups && !m.groups[t.key].sealed
  {
    TickedKeeps(t.cfg, A1(t), t.key, t.k1, "");
    StaysOpen(t.cfg, A1(t).m, t.key, A1(t).flags, t.k1.accepts, t.k1.choice);
  }

  lemma RequestHeard(cfg: Config, s: Side, from: Peer, to: Peer, key: Key, outs: seq<Out>, d: Data, pos: nat)
    requires PartialSafety.Inv(cfg, s.m) && !Below(s.m, key) && s.flags == map[]
    requires key in s.m.groups && !s.m.groups[key].sealed && pos < cfg.sizeOf(key)
    requires |outs| == 1 && outs[0].to == to && WellFormed(cfg, RpcOf(key, outs[0])) && Asks(outs[0].metadatas, d, pos)
    ensures var n := Hears(cfg, s, from, to, key, outs);
            && n.flags.Keys == {from} && key in n.m.groups && !n.m.groups[key].sealed
            && pos in PeerOf(At(n.m, key, d), from).pendingWant
  {
    var md :| md in outs[0].metadatas && md.data == d && pos in md.requests;
    HeardMetadata(cfg, s, from, to, key, outs, d);
  }

  // Leg two: a remembers that b asks for the position.
  lemma LegTwo(t: Talk, d: Data, pos: nat)
    requires MayTalk(t) && Happens(t) && pos in At(t.first.m, t.key, d).validated
    requires pos !in At(B1(t).m, t.key, d).held
    requires Count(At(t.second.m, t.key, d).requestCount, pos) < t.cfg.caps.maxIWant
    ensures var a3 := A3(t);
            && a3.flags.Keys == {t.b} && t.key in a3.m.groups && !a3.m.groups[t.key].sealed
            && pos in PeerOf(At(a3.m, t.key, d), t.b).pendingWant
  {
    FirstSays(t, d, pos);
    SecondSays(t, d, pos);
    OpenAfterFirst(t);
    RequestHeard(t.cfg, A2(t), t.b, t.a, t.key, Says(t.cfg, B1(t), t.key, t.k2), d, pos);
  }

  // What b says to a neither settles nor changes what a owes for the position.
  lemma OwedThroughLegTwo(t: Talk, d: Data, pos: nat)
    requires MayTalk(t) && Happens(t) && pos in At(t.first.m, t.key, d).validated
    requires pos !in At(B1(t).m, t.key, d).held
    requires Count(At(t.second.m, t.key, d).requestCount, pos) < t.cfg.caps.maxIWant
    ensures var b := At(A3(t).m, t.key, d);
            && PartialSafety.Inv(t.cfg, A3(t).m)
            && pos !in PeerOf(b, t.b).available && pos in b.validated
            && Count(b.sendCount, pos) == Count(At(t.first.m, t.key, d).sendCount, pos)
  {
    var cfg, key := t.cfg, t.key;
    var outs := Says(cfg, B1(t), key, t.k2);
    StillOwed(t, d, pos);
    SecondSays(t, d, pos);
    HearsOne(cfg, A2(t), t.b, t.a, key, outs);
    TickedKeeps(cfg, A1(t), key, t.k1, d);
    HearsKeeps(cfg, A2(t), t.b, t.a, key, outs, d);
    if pos in PeerOf(At(A3(t).m, key, d), t.b).available {
      ReceiveBelief(cfg, A2(t).m, t.b, RpcOf(key, outs[0]), key, d, t.b, pos);
      if CarriedPos(outs[0].batches, d, pos) { var sig := CarriedWithSig(cfg, RpcOf(key, outs[0]), d, pos); }
      assert false;
    }
  }

  // Leg three: a sends the position, and b stores it.
  lemma LegThree(t: Talk, d: Data, pos: nat)
    requires MayTalk(t) && Happens(t) && pos in At(t.first.m, t.key, d).validated
    requires Count(At(t.first.m, t.key, d).sendCount, pos) < t.cfg.caps.maxPeers
    requires Count(At(t.second.m, t.key, d).requestCount, pos) < t.cfg.caps.maxIWant
    ensures PartialSafety.Inv(t.cfg, B3(t).m) && !Below(B3(t).m, t.key)
    ensures pos in At(B3(t).m, t.key, d).held
  {
    var cfg, key, s := t.cfg, t.key, A3(t);
    var outs := Says(cfg, s, key, t.k3);
    LegOne(t, d, pos);
    TickedKeeps(cfg, B1(t), key, t.k2, d);
    HearsKeeps(cfg, B2(t), t.a, t.b, key, outs, d);
    if pos !in At(B1(t).m, key, d).held {
      LegTwo(t, d, pos);
      OwedThroughLegTwo(t, d, pos);
      OnlyOne(t.k3.choice.turns, t.b);
      ServeTick(cfg, s.m, key, s.flags, t.k3.accepts, t.k3.choice, t.b, d, pos);
      EmittedIsBacked(cfg, s.m, key, s.flags, t.k3.accepts, t.k3.choice, outs[0]);
      HeardBatch(cfg, B2(t), t.a, t.b, key, outs, d, pos);
    }
  }

  /** Gossip recovery: from any state of two managers with sound beliefs and nothing in flight, after
      a's heartbeat and tick, b's tick, a's tick and b's verifier, every position a had validated is
      validated at b, except those whose forward budget at a or request budget at b was used up. */
  lemma Recovery(t: Talk, d: Data, pos: nat)
    requires MayTalk(t) && Happens(t) && pos in At(t.first.m, t.key, d).validated
    ensures || pos in At(Drain(B3(t).m), t.key, d).validated
            || Count(At(t.first.m, t.key, d).sendCount, pos) >= t.cfg.caps.maxPeers
            || Count(At(t.second.m, t.key, d).requestCount, pos) >= t.cfg.caps.maxIWant
  {
    if Count(At(t.first.m, t.key, d).sendCount, pos) < t.cfg.caps.maxPeers
       && Count(At(t.second.m, t.key, d).requestCount, pos) < t.cfg.caps.maxIWant {
      LegThree(t, d, pos);
      DrainKeeps(t.cfg, B3(t).m, t.key, d);
      DrainedIsValidated(t.cfg, Drain(B3(t).m), t.key, d, pos);
    }
  }

  // ---------------------------------------------------------------- such conversations exist

  lemma ListOf<T(!new)>(all: set<T>) returns (order: seq<T>)
    ensures Lists(order, all)
    decreases all
  {
    if x :| x in all {
      var front := ListOf(all - {x});
      order := front + [x];
    } else {
      order := [];
    }
  }

  lemma AskOrders(keys: set<Data>, order: seq<Peer>) returns (asks: map<Data, seq<Peer>>)
    ensures forall d <- keys :: d in asks && asks[d] == order
  {
    asks := map d | d in keys :: order;
  }

  // Some iteration order always exists, and a tick can always run to its end.
  lemma SomeTock(s: Side, key: Key, p: Peer) returns (k: Tock)
    ensures Complete(s, key, k) && p in k.accepts
  {
    var turns := ListOf(s.flags.Keys);
    if Silent(s.m, key) {
      k := Tock({p}, Choice(map[], turns, []));
    } else {
      var gossips := ListOf(Gossips(s.flags));
      var order := ListOf(s.m.groups[key].buckets.Keys);
      var asks := AskOrders(s.m.groups[key].buckets.Keys, gossips);
      k := Tock({p}, Choice(asks, turns, seq(|turns|, _ => order)));
    }
  }

  lemma SomeTalk(cfg: Config, key: Key, a: Peer, b: Peer, first: Side, second: Side) returns (t: Talk)
    ensures Happens(t)
    ensures t == Talk(cfg, key, a, b, first, second, t.k1, t.k2, t.k3)
  {
    var none := Tock({}, Choice(map[], [], []));
    t := Talk(cfg, key, a, b, first, second, none, none, none);
    var k1 := SomeTock(A1(t), key, b);
    t := t.(k1 := k1);
    var k2 := SomeTock(B1(t), key, a);
    t := t.(k2 := k2);
    var k3 := SomeTock(A3(t), key, b);
    t := t.(k3 := k3);
  }

  /** One vote published at a fresh node reaches a fresh peer through gossip alone, for every kind,
      position and pair of positive budgets: the conversation exists, and ends with it validated. */
  lemma OneVoteReaches(cfg: Config, key: Key, a: Peer, b: Peer, pos: nat, sig: Sig, d: Data) returns (t: Talk)
    requires a != b && !cfg.disableGossip && pos < cfg.sizeOf(key) && cfg.caps.maxPeers > 0 && cfg.caps.maxIWant > 0
    ensures MayTalk(t) && Happens(t)
    ensures t.first.m == Publish(cfg, NewManager(), key, pos, sig, d) && t.second.m == NewManager()
    ensures t.cfg == cfg && t.key == key && pos in At(Drain(B3(t).m), key, d).validated
  {
    var m := Publish(cfg, NewManager(), key, pos, sig, d);
    t := SomeTalk(cfg, key, a, b, Side(m, map[]), Side(NewManager(), map[]));
    OneVoteMayTalk(t, pos, sig, d);
    Recovery(t, d, pos);
  }

  lemma OneVoteAt(cfg: Config, key: Key, pos: nat, sig: Sig, d: Data, m: Manager)
    requires pos < cfg.sizeOf(key) && m == Publish(cfg, NewManager(), key, pos, sig, d)
    ensures PartialSafety.Inv(cfg, m) && key in m.groups && !m.groups[key].sealed && m.floor == map[]
    ensures pos in At(m, key, d).validated && At(m, key, d).sendCount == map[]
    ensures forall e: Data, p: Peer :: PeerOf(At(m, key, e), p).available == {}
  {
    NewInv(cfg);
    PublishKeeps(cfg, NewManager(), key, pos, sig, d);
    forall e: Data, p: Peer ensures PeerOf(At(m, key, e), p).available == {} {
      assert At(m, key, e) == if e == d then StoreLocal(Fresh(), pos, sig) else Fresh();
    }
  }

  lemma OneVoteMayTalk(t: Talk, pos: nat, sig: Sig, d: Data)
    requires t.a != t.b && !t.cfg.disableGossip && pos < t.cfg.sizeOf(t.key)
    requires t.first == Side(Publish(t.cfg, NewManager(), t.key, pos, sig, d), map[]) && t.second == Side(NewManager(), map[])
    ensures MayTalk(t) && pos in At(t.first.m, t.key, d).validated
    ensures At(t.first.m, t.key, d).sendCount == map[] && At(t.second.m, t.key, d).requestCount == map[]
  {
    NewInv(t.cfg);
    OneVoteAt(t.cfg, t.key, pos, sig, d, t.first.m);
  }

  // Whatever a tick leaves a mesh peer without is over the forward cap.
  lemma MeshTickServes(cfg: Config, m: Manager, key: Key, flags: PeerStates, accepts: set<Peer>, c: Choice, p: Peer, d: Data, pos: nat)
    requires !Silent(m, key) && TickOk(m, key, flags, c)
    requires p in c.turns && p in accepts && !flags[p].gossip && pos in At(m, key, d).validated
    ensures var b := At(Tick(cfg, m, key, flags, accepts, c), key, d);
            pos in PeerOf(b, p).available || Count(b.sendCount, pos) >= cfg.caps.maxPeers
  {
    var g := m.groups[key];
    var asked := AskAll(cfg.caps, g.buckets[d], AskOrder(c.asks, d), g.size);
    AskOnlyRequests(cfg.caps, g.buckets[d], AskOrder(c.asks, d), g.size);
    MeshPeerServed(cfg.caps, asked, Gossips(flags), accepts, c.turns, p, pos);
  }

  /** Eager push: with sound beliefs, one tick at a whose turn for mesh peer b came, delivered to b,
      leaves b holding every position a had validated, except those over a's forward cap. */
  lemma MeshPush(cfg: Config, m: Manager, n: Manager, key: Key, flags: PeerStates, accepts: set<Peer>, c: Choice,
                 a: Peer, b: Peer, d: Data, pos: nat)
    requires PartialSafety.Inv(cfg, m) && PartialSafety.Inv(cfg, n) && !Silent(m, key) && TickOk(m, key, flags, c) && !Below(n, key)
    requires b in c.turns && b in accepts && !flags[b].gossip && pos in At(m, key, d).validated
    requires pos in PeerOf(At(m, key, d), b).available ==> pos in At(n, key, d).held
    ensures || pos in At(n, key, d).held
            || Count(At(Tick(cfg, m, key, flags, accepts, c), key, d).sendCount, pos) >= cfg.caps.maxPeers
            || exists out <- Emitted(cfg, m, key, flags, accepts, c) ::
                 out.to == b && pos in At(Receive(cfg, n, a, RpcOf(key, out)).0, key, d).held
  {
    MeshTickServes(cfg, m, key, flags, accepts, c, b, d, pos);
    if pos in PeerOf(At(Tick(cfg, m, key, flags, accepts, c), key, d), b).available && pos !in At(n, key, d).held {
      ClaimedIsSent(cfg, m, key, flags, accepts, c, d, b, pos);
      PushedIsStored(cfg, m, n, key, flags, accepts, c, a, b, d, pos);
    }
  }

  lemma PushedIsStored(cfg: Config, m: Manager, n: Manager, key: Key, flags: PeerStates, accepts: set<Peer>, c: Choice,
                       a: Peer, b: Peer, d: Data, pos: nat)
    requires Shapes(cfg, m) && Shapes(cfg, n) && TickOk(m, key, flags, c) && !Below(n, key)
    requires exists out <- Emitted(cfg, m, key, flags, accepts, c), batch <- out.batches ::
               out.to == b && batch.data == d && pos in batch.positions
    ensures exists out <- Emitted(cfg, m, key, flags, accepts, c) ::
              out.to == b && pos in At(Receive(cfg, n, a, RpcOf(key, out)).0, key, d).held
  {
    var outs := Emitted(cfg, m, key, flags, accepts, c);
    var out, batch :| out in outs && batch in out.batches && out.to == b && batch.data == d && pos in batch.positions;
    EmittedIsBacked(cfg, m, key, flags, accepts, c, out);
    assert CarriedPos(out.batches, d, pos);
    ReceiveStores(cfg, n, a, RpcOf(key, out), d, pos);
  }

  /** The beliefs Recovery starts from hold in every reachable network state with nothing in flight. */
  lemma QuietBeliefs(cfg: Config, nodes: set<Peer>, es: seq<NetEvent>, a: Peer, b: Peer, key: Key)
    requires IsNetRun(cfg, Start(nodes), es) && a in nodes && b in nodes
    requires NetAfter(cfg, Start(nodes), es).flight == {}
    ensures var s := NetAfter(cfg, Start(nodes), es);
            && a in s.nodes && b in s.nodes
            && PartialSafety.Inv(cfg, s.nodes[a]) && PartialSafety.Inv(cfg, s.nodes[b])
            && !Below(s.nodes[a], key) && !Below(s.nodes[b], key)
            && forall d: Data, pos: nat :: pos in PeerOf(At(s.nodes[a], key, d), b).available ==> pos in At(s.nodes[b], key, d).held
  {
    StartInv(cfg, nodes);
    NetRunKeepsInv(cfg, Start(nodes), es);
    var s := NetAfter(cfg, Start(nodes), es);
    forall d: Data, pos: nat | pos in PeerOf(At(s.nodes[a], key, d), b).available ensures pos in At(s.nodes[b], key, d).held {
      assert !InFlight(s, a, b, key, d, pos);
    }
  }
}
