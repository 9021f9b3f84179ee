/** A network of partial-message managers (node/partial.go) over channels that lose nothing but may
    reorder and duplicate, with no pruning.  Fanout publishers are outside peers. */
module PartialNetwork {
  import opened PartialBucket
  import opened PartialManager
  import opened PartialSafety
  import opened PartialWire

  // ---------------------------------------------------------------- what one RPC changes

  // Some metadata advertises the position.
  ghost predicate Told(mds: seq<Metadata>, d: Data, pos: nat) {
    exists md <- mds :: md.data == d && pos in md.available
  }

  // Some batch carries the position, with this signature.
  ghost predicate CarriedBy(batch: Batch, d: Data, pos: nat, sig: Sig) {
    batch.data == d && exists i :: 0 <= i < |batch.positions| && i < |batch.sigs| && batch.positions[i] == pos && batch.sigs[i] == sig
  }

  ghost predicate Carried(batches: seq<Batch>, d: Data, pos: nat, sig: Sig) {
    exists batch <- batches :: CarriedBy(batch, d, pos, sig)
  }

  ghost predicate CarriedPos(batches: seq<Batch>, d: Data, pos: nat) {
    exists batch <- batches :: batch.data == d && pos in batch.positions
  }

  lemma {:induction false} HearAllBelief(g: Group, from: Peer, mds: seq<Metadata>, d: Data, p: Peer, pos: nat)
    requires pos in PeerOf(BucketOf(HearAll(g, from, mds), d), p).available
    ensures pos in PeerOf(BucketOf(g, d), p).available || (p == from && Told(mds, d, pos))
  {
    if mds != [] {
      var front, md := HearAll(g, from, mds[..|mds| - 1]), mds[|mds| - 1];
      if pos in PeerOf(BucketOf(front, d), p).available {
        HearAllBelief(g, from, mds[..|mds| - 1], d, p, pos);
      } else {
        assert md in mds && p == from && md.data == d && pos in md.available;
      }
    }
  }

  lemma {:induction false} AddReceivedSigs(b: Bucket, positions: seq<nat>, sigs: seq<Sig>, pos: nat)
    requires |positions| == |sigs| && pos in AddReceived(b, positions, sigs).0.held && pos !in b.held
    ensures exists i :: 0 <= i < |positions| && positions[i] == pos && sigs[i] == AddReceived(b, positions, sigs).0.held[pos]
  {
    if positions != [] {
      var last := |positions| - 1;
      if pos in AddReceived(b, positions[..last], sigs[..last]).0.held {
        AddReceivedSigs(b, positions[..last], sigs[..last], pos);
        var i :| 0 <= i < last && positions[..last][i] == pos
                 && sigs[..last][i] == AddReceived(b, positions[..last], sigs[..last]).0.held[pos];
        assert positions[i] == pos && sigs[i] == sigs[..last][i];
      } else {
        assert positions[last] == pos;
      }
    }
  }

  lemma TakeEffects(g: Group, from: Peer, batch: Batch, d: Data)
    requires CheckBatch(g.size, batch) == Fine
    ensures var (b, n) := (BucketOf(g, d), BucketOf(Take(g, from, batch).group, d));
            && (forall pos <- b.held :: pos in n.held && n.held[pos] == b.held[pos])
            && (forall pos <- n.held :: pos in b.held || CarriedBy(batch, d, pos, n.held[pos]))
            && (batch.data == d ==> forall pos <- batch.positions :: pos in n.held)
  {
    var b := BucketOf(g, batch.data);
    AddReceivedFacts(b, batch.positions, batch.sigs);
    var n := AddReceived(b, batch.positions, batch.sigs).0;
    forall pos <- n.held ensures pos in b.held || CarriedBy(batch, batch.data, pos, n.held[pos]) {
      if pos !in b.held { AddReceivedSigs(b, batch.positions, batch.sigs, pos); }
    }
    assert forall pos <- batch.positions :: pos in Positions(batch.positions);
  }

  lemma TakeAddsOne(g: Group, from: Peer, batch: Batch, d: Data, pos: nat)
    requires CheckBatch(g.size, batch) == Fine
    requires pos in BucketOf(Take(g, from, batch).group, d).held && pos !in BucketOf(g, d).held
    ensures CarriedBy(batch, d, pos, BucketOf(Take(g, from, batch).group, d).held[pos])
  {
    AddReceivedSigs(BucketOf(g, batch.data), batch.positions, batch.sigs, pos);
  }

  lemma TakeBelief(g: Group, from: Peer, batch: Batch, d: Data, p: Peer, pos: nat)
    requires CheckBatch(g.size, batch) == Fine
    requires pos in PeerOf(BucketOf(Take(g, from, batch).group, d), p).available
    ensures pos in PeerOf(BucketOf(g, d), p).available || (p == from && batch.data == d && pos in batch.positions)
  {
    AddReceivedFacts(BucketOf(g, batch.data), batch.positions, batch.sigs);
    assert pos in Positions(batch.positions) ==> pos in batch.positions;
  }

  ghost predicate Grows(b: Bucket, n: Bucket) { forall pos <- b.held :: pos in n.held && n.held[pos] == b.held[pos] }

  lemma {:induction false} TakeAllGrows(g: Group, from: Peer, batches: seq<Batch>, d: Data)
    ensures TakeAll(g, from, batches).group.size == g.size
    ensures Grows(BucketOf(g, d), BucketOf(TakeAll(g, from, batches).group, d))
  {
    if batches != [] {
      var front, batch := TakeAll(g, from, batches[..|batches| - 1]), batches[|batches| - 1];
      TakeAllGrows(g, from, batches[..|batches| - 1], d);
      if !front.outcome.Failed? && !CheckBatch(front.group.size, batch).Failed? {
        TakeEffects(front.group, from, batch, d);
      }
    }
  }

  lemma {:induction false} TakeAllAdds(g: Group, from: Peer, batches: seq<Batch>, d: Data, pos: nat)
    requires pos in BucketOf(TakeAll(g, from, batches).group, d).held && pos !in BucketOf(g, d).held
    ensures Carried(batches, d, pos, BucketOf(TakeAll(g, from, batches).group, d).held[pos])
  {
    if batches != [] {
      var front, batch := TakeAll(g, from, batches[..|batches| - 1]), batches[|batches| - 1];
      if pos in BucketOf(front.group, d).held {
        TakeAllAdds(g, from, batches[..|batches| - 1], d, pos);
        var sig := BucketOf(front.group, d).held[pos];
        var x :| x in batches[..|batches| - 1] && CarriedBy(x, d, pos, sig);
        assert x in batches;
        StepGrows(g, from, batches, d);
      } else {
        var next := Take(front.group, from, batch).group;
        assert TakeAll(g, from, batches).group == next && batch in batches;
        TakeAddsOne(front.group, from, batch, d, pos);
      }
    }
  }

  lemma StepGrows(g: Group, from: Peer, batches: seq<Batch>, d: Data)
    requires batches != []
    ensures Grows(BucketOf(TakeAll(g, from, batches[..|batches| - 1]).group, d), BucketOf(TakeAll(g, from, batches).group, d))
  {
    var front, batch := TakeAll(g, from, batches[..|batches| - 1]), batches[|batches| - 1];
    if !front.outcome.Failed? && !CheckBatch(front.group.size, batch).Failed? { TakeEffects(front.group, from, batch, d); }
  }

  lemma {:induction false} TakeAllBelief(g: Group, from: Peer, batches: seq<Batch>, d: Data, p: Peer, pos: nat)
    requires pos in PeerOf(BucketOf(TakeAll(g, from, batches).group, d), p).available
    ensures pos in PeerOf(BucketOf(g, d), p).available || (p == from && CarriedPos(batches, d, pos))
  {
    if batches != [] {
      var front, batch := TakeAll(g, from, batches[..|batches| - 1]), batches[|batches| - 1];
      if pos in PeerOf(BucketOf(front.group, d), p).available {
        TakeAllBelief(g, from, batches[..|batches| - 1], d, p, pos);
        if CarriedPos(batches[..|batches| - 1], d, pos) {
          var x :| x in batches[..|batches| - 1] && x.data == d && pos in x.positions;
          assert x in batches;
        }
      } else {
        TakeBelief(front.group, from, batch, d, p, pos);
        assert batch in batches;
      }
    }
  }

  lemma {:induction false} TakeAllStores(g: Group, from: Peer, batches: seq<Batch>, d: Data, pos: nat)
    requires forall batch <- batches :: CheckBatch(g.size, batch) == Fine
    ensures TakeAll(g, from, batches).outcome == Fine && TakeAll(g, from, batches).group.size == g.size
    ensures CarriedPos(batches, d, pos) ==> pos in BucketOf(TakeAll(g, from, batches).group, d).held
  {
    if batches != [] {
      var front, batch := TakeAll(g, from, batches[..|batches| - 1]), batches[|batches| - 1];
      assert batch in batches;
      forall x <- batches[..|batches| - 1] ensures x in batches { }
      TakeAllStores(g, from, batches[..|batches| - 1], d, pos);
      TakeEffects(front.group, from, batch, d);
      if CarriedPos(batches, d, pos) {
        var x :| x in batches && x.data == d && pos in x.positions;
        if x in batches[..|batches| - 1] { assert CarriedPos(batches[..|batches| - 1], d, pos); }
      }
    }
  }

  // What one RPC adds to a bucket of the receiver: only votes it carries ...
  lemma ReceiveAdds(cfg: Config, m: Manager, from: Peer, rpc: Rpc, key: Key, d: Data)
    requires Shapes(cfg, m) && rpc.topic.PartialTopic? && rpc.metadatas.Parsed? && rpc.batches.Parsed?
    ensures var n := Receive(cfg, m, from, rpc).0;
            && Grows(At(m, key, d), At(n, key, d))
            && forall pos <- At(n, key, d).held :: pos in At(m, key, d).held ||
                 (key == KeyOf(rpc) && Carried(rpc.batches.items, d, pos, At(n, key, d).held[pos]))
  {
    if !Early(cfg, m, rpc).0 && key == KeyOf(rpc) {
      var g, n := GroupOf(cfg, m, key), Receive(cfg, m, from, rpc).0;
      var heard := HearAll(g, from, rpc.metadatas.items);
      HeardFrom(cfg, m, from, rpc, d);
      TakeAllGrows(heard, from, rpc.batches.items, d);
      forall pos <- At(n, key, d).held | pos !in At(m, key, d).held
        ensures Carried(rpc.batches.items, d, pos, At(n, key, d).held[pos])
      {
        TakeAllAdds(heard, from, rpc.batches.items, d, pos);
      }
    }
  }

  lemma HeardFrom(cfg: Config, m: Manager, from: Peer, rpc: Rpc, d: Data)
    requires Shapes(cfg, m) && !Early(cfg, m, rpc).0
    ensures var (key, heard) := (KeyOf(rpc), HearAll(GroupOf(cfg, m, KeyOf(rpc)), from, rpc.metadatas.items));
            OnlyHeard(At(m, key, d), BucketOf(heard, d)) && heard.size == cfg.sizeOf(key)
  {
    var key := KeyOf(rpc);
    var g := GroupOf(cfg, m, key);
    GroupOfOk(cfg, m, key);
    HearAllFacts(cfg.caps, g, from, rpc.metadatas.items);
    AtGroupOf(cfg, m, key, d);
    assert OnlyHeard(BucketOf(g, d), BucketOf(HearAll(g, from, rpc.metadatas.items), d));
  }

  // ... and it adds to the belief about its sender only what it tells or carries.
  lemma ReceiveBelief(cfg: Config, m: Manager, from: Peer, rpc: Rpc, key: Key, d: Data, p: Peer, pos: nat)
    requires Shapes(cfg, m) && rpc.topic.PartialTopic? && rpc.metadatas.Parsed? && rpc.batches.Parsed?
    requires pos in PeerOf(At(Receive(cfg, m, from, rpc).0, key, d), p).available
    ensures pos in PeerOf(At(m, key, d), p).available ||
            (p == from && key == KeyOf(rpc)
             && (Told(rpc.metadatas.items, d, pos) || CarriedPos(rpc.batches.items, d, pos)))
  {
    if !Early(cfg, m, rpc).0 && key == KeyOf(rpc) {
      var g := GroupOf(cfg, m, key);
      var heard := HearAll(g, from, rpc.metadatas.items);
      TakeAllBelief(heard, from, rpc.batches.items, d, p, pos);
      if pos in PeerOf(BucketOf(heard, d), p).available {
        HearAllBelief(g, from, rpc.metadatas.items, d, p, pos);
        AtGroupOf(cfg, m, key, d);
      }
    }
  }

  // A well-formed RPC that is not stale leaves the receiver holding every position it carries.
  lemma ReceiveStores(cfg: Config, m: Manager, from: Peer, rpc: Rpc, d: Data, pos: nat)
    requires Shapes(cfg, m) && WellFormed(cfg, rpc) && !Below(m, KeyOf(rpc))
    requires CarriedPos(rpc.batches.items, d, pos)
    ensures pos in At(Receive(cfg, m, from, rpc).0, KeyOf(rpc), d).held
  {
    var key := KeyOf(rpc);
    var g := GroupOf(cfg, m, key);
    GroupOfOk(cfg, m, key);
    HearAllFacts(cfg.caps, g, from, rpc.metadatas.items);
    TakeAllStores(HearAll(g, from, rpc.metadatas.items), from, rpc.batches.items, d, pos);
  }

  ghost predicate WellFormed(cfg: Config, rpc: Rpc) {
    && rpc.topic.PartialTopic? && rpc.metadatas.Parsed? && rpc.batches.Parsed?
    && cfg.sizeOf(KeyOf(rpc)) > 0
    && forall batch <- rpc.batches.items :: CheckBatch(cfg.sizeOf(KeyOf(rpc)), batch) == Fine
  }

  // ---------------------------------------------------------------- the network

  datatype Packet = Packet(from: Peer, to: Peer, rpc: Rpc)
  datatype Vote = Vote(key: Key, data: Data, pos: nat, sig: Sig)

  // published is the history of every vote published by a node or by an outside peer.
  datatype Net = Net(nodes: map<Peer, Manager>, flight: set<Packet>, published: set<Vote>)

  // A delivered packet may stay in flight and be delivered again.
  datatype NetEvent =
    | LocalVote(node: Peer, key: Key, pos: nat, sig: Sig, data: Data)
    | NodeTick(node: Peer, key: Key, flags: PeerStates, accepts: set<Peer>, choice: Choice)
    | Deliver(packet: Packet, again: bool)
    | Outside(from: Peer, node: Peer, rpc: Rpc)
    | NodeVerdict(node: Peer, index: nat)
    | NodeSeal(node: Peer, kind: Kind, group: nat)

  function RpcOf(key: Key, out: Out): Rpc {
    Rpc(PartialTopic(key.kind, key.subnet), key.group, Parsed(out.metadatas), Parsed(out.batches))
  }

  ghost predicate CanHappen(cfg: Config, s: Net, e: NetEvent) {
    match e
    case LocalVote(node, key, pos, _, _) => node in s.nodes && pos < cfg.sizeOf(key)
    case NodeTick(node, key, flags, _, choice) => node in s.nodes && TickOk(s.nodes[node], key, flags, choice)
    case Deliver(packet, _) => packet in s.flight && packet.to in s.nodes
    case Outside(from, node, _) => from !in s.nodes && node in s.nodes
    case NodeVerdict(node, index) => node in s.nodes && index < |s.nodes[node].pending|
    case NodeSeal(node, _, _) => node in s.nodes
  }

  // The votes an RPC carries.
  ghost function VotesIn(rpc: Rpc): set<Vote> {
    if !rpc.topic.PartialTopic? || rpc.batches.Garbled? then {}
    else set batch, i | batch in rpc.batches.items && 0 <= i < |batch.positions| && i < |batch.sigs| ::
           Vote(KeyOf(rpc), batch.data, batch.positions[i], batch.sigs[i])
  }

  function PacketsOf(node: Peer, key: Key, outs: seq<Out>): set<Packet> {
    set out | out in outs :: Packet(node, out.to, RpcOf(key, out))
  }

  ghost function NetNext(cfg: Config, s: Net, e: NetEvent): Net
    requires CanHappen(cfg, s, e)
  {
    match e
    case LocalVote(node, key, pos, sig, data) =>
      s.(nodes := s.nodes[node := Publish(cfg, s.nodes[node], key, pos, sig, data)],
         published := s.published + {Vote(key, data, pos, sig)})
    case NodeTick(node, key, flags, accepts, choice) =>
      s.(nodes := s.nodes[node := Tick(cfg, s.nodes[node], key, flags, accepts, choice)],
         flight := s.flight + PacketsOf(node, key, Emitted(cfg, s.nodes[node], key, flags, accepts, choice)))
    case Deliver(packet, again) =>
      s.(nodes := s.nodes[packet.to := Receive(cfg, s.nodes[packet.to], packet.from, packet.rpc).0],
         flight := if again then s.flight else s.flight - {packet})
    case Outside(from, node, rpc) =>
      s.(nodes := s.nodes[node := Receive(cfg, s.nodes[node], from, rpc).0],
         published := s.published + VotesIn(rpc))
    case NodeVerdict(node, index) => s.(nodes := s.nodes[node := CallBack(s.nodes[node], index)])
    case NodeSeal(node, kind, group) => s.(nodes := s.nodes[node := Seal(s.nodes[node], kind, group)])
  }

  // ---------------------------------------------------------------- what every step keeps

  ghost predicate NodesOk(cfg: Config, s: Net) {
    forall n <- s.nodes :: PartialSafety.Inv(cfg, s.nodes[n]) && s.nodes[n].floor == map[]
  }

  // A packet in flight tells and carries only what its sender holds.
  ghost predicate Backed(cfg: Config, m: Manager, rpc: Rpc) {
    && WellFormed(cfg, rpc)
    && (forall d, pos :: Told(rpc.metadatas.items, d, pos) ==> pos in At(m, KeyOf(rpc), d).held)
    && (forall d, pos, sig :: Carried(rpc.batches.items, d, pos, sig) ==>
          pos in At(m, KeyOf(rpc), d).held && At(m, KeyOf(rpc), d).held[pos] == sig)
  }

  ghost predicate FlightOk(cfg: Config, s: Net) {
    forall packet <- s.flight :: packet.from in s.nodes && Backed(cfg, s.nodes[packet.from], packet.rpc)
  }

  ghost predicate InFlight(s: Net, from: Peer, to: Peer, key: Key, d: Data, pos: nat) {
    exists packet <- s.flight :: packet.from == from && packet.to == to && packet.rpc.topic.PartialTopic?
      && KeyOf(packet.rpc) == key && packet.rpc.batches.Parsed? && CarriedPos(packet.rpc.batches.items, d, pos)
  }

  // Belief soundness: what a believes b to hold, b holds, or a batch on its way from a carries it.
  ghost predicate BeliefsSound(s: Net) {
    forall a <- s.nodes, b <- s.nodes, key: Key, d: Data, pos: nat
      {:trigger pos in PeerOf(At(s.nodes[a], key, d), b).available} ::
      pos in PeerOf(At(s.nodes[a], key, d), b).available ==>
        pos in At(s.nodes[b], key, d).held || InFlight(s, a, b, key, d, pos)
  }

  // Every vote held anywhere, with its signature, was published by someone.
  ghost predicate Provenance(s: Net) {
    forall n <- s.nodes, key: Key, d: Data, pos: nat {:trigger pos in At(s.nodes[n], key, d).held} ::
      pos in At(s.nodes[n], key, d).held ==> Vote(key, d, pos, At(s.nodes[n], key, d).held[pos]) in s.published
  }

  ghost predicate NetInv(cfg: Config, s: Net) {
    NodesOk(cfg, s) && FlightOk(cfg, s) && BeliefsSound(s) && Provenance(s)
  }

  // A step at one node only adds votes there.
  ghost predicate OnlyAdds(m: Manager, n: Manager) {
    forall key: Key, d: Data {:trigger At(n, key, d)} :: Grows(At(m, key, d), At(n, key, d))
  }

  ghost predicate Covered(t: Net, from: Peer, to: Peer, key: Key, d: Data, pos: nat)
    requires to in t.nodes
  {
    pos in At(t.nodes[to], key, d).held || InFlight(t, from, to, key, d, pos)
  }

  // Each new belief of the node is covered after the step.
  ghost predicate NewBeliefsCovered(m: Manager, t: Net, node: Peer) {
    node in t.nodes &&
    forall b <- t.nodes, key: Key, d: Data, pos: nat {:trigger pos in PeerOf(At(t.nodes[node], key, d), b).available} ::
      pos in PeerOf(At(t.nodes[node], key, d), b).available && pos !in PeerOf(At(m, key, d), b).available ==>
        Covered(t, node, b, key, d, pos)
  }

  // A packet that leaves the flight has been stored.
  ghost predicate FlightKept(s: Net, t: Net) {
    forall a <- t.nodes, b <- t.nodes, key: Key, d: Data, pos: nat {:trigger InFlight(s, a, b, key, d, pos)} ::
      InFlight(s, a, b, key, d, pos) ==> Covered(t, a, b, key, d, pos)
  }

  ghost predicate NewVotesPublished(m: Manager, n: Manager, published: set<Vote>) {
    forall key: Key, d: Data, pos: nat {:trigger pos in At(n, key, d).held} ::
      pos in At(n, key, d).held && pos !in At(m, key, d).held ==> Vote(key, d, pos, At(n, key, d).held[pos]) in published
  }

  lemma SoundAfter(s: Net, t: Net, node: Peer, n: Manager)
    requires BeliefsSound(s) && node in s.nodes && t.nodes == s.nodes[node := n]
    requires OnlyAdds(s.nodes[node], n) && FlightKept(s, t) && NewBeliefsCovered(s.nodes[node], t, node)
    ensures BeliefsSound(t)
  {
    forall a <- t.nodes, b <- t.nodes, key: Key, d: Data, pos: nat
      | pos in PeerOf(At(t.nodes[a], key, d), b).available
      ensures Covered(t, a, b, key, d, pos)
    {
      if pos in PeerOf(At(s.nodes[a], key, d), b).available {
        if InFlight(s, a, b, key, d, pos) {
          assert Covered(t, a, b, key, d, pos);
        } else {
          assert pos in At(s.nodes[b], key, d).held;
          if b == node { assert Grows(At(s.nodes[b], key, d), At(n, key, d)); }
        }
      }
    }
  }

  lemma ProvenanceAfter(s: Net, t: Net, node: Peer, n: Manager)
    requires Provenance(s) && node in s.nodes && t.nodes == s.nodes[node := n] && s.published <= t.published
    requires OnlyAdds(s.nodes[node], n) && NewVotesPublished(s.nodes[node], n, t.published)
    ensures Provenance(t)
  {
    forall a <- t.nodes, key: Key, d: Data, pos: nat | pos in At(t.nodes[a], key, d).held
      ensures Vote(key, d, pos, At(t.nodes[a], key, d).held[pos]) in t.published
    {
      if pos in At(s.nodes[a], key, d).held && a == node { assert Grows(At(s.nodes[a], key, d), At(n, key, d)); }
    }
  }

  lemma BackedGrows(cfg: Config, m: Manager, n: Manager, rpc: Rpc)
    requires Backed(cfg, m, rpc) && OnlyAdds(m, n)
    ensures Backed(cfg, n, rpc)
  {
    forall d ensures Grows(At(m, KeyOf(rpc), d), At(n, KeyOf(rpc), d)) { assert At(n, KeyOf(rpc), d) == At(n, KeyOf(rpc), d); }
  }

  lemma OldFlightOk(cfg: Config, s: Net, t: Net, node: Peer, n: Manager)
    requires FlightOk(cfg, s) && node in s.nodes && t.nodes == s.nodes[node := n] && OnlyAdds(s.nodes[node], n)
    requires t.flight <= s.flight
    ensures FlightOk(cfg, t)
  {
    forall packet <- t.flight ensures packet.from in t.nodes && Backed(cfg, t.nodes[packet.from], packet.rpc) {
      if packet.from == node { BackedGrows(cfg, s.nodes[node], n, packet.rpc); }
    }
  }

  // A step that sends nothing and leaves every belief as it was.
  lemma QuietStep(cfg: Config, s: Net, t: Net, node: Peer, n: Manager)
    requires NetInv(cfg, s) && node in s.nodes && t.nodes == s.nodes[node := n] && t.flight == s.flight
    requires s.published <= t.published && PartialSafety.Inv(cfg, n) && n.floor == map[]
    requires OnlyAdds(s.nodes[node], n) && NewVotesPublished(s.nodes[node], n, t.published)
    requires NewBeliefsCovered(s.nodes[node], t, node)
    ensures NetInv(cfg, t)
  {
    forall a <- t.nodes, b <- t.nodes, key: Key, d: Data, pos: nat | InFlight(s, a, b, key, d, pos)
      ensures InFlight(t, a, b, key, d, pos)
    {
    }
    SoundAfter(s, t, node, n);
    ProvenanceAfter(s, t, node, n);
    OldFlightOk(cfg, s, t, node, n);
  }

  ghost predicate SamePeers(m: Manager, n: Manager) {
    forall key: Key, d: Data {:trigger At(n, key, d)} :: At(n, key, d).peers == At(m, key, d).peers
  }

  lemma PublishEffects(cfg: Config, m: Manager, key: Key, pos: nat, sig: Sig, d: Data)
    ensures var n := Publish(cfg, m, key, pos, sig, d);
            && OnlyAdds(m, n) && SamePeers(m, n)
            && forall published :: Vote(key, d, pos, sig) in published ==> NewVotesPublished(m, n, published)
  {
    forall k: Key, e: Data
      ensures At(Publish(cfg, m, key, pos, sig, d), k, e) ==
              if k == key && e == d then StoreLocal(At(m, k, e), pos, sig) else At(m, k, e)
    {
      AtGroupOf(cfg, m, k, e);
    }
  }

  lemma LocalVoteKeeps(cfg: Config, s: Net, e: NetEvent)
    requires NetInv(cfg, s) && CanHappen(cfg, s, e) && e.LocalVote?
    ensures NetInv(cfg, NetNext(cfg, s, e))
  {
    var m, t := s.nodes[e.node], NetNext(cfg, s, e);
    PublishKeeps(cfg, m, e.key, e.pos, e.sig, e.data);
    PublishEffects(cfg, m, e.key, e.pos, e.sig, e.data);
    SamePeersCovered(m, t, e.node);
    QuietStep(cfg, s, t, e.node, t.nodes[e.node]);
  }

  lemma SamePeersCovered(m: Manager, t: Net, node: Peer)
    requires node in t.nodes && SamePeers(m, t.nodes[node])
    ensures NewBeliefsCovered(m, t, node)
  {
    forall b <- t.nodes, key: Key, d: Data, pos: nat | pos in PeerOf(At(t.nodes[node], key, d), b).available
      ensures pos in PeerOf(At(m, key, d), b).available
    {
      assert At(t.nodes[node], key, d).peers == At(m, key, d).peers;
    }
  }

  lemma VerdictKeeps(cfg: Config, s: Net, e: NetEvent)
    requires NetInv(cfg, s) && CanHappen(cfg, s, e) && e.NodeVerdict?
    ensures NetInv(cfg, NetNext(cfg, s, e))
  {
    var m, t := s.nodes[e.node], NetNext(cfg, s, e);
    var item := m.pending[e.index];
    CallBackKeeps(cfg, m, e.index);
    PromoteFacts(At(m, item.key, item.work.data), item.work.positions);
    forall key: Key, d: Data
      ensures At(t.nodes[e.node], key, d).held == At(m, key, d).held
      ensures At(t.nodes[e.node], key, d).peers == At(m, key, d).peers
    {
      CallBackFires(m, e.index, key, d, 0);
    }
    QuietStep(cfg, s, t, e.node, t.nodes[e.node]);
  }

  lemma SealEffects(m: Manager, kind: Kind, group: nat, published: set<Vote>)
    ensures var n := Seal(m, kind, group);
            OnlyAdds(m, n) && SamePeers(m, n) && NewVotesPublished(m, n, published)
  {
    forall k: Key, e: Data ensures At(Seal(m, kind, group), k, e) == At(m, k, e) { }
  }

  lemma SealNodeKeeps(cfg: Config, s: Net, e: NetEvent)
    requires NetInv(cfg, s) && CanHappen(cfg, s, e) && e.NodeSeal?
    ensures NetInv(cfg, NetNext(cfg, s, e))
  {
    var m, t := s.nodes[e.node], NetNext(cfg, s, e);
    SealKeeps(cfg, m, e.kind, e.group);
    SealEffects(m, e.kind, e.group, t.published);
    SamePeersCovered(m, t, e.node);
    QuietStep(cfg, s, t, e.node, t.nodes[e.node]);
  }

  lemma OutsideKeeps(cfg: Config, s: Net, e: NetEvent)
    requires NetInv(cfg, s) && CanHappen(cfg, s, e) && e.Outside?
    ensures NetInv(cfg, NetNext(cfg, s, e))
  {
    var m, t, rpc := s.nodes[e.node], NetNext(cfg, s, e), e.rpc;
    var n := t.nodes[e.node];
    ReceiveKeeps(cfg, m, e.from, rpc);
    if rpc.topic.PartialTopic? && rpc.metadatas.Parsed? && rpc.batches.Parsed? {
      forall key: Key, d: Data ensures Grows(At(m, key, d), At(n, key, d)) { ReceiveAdds(cfg, m, e.from, rpc, key, d); }
      forall key: Key, d: Data, pos: nat | pos in At(n, key, d).held && pos !in At(m, key, d).held
        ensures Vote(key, d, pos, At(n, key, d).held[pos]) in t.published
      {
        ReceiveAdds(cfg, m, e.from, rpc, key, d);
        assert Carried(rpc.batches.items, d, pos, At(n, key, d).held[pos]);
      }
      forall b <- t.nodes, key: Key, d: Data, pos: nat | pos in PeerOf(At(n, key, d), b).available
        ensures pos in PeerOf(At(m, key, d), b).available
      {
        ReceiveBelief(cfg, m, e.from, rpc, key, d, b, pos);
      }
    } else {
      assert n == m;
    }
    QuietStep(cfg, s, t, e.node, n);
  }

  // ---------------------------------------------------------------- ticks and deliveries

  lemma TickGroupHeld(caps: Caps, g: Group, flags: PeerStates, accepts: set<Peer>, c: Choice, d: Data)
    ensures BucketOf(TickGroup(caps, g, flags, accepts, c), d).held == BucketOf(g, d).held
  {
    if d in g.buckets {
      AskAllFacts(caps, g.size, g.buckets[d], AskOrder(c.asks, d));
      ServeAllFacts(caps, AskAll(caps, g.buckets[d], AskOrder(c.asks, d), g.size), Gossips(flags), accepts, c.turns);
    }
  }

  // Ticking changes no vote.
  lemma TickEffect(cfg: Config, m: Manager, key: Key, flags: PeerStates, accepts: set<Peer>, c: Choice, k: Key, d: Data)
    ensures var n := Tick(cfg, m, key, flags, accepts, c);
            At(n, k, d).held == At(m, k, d).held && (k != key ==> At(n, k, d) == At(m, k, d))
  {
    if !Silent(m, key) { TickGroupHeld(cfg.caps, m.groups[key], flags, accepts, c, d); }
  }

  lemma TickEffects(cfg: Config, m: Manager, key: Key, flags: PeerStates, accepts: set<Peer>, c: Choice, n: Manager)
    requires n == Tick(cfg, m, key, flags, accepts, c)
    ensures forall k: Key, d: Data {:trigger At(n, k, d)} ::
              At(n, k, d).held == At(m, k, d).held && (k != key ==> At(n, k, d) == At(m, k, d))
    ensures OnlyAdds(m, n)
  {
    forall k: Key, d: Data { TickEffect(cfg, m, key, flags, accepts, c, k, d); }
  }

  // What a tick sends is backed by what the node holds.
  lemma EmittedIsBacked(cfg: Config, m: Manager, key: Key, flags: PeerStates, accepts: set<Peer>, c: Choice, out: Out)
    requires Shapes(cfg, m) && TickOk(m, key, flags, c) && out in Emitted(cfg, m, key, flags, accepts, c)
    ensures Backed(cfg, m, RpcOf(key, out)) && KeyOf(RpcOf(key, out)) == key
  {
    OnlyValidatedFlows(cfg, m, key, flags, accepts, c, out);
    forall batch <- out.batches ensures CheckBatch(cfg.sizeOf(key), batch) == Fine {
      assert HonestBatch(At(m, key, batch.data), m.groups[key].size, out.to, flags[out.to].gossip, batch);
    }
    forall d, pos | Told(out.metadatas, d, pos) ensures pos in At(m, key, d).held {
      var md :| md in out.metadatas && md.data == d && pos in md.available;
      assert HonestMetadata(At(m, key, md.data), out.to, md);
      LifecycleAt(cfg, m, key, d);
      assert pos in At(m, key, d).validated;
      ValidatedHeld(cfg, m, key, d);
    }
    forall d, pos, sig | Carried(out.batches, d, pos, sig)
      ensures pos in At(m, key, d).held && At(m, key, d).held[pos] == sig
    {
      var batch :| batch in out.batches && CarriedBy(batch, d, pos, sig);
      assert HonestBatch(At(m, key, batch.data), m.groups[key].size, out.to, flags[out.to].gossip, batch);
    }
  }

  lemma ValidatedHeld(cfg: Config, m: Manager, key: Key, d: Data)
    requires Shapes(cfg, m)
    ensures At(m, key, d).validated <= At(m, key, d).held.Keys
  {
  }

  lemma TickFlight(cfg: Config, s: Net, e: NetEvent)
    requires NetInv(cfg, s) && CanHappen(cfg, s, e) && e.NodeTick?
    ensures FlightOk(cfg, NetNext(cfg, s, e))
  {
    var m, t := s.nodes[e.node], NetNext(cfg, s, e);
    var n := t.nodes[e.node];
    TickEffects(cfg, m, e.key, e.flags, e.accepts, e.choice, n);
    OldFlightOk(cfg, s, t.(flight := s.flight), e.node, n);
    forall packet <- t.flight ensures packet.from in t.nodes && Backed(cfg, t.nodes[packet.from], packet.rpc) {
      if packet !in s.flight {
        var out :| out in Emitted(cfg, m, e.key, e.flags, e.accepts, e.choice) && packet == Packet(e.node, out.to, RpcOf(e.key, out));
        EmittedIsBacked(cfg, m, e.key, e.flags, e.accepts, e.choice, out);
        BackedGrows(cfg, m, n, packet.rpc);
      }
    }
  }

  lemma TickCovers(cfg: Config, s: Net, e: NetEvent)
    requires NetInv(cfg, s) && CanHappen(cfg, s, e) && e.NodeTick?
    ensures NewBeliefsCovered(s.nodes[e.node], NetNext(cfg, s, e), e.node)
  {
    var m, t := s.nodes[e.node], NetNext(cfg, s, e);
    var n, outs := t.nodes[e.node], Emitted(cfg, m, e.key, e.flags, e.accepts, e.choice);
    TickEffects(cfg, m, e.key, e.flags, e.accepts, e.choice, n);
    forall b <- t.nodes, key: Key, d: Data, pos: nat
      | pos in PeerOf(At(n, key, d), b).available && pos !in PeerOf(At(m, key, d), b).available
      ensures Covered(t, e.node, b, key, d, pos)
    {
      assert key == e.key;
      ClaimedIsSent(cfg, m, key, e.flags, e.accepts, e.choice, d, b, pos);
      var out, batch :| out in outs && batch in out.batches && out.to == b && batch.data == d && pos in batch.positions;
      var packet := Packet(e.node, b, RpcOf(key, out));
      assert packet in PacketsOf(e.node, key, outs);
      assert packet in t.flight && CarriedPos(out.batches, d, pos);
    }
  }

  lemma NodeTickKeeps(cfg: Config, s: Net, e: NetEvent)
    requires NetInv(cfg, s) && CanHappen(cfg, s, e) && e.NodeTick?
    ensures NetInv(cfg, NetNext(cfg, s, e))
  {
    var m, t := s.nodes[e.node], NetNext(cfg, s, e);
    var n := t.nodes[e.node];
    TickKeeps(cfg, m, e.key, e.flags, e.accepts, e.choice);
    TickEffects(cfg, m, e.key, e.flags, e.accepts, e.choice, n);
    TickFlight(cfg, s, e);
    TickCovers(cfg, s, e);
    forall a <- t.nodes, b <- t.nodes, key: Key, d: Data, pos: nat | InFlight(s, a, b, key, d, pos)
      ensures InFlight(t, a, b, key, d, pos)
    {
    }
    SoundAfter(s, t, e.node, n);
    ProvenanceAfter(s, t, e.node, n);
  }

  // A position carried by a well-formed batch is carried with a signature.
  lemma CarriedWithSig(cfg: Config, rpc: Rpc, d: Data, pos: nat) returns (sig: Sig)
    requires WellFormed(cfg, rpc) && CarriedPos(rpc.batches.items, d, pos)
    ensures Carried(rpc.batches.items, d, pos, sig)
  {
    var batch :| batch in rpc.batches.items && batch.data == d && pos in batch.positions;
    var i :| 0 <= i < |batch.positions| && batch.positions[i] == pos;
    sig := batch.sigs[i];
    assert CarriedBy(batch, d, pos, sig);
  }

  lemma DeliverNode(cfg: Config, s: Net, e: NetEvent)
    requires NetInv(cfg, s) && CanHappen(cfg, s, e) && e.Deliver?
    ensures var (m, t) := (s.nodes[e.packet.to], NetNext(cfg, s, e));
            && OnlyAdds(m, t.nodes[e.packet.to])
            && NewVotesPublished(m, t.nodes[e.packet.to], t.published)
  {
    var to, rpc := e.packet.to, e.packet.rpc;
    var m, n := s.nodes[to], NetNext(cfg, s, e).nodes[to];
    var sender := s.nodes[e.packet.from];
    assert Backed(cfg, sender, rpc);
    forall key: Key, d: Data ensures Grows(At(m, key, d), At(n, key, d)) {
      ReceiveAdds(cfg, m, e.packet.from, rpc, key, d);
    }
    forall key: Key, d: Data, pos: nat | pos in At(n, key, d).held && pos !in At(m, key, d).held
      ensures Vote(key, d, pos, At(n, key, d).held[pos]) in s.published
    {
      ReceiveAdds(cfg, m, e.packet.from, rpc, key, d);
      assert Carried(rpc.batches.items, d, pos, At(n, key, d).held[pos]);
      assert pos in At(sender, key, d).held;
    }
  }

  lemma DeliverCovers(cfg: Config, s: Net, e: NetEvent)
    requires NetInv(cfg, s) && CanHappen(cfg, s, e) && e.Deliver?
    ensures NewBeliefsCovered(s.nodes[e.packet.to], NetNext(cfg, s, e), e.packet.to)
  {
    var to, from, rpc := e.packet.to, e.packet.from, e.packet.rpc;
    var m, t := s.nodes[to], NetNext(cfg, s, e);
    DeliverNode(cfg, s, e);
    assert Backed(cfg, s.nodes[from], rpc);
    forall b <- t.nodes, key: Key, d: Data, pos: nat
      | pos in PeerOf(At(t.nodes[to], key, d), b).available && pos !in PeerOf(At(m, key, d), b).available
      ensures pos in At(t.nodes[b], key, d).held
    {
      ReceiveBelief(cfg, m, from, rpc, key, d, b, pos);
      if !Told(rpc.metadatas.items, d, pos) {
        var sig := CarriedWithSig(cfg, rpc, d, pos);
      }
      assert pos in At(s.nodes[from], key, d).held;
      if from == to { assert Grows(At(m, key, d), At(t.nodes[to], key, d)); }
    }
  }

  lemma DeliverFlight(cfg: Config, s: Net, e: NetEvent)
    requires NetInv(cfg, s) && CanHappen(cfg, s, e) && e.Deliver?
    ensures FlightKept(s, NetNext(cfg, s, e))
  {
    var t, to := NetNext(cfg, s, e), e.packet.to;
    forall a <- t.nodes, b <- t.nodes, key: Key, d: Data, pos: nat | InFlight(s, a, b, key, d, pos)
      ensures Covered(t, a, b, key, d, pos)
    {
      var packet :| packet in s.flight && packet.from == a && packet.to == b && packet.rpc.topic.PartialTopic?
        && KeyOf(packet.rpc) == key && packet.rpc.batches.Parsed? && CarriedPos(packet.rpc.batches.items, d, pos);
      if packet == e.packet {
        assert Backed(cfg, s.nodes[a], packet.rpc);
        ReceiveStores(cfg, s.nodes[to], a, packet.rpc, d, pos);
      } else {
        assert packet in t.flight;
      }
    }
  }

  lemma DeliverKeeps(cfg: Config, s: Net, e: NetEvent)
    requires NetInv(cfg, s) && CanHappen(cfg, s, e) && e.Deliver?
    ensures NetInv(cfg, NetNext(cfg, s, e))
  {
    var t, to := NetNext(cfg, s, e), e.packet.to;
    ReceiveKeeps(cfg, s.nodes[to], e.packet.from, e.packet.rpc);
    DeliverNode(cfg, s, e);
    DeliverCovers(cfg, s, e);
    DeliverFlight(cfg, s, e);
    SoundAfter(s, t, to, t.nodes[to]);
    ProvenanceAfter(s, t, to, t.nodes[to]);
    OldFlightOk(cfg, s, t, to, t.nodes[to]);
  }

  // ---------------------------------------------------------------- whole runs

  lemma NetStepKeeps(cfg: Config, s: Net, e: NetEvent)
    requires NetInv(cfg, s) && CanHappen(cfg, s, e)
    ensures NetInv(cfg, NetNext(cfg, s, e))
  {
    match e
    case LocalVote(_, _, _, _, _) => LocalVoteKeeps(cfg, s, e);
    case NodeTick(_, _, _, _, _) => NodeTickKeeps(cfg, s, e);
    case Deliver(_, _) => DeliverKeeps(cfg, s, e);
    case Outside(_, _, _) => OutsideKeeps(cfg, s, e);
    case NodeVerdict(_, _) => VerdictKeeps(cfg, s, e);
    case NodeSeal(_, _, _) => SealNodeKeeps(cfg, s, e);
  }

  ghost predicate IsNetRun(cfg: Config, s: Net, es: seq<NetEvent>)
    decreases |es|
  {
    es == [] || (CanHappen(cfg, s, es[0]) && IsNetRun(cfg, NetNext(cfg, s, es[0]), es[1..]))
  }

  ghost function NetAfter(cfg: Config, s: Net, es: seq<NetEvent>): Net
    requires IsNetRun(cfg, s, es)
    decreases |es|
  {
    if es == [] then s else NetAfter(cfg, NetNext(cfg, s, es[0]), es[1..])
  }

  function Start(nodes: set<Peer>): Net { Net(map n | n in nodes :: NewManager(), {}, {}) }

  lemma StartInv(cfg: Config, nodes: set<Peer>)
    ensures NetInv(cfg, Start(nodes))
  {
    NewInv(cfg);
  }

  lemma {:induction false} NetRunKeepsInv(cfg: Config, s: Net, es: seq<NetEvent>)
    requires NetInv(cfg, s) && IsNetRun(cfg, s, es)
    ensures NetInv(cfg, NetAfter(cfg, s, es)) && NetAfter(cfg, s, es).nodes.Keys == s.nodes.Keys
    decreases |es|
  {
    if es != [] {
      NetStepKeeps(cfg, s, es[0]);
      NetRunKeepsInv(cfg, NetNext(cfg, s, es[0]), es[1..]);
    }
  }

  /** Belief soundness over every run of the network: if a's available bit for b holds a position,
      then b holds it in the same bucket, or a batch carrying it is in flight from a to b. */
  lemma BeliefSoundness(cfg: Config, nodes: set<Peer>, es: seq<NetEvent>, a: Peer, b: Peer, key: Key, d: Data, pos: nat)
    requires IsNetRun(cfg, Start(nodes), es) && a in nodes && b in nodes
    ensures var s := NetAfter(cfg, Start(nodes), es);
            && a in s.nodes && b in s.nodes
            && (pos in PeerOf(At(s.nodes[a], key, d), b).available ==>
                  pos in At(s.nodes[b], key, d).held || InFlight(s, a, b, key, d, pos))
  {
    StartInv(cfg, nodes);
    NetRunKeepsInv(cfg, Start(nodes), es);
  }

  /** Every vote validated anywhere in the network was first published by someone, in the same
      bucket and with the same signature: relays invent and alter nothing. */
  lemma ValidatedWasPublished(cfg: Config, nodes: set<Peer>, es: seq<NetEvent>, n: Peer, key: Key, d: Data, pos: nat)
    requires IsNetRun(cfg, Start(nodes), es) && n in nodes
    ensures var s := NetAfter(cfg, Start(nodes), es);
            && n in s.nodes
            && (pos in At(s.nodes[n], key, d).validated ==>
                  && pos in At(s.nodes[n], key, d).held
                  && Vote(key, d, pos, At(s.nodes[n], key, d).held[pos]) in s.published)
  {
    StartInv(cfg, nodes);
    NetRunKeepsInv(cfg, Start(nodes), es);
    var m := NetAfter(cfg, Start(nodes), es).nodes[n];
    ValidatedHeld(cfg, m, key, d);
  }
}
