/** What each operation of the partial-message manager (node/partial.go) does to the state, said in
    terms of the state and the wire alone. */
module PartialEffects {
  import opened PartialBucket
  import opened PartialManager
  import opened PartialSafety
  import opened PartialWire
  import opened PartialNetwork
  import opened PartialRecovery
  import opened PartialRuns

  // ---------------------------------------------------------------- publish

  // Only one group may differ, and it keeps its width and its seal.
  ghost predicate OthersStay(m: Manager, n: Manager, key: Key) {
    && n.floor == m.floor && n.groups.Keys == m.groups.Keys + {key}
    && (forall k <- m.groups :: k != key ==> n.groups[k] == m.groups[k])
    && key in n.groups
    && (key in m.groups ==> n.groups[key].size == m.groups[key].size && n.groups[key].sealed == m.groups[key].sealed)
    && (key !in m.groups ==> !n.groups[key].sealed)
  }

  /** A local publish: a position not held yet is held with its signature, validated and local; one
      held already stays as it was; nothing else moves in its bucket, its group or the manager. */
  lemma PublishExact(cfg: Config, m: Manager, key: Key, pos: nat, sig: Sig, d: Data)
    ensures var n := Publish(cfg, m, key, pos, sig, d);
            && OthersStay(m, n, key) && n.pending == m.pending && n.fired == m.fired
            && (forall e :: e != d ==> At(n, key, e) == At(m, key, e))
            && var (was, b) := (At(m, key, d), At(n, key, d));
               && (pos in was.held ==> b == was)
               && (pos !in was.held ==>
                     && b.held == was.held[pos := sig] && b.validated == was.validated + {pos} && b.local == was.local + {pos}
                     && b.validating == was.validating && b.peers == was.peers
                     && b.sendCount == was.sendCount && b.requestCount == was.requestCount)
  {
  }

  // ---------------------------------------------------------------- receive

  lemma {:induction false} HearAllExact(g: Group, from: Peer, mds: seq<Metadata>, d: Data, p: Peer, pos: nat)
    ensures var (b, n) := (BucketOf(g, d), BucketOf(HearAll(g, from, mds), d));
            && HearAll(g, from, mds).size == g.size && n.held == b.held
            && (pos in PeerOf(n, p).available <==>
                  pos in PeerOf(b, p).available || (p == from && Told(mds, d, pos) && pos < Width(g.size)))
            && (pos in PeerOf(n, p).pendingWant <==>
                  pos in PeerOf(b, p).pendingWant || (p == from && Asks(mds, d, pos) && pos < Width(g.size)))
  {
    if mds != [] {
      var front, md := mds[..|mds| - 1], mds[|mds| - 1];
      HearAllExact(g, from, front, d, p, pos);
      ToldStep(front, md, d, pos);
      assert mds == front + [md];
    }
  }

  lemma ToldStep(front: seq<Metadata>, md: Metadata, d: Data, pos: nat)
    ensures Told(front + [md], d, pos) <==> Told(front, d, pos) || (md.data == d && pos in md.available)
    ensures Asks(front + [md], d, pos) <==> Asks(front, d, pos) || (md.data == d && pos in md.requests)
  {
    assert forall x :: x in front + [md] <==> x in front || x == md;
  }

  lemma CarriedStep(front: seq<Batch>, batch: Batch, d: Data, pos: nat)
    ensures CarriedPos(front + [batch], d, pos) <==> CarriedPos(front, d, pos) || (batch.data == d && pos in batch.positions)
  {
    assert forall x :: x in front + [batch] <==> x in front || x == batch;
  }

  lemma TakePeers(g: Group, from: Peer, batch: Batch, d: Data, p: Peer, pos: nat)
    requires CheckBatch(g.size, batch) == Fine
    ensures var (b, n) := (BucketOf(g, d), BucketOf(Take(g, from, batch).group, d));
            && PeerOf(n, p).pendingWant == PeerOf(b, p).pendingWant
            && (pos in PeerOf(n, p).available <==>
                  pos in PeerOf(b, p).available || (p == from && batch.data == d && pos in batch.positions))
            && (pos in n.held <==> pos in b.held || (batch.data == d && pos in batch.positions))
  {
    AddReceivedFacts(BucketOf(g, batch.data), batch.positions, batch.sigs);
    assert pos in Positions(batch.positions) <==> pos in batch.positions;
  }

  // The first k batches are well formed.
  predicate Accepts(size: nat, batches: seq<Batch>, k: nat) {
    k <= |batches| && forall i :: 0 <= i < k ==> CheckBatch(size, batches[i]) == Fine
  }

  // Batches are taken up to the first malformed one; what they carry is held, and held by the sender.
  lemma {:induction false} TakeAllExact(g: Group, from: Peer, batches: seq<Batch>, k: nat, d: Data, p: Peer, pos: nat)
    requires Accepts(g.size, batches, k) && (k < |batches| ==> CheckBatch(g.size, batches[k]).Failed?)
    ensures var (b, t) := (BucketOf(g, d), TakeAll(g, from, batches));
            && t.group.size == g.size && (t.outcome == Fine <==> k == |batches|)
            && (k < |batches| ==> t.outcome == CheckBatch(g.size, batches[k]))
            && PeerOf(BucketOf(t.group, d), p).pendingWant == PeerOf(b, p).pendingWant
            && (pos in PeerOf(BucketOf(t.group, d), p).available <==>
                  pos in PeerOf(b, p).available || (p == from && CarriedPos(batches[..k], d, pos)))
            && (pos in BucketOf(t.group, d).held <==> pos in b.held || CarriedPos(batches[..k], d, pos))
  {
    if batches != [] {
      var last := |batches| - 1;
      var front, batch := TakeAll(g, from, batches[..last]), batches[last];
      if k <= last {
        assert batches[..last][..k] == batches[..k];
        TakeAllExact(g, from, batches[..last], k, d, p, pos);
      } else {
        assert batches[..last][..last] == batches[..last] && batches[..k] == batches[..last] + [batch];
        TakeAllExact(g, from, batches[..last], last, d, p, pos);
        TakePeers(front.group, from, batch, d, p, pos);
        CarriedStep(batches[..last], batch, d, pos);
      }
    }
  }

  // A parsed RPC for a live cell above the floor, with k batches before the first malformed one.
  ghost predicate LetIn(cfg: Config, m: Manager, rpc: Rpc, k: nat) {
    && rpc.topic.PartialTopic? && rpc.metadatas.Parsed? && rpc.batches.Parsed?
    && !Below(m, KeyOf(rpc)) && cfg.sizeOf(KeyOf(rpc)) > 0
    && Accepts(cfg.sizeOf(KeyOf(rpc)), rpc.batches.items, k)
    && (k < |rpc.batches.items| ==> CheckBatch(cfg.sizeOf(KeyOf(rpc)), rpc.batches.items[k]).Failed?)
  }

  /** Receiving, exactly: what is believed of a peer, what it wants and what is held grow by what the
      RPC's metadata and well-formed batches say of the sender, and by nothing else; wider bits are cut
      off; the error is the first malformed batch's. */
  lemma ReceiveExact(cfg: Config, m: Manager, from: Peer, rpc: Rpc, k: nat, d: Data, p: Peer, pos: nat)
    requires Shapes(cfg, m) && LetIn(cfg, m, rpc, k)
    ensures var (key, mds, batches) := (KeyOf(rpc), rpc.metadatas.items, rpc.batches.items[..k]);
            var (b, r) := (At(m, key, d), Receive(cfg, m, from, rpc));
            var (n, width) := (At(r.0, key, d), Width(cfg.sizeOf(key)));
            && r.1 == (if k < |rpc.batches.items| then CheckBatch(cfg.sizeOf(key), rpc.batches.items[k]) else Fine)
            && (pos in PeerOf(n, p).available <==>
                  pos in PeerOf(b, p).available || (p == from && Told(mds, d, pos) && pos < width)
                  || (p == from && CarriedPos(batches, d, pos)))
            && (pos in PeerOf(n, p).pendingWant <==>
                  pos in PeerOf(b, p).pendingWant || (p == from && Asks(mds, d, pos) && pos < width))
            && (pos in n.held <==> pos in b.held || CarriedPos(batches, d, pos))
  {
    var key, mds := KeyOf(rpc), rpc.metadatas.items;
    var g := GroupOf(cfg, m, key);
    if mds != [] || rpc.batches.items != [] {
      GroupOfOk(cfg, m, key);
      AtGroupOf(cfg, m, key, d);
      HearAllExact(g, from, mds, d, p, pos);
      TakeAllExact(HearAll(g, from, mds), from, rpc.batches.items, k, d, p, pos);
    }
  }

  /** An RPC fails exactly when its topic is not a partial one, an envelope is garbled, or, above the
      floor, the cell has no committee or a batch is malformed; and one refused before its first
      metadata or batch, or dropped, changes nothing. */
  lemma ReceiveFailsIff(cfg: Config, m: Manager, from: Peer, rpc: Rpc)
    requires Shapes(cfg, m)
    ensures var (n, outcome) := Receive(cfg, m, from, rpc);
            && (outcome.Failed? <==>
                  || !rpc.topic.PartialTopic? || rpc.metadatas.Garbled? || rpc.batches.Garbled?
                  || (!Below(m, KeyOf(rpc)) && (rpc.metadatas.items != [] || rpc.batches.items != [])
                      && (cfg.sizeOf(KeyOf(rpc)) <= 0
                          || exists batch <- rpc.batches.items :: CheckBatch(cfg.sizeOf(KeyOf(rpc)), batch).Failed?)))
            && ((!rpc.topic.PartialTopic? || rpc.metadatas.Garbled? || rpc.batches.Garbled? || Below(m, KeyOf(rpc))
                 || (rpc.metadatas.items == [] && rpc.batches.items == []) || cfg.sizeOf(KeyOf(rpc)) <= 0) ==> n == m)
  {
    if !Early(cfg, m, rpc).0 {
      var g := GroupOf(cfg, m, KeyOf(rpc));
      GroupOfOk(cfg, m, KeyOf(rpc));
      HearAllFacts(cfg.caps, g, from, rpc.metadatas.items);
      RejectedBatchChangesNothing(HearAll(g, from, rpc.metadatas.items), from, rpc.batches.items);
    }
  }

  // ---------------------------------------------------------------- what is submitted

  // Votes the second state of a group holds and the first does not.
  ghost function Gained(g: Group, n: Group): set<(Data, nat)> {
    set d, pos | d in n.buckets && pos in n.buckets[d].held && pos !in BucketOf(g, d).held :: (d, pos)
  }

  function Weight(work: seq<Work>): nat { if work == [] then 0 else Weight(work[..|work| - 1]) + |work[|work| - 1].positions| }

  lemma {:induction false} WeightConcat(a: seq<Work>, b: seq<Work>)
    ensures Weight(a + b) == Weight(a) + Weight(b)
  {
    if b == [] {
      assert a + b == a;
    } else {
      assert (a + b)[..|a + b| - 1] == a + b[..|b| - 1];
      WeightConcat(a, b[..|b| - 1]);
    }
  }

  ghost function Paired(d: Data, s: seq<nat>): set<(Data, nat)> { set pos | pos in s :: (d, pos) }

  lemma {:induction false} DistinctCard(d: Data, s: seq<nat>)
    requires forall i, j :: 0 <= i < j < |s| ==> s[i] != s[j]
    ensures |Paired(d, s)| == |s|
  {
    if s == [] {
      assert Paired(d, s) == {};
    } else {
      var front, last := s[..|s| - 1], s[|s| - 1];
      DistinctCard(d, front);
      assert Paired(d, s) == Paired(d, front) + {(d, last)};
      assert last !in front;
    }
  }

  ghost predicate HeldWithin(g: Group, n: Group) { forall d :: BucketOf(g, d).held.Keys <= BucketOf(n, d).held.Keys }

  lemma GainedStep(g: Group, front: Group, n: Group, d: Data, added: seq<nat>)
    requires HeldWithin(g, front)
    requires n.buckets.Keys == front.buckets.Keys + {d}
    requires forall e <- front.buckets :: e != d ==> n.buckets[e] == front.buckets[e]
    requires n.buckets[d].held.Keys == BucketOf(front, d).held.Keys + Positions(added)
    requires Positions(added) !! BucketOf(front, d).held.Keys
    ensures Gained(g, n) == Gained(g, front) + Paired(d, added) && Gained(g, front) !! Paired(d, added) && HeldWithin(g, n)
  {
    assert forall pos :: pos in added <==> pos in Positions(added);
    assert BucketOf(g, d).held.Keys <= BucketOf(front, d).held.Keys;
    forall x: (Data, nat) ensures x in Gained(g, n) <==> x in Gained(g, front) + Paired(d, added) {
      if x.0 == d { assert x in Paired(d, added) <==> x.1 in added; }
    }
    forall e ensures BucketOf(g, e).held.Keys <= BucketOf(n, e).held.Keys {
      assert BucketOf(g, e).held.Keys <= BucketOf(front, e).held.Keys;
    }
  }

  lemma TakeGains(g: Group, front: Group, from: Peer, batch: Batch)
    requires CheckBatch(front.size, batch) == Fine && HeldWithin(g, front)
    ensures var t := Take(front, from, batch);
            |Gained(g, t.group)| == |Gained(g, front)| + Weight(t.work) && HeldWithin(g, t.group)
  {
    var t, d := Take(front, from, batch), batch.data;
    var b := BucketOf(front, d);
    var added := AddReceived(b, batch.positions, batch.sigs).1;
    AddReceivedFacts(b, batch.positions, batch.sigs);
    DistinctCard(d, added);
    assert t.group.buckets[d].held.Keys == b.held.Keys + Positions(added);
    GainedStep(g, front, t.group, d, added);
    assert Weight(t.work) == |added| by { if added != [] { assert [Work(d, added)][..0] == []; } }
  }

  lemma {:induction false} TakeAllGains(g: Group, start: Group, from: Peer, batches: seq<Batch>)
    requires forall d :: BucketOf(g, d).held == BucketOf(start, d).held
    ensures var t := TakeAll(start, from, batches);
            |Gained(g, t.group)| == Weight(t.work) && HeldWithin(g, t.group)
  {
    if batches == [] {
      forall x ensures x !in Gained(g, start) { assert BucketOf(g, x.0).held == BucketOf(start, x.0).held; }
      assert Gained(g, start) == {};
    } else {
      var front, batch := TakeAll(start, from, batches[..|batches| - 1]), batches[|batches| - 1];
      TakeAllGains(g, start, from, batches[..|batches| - 1]);
      if !front.outcome.Failed? && !CheckBatch(front.group.size, batch).Failed? {
        TakeGains(g, front.group, from, batch);
        WeightConcat(front.work, Take(front.group, from, batch).work);
      }
    }
  }

  lemma {:induction false} WorkIsNew(g: Group, from: Peer, batches: seq<Batch>)
    ensures forall w <- TakeAll(g, from, batches).work :: w.positions != []
  {
    if batches != [] { WorkIsNew(g, from, batches[..|batches| - 1]); }
  }

  /** The work a let-in RPC submits: non-empty items whose positions together are as many as the votes
      it added to the group. */
  lemma SubmittedIsGained(cfg: Config, m: Manager, from: Peer, rpc: Rpc)
    requires Shapes(cfg, m) && !Early(cfg, m, rpc).0
    ensures var t := TakenFrom(cfg, m, from, rpc);
            && Weight(t.work) == |Gained(GroupOf(cfg, m, KeyOf(rpc)), t.group)|
            && forall w <- t.work :: w.positions != []
  {
    var g := GroupOf(cfg, m, KeyOf(rpc));
    var heard := HearAll(g, from, rpc.metadatas.items);
    GroupOfOk(cfg, m, KeyOf(rpc));
    HearAllFacts(cfg.caps, g, from, rpc.metadatas.items);
    forall d ensures BucketOf(g, d).held == BucketOf(heard, d).held { assert OnlyHeard(BucketOf(g, d), BucketOf(heard, d)); }
    TakeAllGains(g, heard, from, rpc.batches.items);
    WorkIsNew(heard, from, rpc.batches.items);
  }

  // ---------------------------------------------------------------- verdict, seal, prune

  /** A verdict, exactly: in its own bucket, if still live, the item's validating positions become
      validated; nothing else moves anywhere. */
  lemma VerdictExact(m: Manager, i: nat, key: Key, d: Data)
    requires i < |m.pending|
    ensures var (n, item) := (CallBack(m, i), m.pending[i]);
            var (was, b, hit) := (At(m, key, d), At(n, key, d), key == item.key && d == item.work.data);
            && n.floor == m.floor && n.groups.Keys == m.groups.Keys && n.pending == m.pending[..i] + m.pending[i + 1..]
            && (key in m.groups ==> n.groups[key].sealed == m.groups[key].sealed && n.groups[key].size == m.groups[key].size)
            && (!hit ==> b == was)
            && (hit ==>
                  && b == was.(validating := b.validating, validated := b.validated)
                  && (forall pos: nat :: pos in b.validating <==> pos in was.validating && pos !in item.work.positions)
                  && (forall pos: nat :: pos in b.validated <==>
                        pos in was.validated || (pos in was.validating && pos in item.work.positions)))
  {
    var item := m.pending[i];
    CallBackFires(m, i, key, d, 0);
    PromoteFacts(At(m, key, d), item.work.positions);
    forall pos: nat ensures pos in item.work.positions <==> pos in Positions(item.work.positions) { }
  }

  /** Sealing, exactly: every live group of the kind at or below the key is marked, and nothing else
      moves. */
  lemma SealExact(m: Manager, kind: Kind, group: nat, key: Key)
    ensures var n := Seal(m, kind, group);
            && n.groups.Keys == m.groups.Keys && n.floor == m.floor && n.pending == m.pending && n.fired == m.fired
            && (key in m.groups ==>
                  && n.groups[key].buckets == m.groups[key].buckets && n.groups[key].size == m.groups[key].size
                  && (n.groups[key].sealed <==> m.groups[key].sealed || (key.kind == kind && key.group <= group)))
  {
  }

  /** Pruning, exactly: the groups of the kind at or below the key go, every other one stays as it was;
      the kind's watermark becomes the larger of the key and the old one, the other kind's stays; so
      just these keys and those below before are below now. */
  lemma PruneExact(m: Manager, kind: Kind, group: nat, key: Key)
    ensures var (n, gone) := (Prune(m, kind, group), key.kind == kind && key.group <= group);
            && n.pending == m.pending && n.fired == m.fired
            && (key in n.groups <==> key in m.groups && !gone)
            && (key in n.groups ==> n.groups[key] == m.groups[key])
            && n.floor.Keys == m.floor.Keys + {kind}
            && n.floor[kind] == (if kind in m.floor && m.floor[kind] > group then m.floor[kind] else group)
            && (forall other :: other in m.floor && other != kind ==> n.floor[other] == m.floor[other])
            && (Below(n, key) <==> Below(m, key) || gone)
  {
  }
}
