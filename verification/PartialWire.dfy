/** What a publish tick puts on the wire (node/partial.go, publishActions): only validated
    positions, everything it claimed, and nothing else. */
module PartialWire {
  import opened PartialBucket
  import opened PartialManager
  import opened PartialSafety

  // A batch carries exactly what one turn claimed from one bucket, with the stored signatures.
  ghost predicate Carries(b: Bucket, size: nat, served: set<nat>, batch: Batch) {
    && batch.positions != [] && |batch.sigs| == |batch.positions|
    && (forall i :: 0 <= i < |batch.positions| ==>
          && batch.positions[i] < size
          && batch.positions[i] in b.held && batch.sigs[i] == b.held[batch.positions[i]])
    && (forall i, j :: 0 <= i < j < |batch.positions| ==> batch.positions[i] < batch.positions[j])
    && (forall pos: nat :: pos in batch.positions <==> pos in served)
  }

  lemma EncodeCarries(caps: Caps, size: nat, b: Bucket, d: Data, p: Peer, gossip: bool, accepts: bool)
    requires PartialBucket.Inv(caps, size, b) && ServedPositions(caps, b, p, gossip, accepts) != {}
    ensures var served := ServedPositions(caps, b, p, gossip, accepts);
            Carries(b, size, served, EncodeBatch(b, d, Sorted(served, size)))
  {
    var served := ServedPositions(caps, b, p, gossip, accepts);
    SortedIsTheSet(served, size);
    forall pos <- served ensures pos < size && pos in b.held { assert pos in b.validated; }
    var ps := Sorted(served, size);
    forall i | 0 <= i < |ps| ensures ps[i] in b.held && ps[i] < size { assert ps[i] in served; }
    var pos :| pos in served;
    assert pos in ps;
  }

  ghost predicate SentFrom(caps: Caps, g: Group, p: Peer, gossip: bool, accepts: bool, batch: Batch) {
    Carries(BucketOf(g, batch.data), g.size, ServedPositions(caps, BucketOf(g, batch.data), p, gossip, accepts), batch)
  }

  lemma {:induction false} BatchesToFacts(
      caps: Caps, g: Group, p: Peer, gossip: bool, accepts: bool, order: seq<Data>)
    requires GroupOk(caps, g)
    ensures var out := BatchesTo(caps, g, p, gossip, accepts, order);
            && (forall batch <- out :: batch.data in order && SentFrom(caps, g, p, gossip, accepts, batch))
            && (forall d <- order :: ServedPositions(caps, BucketOf(g, d), p, gossip, accepts) != {} ==>
                  exists batch <- out :: batch.data == d)
  {
    if order != [] {
      var front, d := order[..|order| - 1], order[|order| - 1];
      BatchesToFacts(caps, g, p, gossip, accepts, front);
      FreshInv(caps, g.size);
      var served := ServedPositions(caps, BucketOf(g, d), p, gossip, accepts);
      var out, was := BatchesTo(caps, g, p, gossip, accepts, order), BatchesTo(caps, g, p, gossip, accepts, front);
      if served != {} {
        EncodeCarries(caps, g.size, BucketOf(g, d), d, p, gossip, accepts);
        assert out[|out| - 1] in out && out[|out| - 1].data == d;
      }
      forall e <- order | ServedPositions(caps, BucketOf(g, e), p, gossip, accepts) != {}
        ensures exists batch <- out :: batch.data == e
      {
        if e != d {
          assert e in front;
          var batch :| batch in was && batch.data == e;
          assert batch in out;
        }
      }
    }
  }

  // Metadata tells the validated positions, and asks only for positions the peer is believed to
  // hold and this node does not.
  ghost predicate Tells(b: Bucket, p: Peer, armed: bool, size: nat, md: Metadata) {
    && (md.available != {} || md.requests != {})
    && md.available == (if armed then b.validated else {})
    && md.requests <= PeerOf(b, p).available - b.held.Keys
  }

  lemma {:induction false} MetasToFacts(caps: Caps, g: Group, c: Choice, p: Peer, armed: bool, order: seq<Data>)
    ensures var out := MetasTo(caps, g, c.asks, p, armed, order);
            && (forall md <- out :: md.data in order && Tells(BucketOf(g, md.data), p, armed, g.size, md)
                  && md.requests == WantsOf(caps, BucketOf(g, md.data), AskOrder(c.asks, md.data), p, g.size))
            && (forall d <- order ::
                  (armed && BucketOf(g, d).validated != {}) || WantsOf(caps, BucketOf(g, d), AskOrder(c.asks, d), p, g.size) != {} ==>
                    exists md <- out :: md.data == d)
  {
    if order != [] {
      var front, d := order[..|order| - 1], order[|order| - 1];
      MetasToFacts(caps, g, c, p, armed, front);
      AskAllFacts(caps, g.size, BucketOf(g, d), AskOrder(c.asks, d));
      var out, was := MetasTo(caps, g, c.asks, p, armed, order), MetasTo(caps, g, c.asks, p, armed, front);
      if (armed && BucketOf(g, d).validated != {}) || WantsOf(caps, BucketOf(g, d), AskOrder(c.asks, d), p, g.size) != {} {
        assert out[|out| - 1] in out && out[|out| - 1].data == d;
      }
      forall e <- order | (armed && BucketOf(g, e).validated != {}) || WantsOf(caps, BucketOf(g, e), AskOrder(c.asks, e), p, g.size) != {}
        ensures exists md <- out :: md.data == e
      {
        if e != d {
          assert e in front;
          var md :| md in was && md.data == e;
          assert md in out;
        }
      }
    }
  }

  // The bucket as the i-th turn of a tick finds it.
  function BeforeTurn(caps: Caps, g: Group, flags: PeerStates, accepts: set<Peer>, c: Choice, i: nat, d: Data): Bucket
    requires i <= |c.turns|
  {
    BucketOf(Served(caps, Asked(caps, g, c.asks), flags, accepts, c.turns[..i]), d)
  }

  lemma BeforeTurnFacts(caps: Caps, g: Group, flags: PeerStates, accepts: set<Peer>, c: Choice, i: nat, d: Data)
    requires GroupOk(caps, g) && i <= |c.turns|
    ensures var b := BeforeTurn(caps, g, flags, accepts, c, i, d);
            && PartialBucket.Inv(caps, g.size, b)
            && b.validated == BucketOf(g, d).validated && b.held == BucketOf(g, d).held && b.heard == BucketOf(g, d).heard
    ensures GroupOk(caps, Served(caps, Asked(caps, g, c.asks), flags, accepts, c.turns[..i]))
  {
    FreshInv(caps, g.size);
    var part := c.(turns := c.turns[..i]);
    TickGroupFacts(caps, g, flags, accepts, part);
  }

  ghost predicate IsTurn(g: Group, flags: PeerStates, c: Choice, i: nat) {
    ValidChoice(g, flags, c) && i < |c.turns|
  }

  // What one turn may put on the wire.
  ghost predicate HonestOut(caps: Caps, g: Group, flags: PeerStates, accepts: set<Peer>, c: Choice, i: nat, out: Out)
    requires IsTurn(g, flags, c, i)
  {
    var p := c.turns[i];
    && out.to == p
    && (forall batch <- out.batches ::
          && batch.data in g.buckets
          && var b := BeforeTurn(caps, g, flags, accepts, c, i, batch.data);
             Carries(b, g.size, ServedPositions(caps, b, p, flags[p].gossip, p in accepts), batch))
    && (forall md <- out.metadatas ::
          flags[p].gossip && md.data in g.buckets && Tells(BucketOf(g, md.data), p, flags[p].armed, g.size, md))
  }

  lemma OutAtFacts(caps: Caps, g: Group, flags: PeerStates, accepts: set<Peer>, c: Choice, i: nat)
    requires GroupOk(caps, g) && IsTurn(g, flags, c, i)
    ensures HonestOut(caps, g, flags, accepts, c, i, OutAt(caps, g, flags, accepts, c, i))
    ensures forall d <- g.buckets ::
              var b := BeforeTurn(caps, g, flags, accepts, c, i, d);
              ServedPositions(caps, b, c.turns[i], flags[c.turns[i]].gossip, c.turns[i] in accepts) != {} ==>
                exists batch <- OutAt(caps, g, flags, accepts, c, i).batches :: batch.data == d
  {
    var p, now := c.turns[i], Served(caps, Asked(caps, g, c.asks), flags, accepts, c.turns[..i]);
    BeforeTurnFacts(caps, g, flags, accepts, c, i, "");
    assert now.size == g.size;
    BatchesToFacts(caps, now, p, flags[p].gossip, p in accepts, c.orders[i]);
    MetasToFacts(caps, g, c, p, flags[p].armed, c.orders[i]);
    assert c.orders[i] in c.orders;
  }

  lemma {:induction false} OutsOnly(
      caps: Caps, g: Group, flags: PeerStates, accepts: set<Peer>, c: Choice, n: nat, out: Out) returns (i: nat)
    requires ValidChoice(g, flags, c) && n <= |c.turns| && out in Outs(caps, g, flags, accepts, c, n)
    ensures i < n && out == OutAt(caps, g, flags, accepts, c, i)
  {
    if out in Outs(caps, g, flags, accepts, c, n - 1) {
      i := OutsOnly(caps, g, flags, accepts, c, n - 1, out);
    } else {
      i := n - 1;
    }
  }

  lemma {:induction false} OutsAll(caps: Caps, g: Group, flags: PeerStates, accepts: set<Peer>, c: Choice, n: nat, i: nat)
    requires ValidChoice(g, flags, c) && i < n <= |c.turns|
    ensures var out := OutAt(caps, g, flags, accepts, c, i);
            out.batches != [] || out.metadatas != [] ==> out in Outs(caps, g, flags, accepts, c, n)
  {
    var front, last := Outs(caps, g, flags, accepts, c, n - 1), OutAt(caps, g, flags, accepts, c, n - 1);
    if i < n - 1 {
      OutsAll(caps, g, flags, accepts, c, n - 1, i);
    }
    assert Outs(caps, g, flags, accepts, c, n) == front + if last.metadatas == [] && last.batches == [] then [] else [last];
  }

  // The belief about a peer does not move before its own turn.
  lemma BeliefBeforeTurn(caps: Caps, g: Group, flags: PeerStates, accepts: set<Peer>, c: Choice, i: nat, d: Data)
    requires IsTurn(g, flags, c, i)
    ensures PeerOf(BeforeTurn(caps, g, flags, accepts, c, i, d), c.turns[i]) == PeerOf(BucketOf(g, d), c.turns[i])
  {
    if d in g.buckets {
      AskAllFacts(caps, g.size, g.buckets[d], AskOrder(c.asks, d));
      ServeAllFacts(caps, AskAll(caps, g.buckets[d], AskOrder(c.asks, d), g.size), Gossips(flags), accepts, c.turns[..i]);
    }
  }

  // What may be sent to a peer from a bucket.
  ghost predicate HonestBatch(b: Bucket, size: nat, p: Peer, gossip: bool, batch: Batch) {
    && batch.positions != [] && |batch.sigs| == |batch.positions|
    && (forall i :: 0 <= i < |batch.positions| ==>
          batch.positions[i] in b.held && batch.sigs[i] == b.held[batch.positions[i]])
    && (forall pos <- batch.positions ::
          && pos < size && pos in b.validated && pos !in PeerOf(b, p).available
          && (gossip ==> pos in PeerOf(b, p).pendingWant))
  }

  ghost predicate HonestMetadata(b: Bucket, p: Peer, md: Metadata) {
    md.available <= b.validated && md.requests <= PeerOf(b, p).available - b.held.Keys
  }

  lemma TurnIsHonest(caps: Caps, g: Group, flags: PeerStates, accepts: set<Peer>, c: Choice, i: nat, batch: Batch)
    requires GroupOk(caps, g) && IsTurn(g, flags, c, i) && batch in OutAt(caps, g, flags, accepts, c, i).batches
    ensures c.turns[i] in accepts
    ensures HonestBatch(BucketOf(g, batch.data), g.size, c.turns[i], flags[c.turns[i]].gossip, batch)
  {
    var p := c.turns[i];
    OutAtFacts(caps, g, flags, accepts, c, i);
    BeliefBeforeTurn(caps, g, flags, accepts, c, i, batch.data);
    BeforeTurnFacts(caps, g, flags, accepts, c, i, batch.data);
    var b := BeforeTurn(caps, g, flags, accepts, c, i, batch.data);
    assert Carries(b, g.size, ServedPositions(caps, b, p, flags[p].gossip, p in accepts), batch);
    assert batch.positions[0] in ServedPositions(caps, b, p, flags[p].gossip, p in accepts);
    forall pos <- batch.positions
      ensures pos < g.size && pos in ServedPositions(caps, b, p, flags[p].gossip, p in accepts)
    {
    }
  }

  lemma TurnTells(caps: Caps, g: Group, flags: PeerStates, accepts: set<Peer>, c: Choice, i: nat, md: Metadata)
    requires GroupOk(caps, g) && IsTurn(g, flags, c, i) && md in OutAt(caps, g, flags, accepts, c, i).metadatas
    ensures flags[c.turns[i]].gossip && HonestMetadata(BucketOf(g, md.data), c.turns[i], md)
  {
    OutAtFacts(caps, g, flags, accepts, c, i);
  }

  /** Whatever a tick sends: batches hold only validated positions the peer was not believed to hold
      (and asked for, if a gossip peer), each with its stored signature; Available bitmaps hold only
      validated positions; requests ask only for positions the peer is believed to hold and this
      node lacks; metadata goes to gossip peers only. */
  lemma OnlyValidatedFlows(cfg: Config, m: Manager, key: Key, flags: PeerStates, accepts: set<Peer>, c: Choice, out: Out)
    requires Shapes(cfg, m) && TickOk(m, key, flags, c) && out in Emitted(cfg, m, key, flags, accepts, c)
    ensures out.to in flags && key in m.groups
    ensures forall batch <- out.batches ::
              out.to in accepts && HonestBatch(At(m, key, batch.data), m.groups[key].size, out.to, flags[out.to].gossip, batch)
    ensures forall md <- out.metadatas :: flags[out.to].gossip && HonestMetadata(At(m, key, md.data), out.to, md)
  {
    var g, caps := m.groups[key], cfg.caps;
    var i := OutsOnly(caps, g, flags, accepts, c, |c.turns|, out);
    assert c.turns[i] in c.turns;
    forall batch <- out.batches
      ensures out.to in accepts && HonestBatch(At(m, key, batch.data), g.size, out.to, flags[out.to].gossip, batch)
    {
      TurnIsHonest(caps, g, flags, accepts, c, i, batch);
    }
    forall md <- out.metadatas ensures flags[out.to].gossip && HonestMetadata(At(m, key, md.data), out.to, md) {
      TurnTells(caps, g, flags, accepts, c, i, md);
    }
  }

  // A position that enters the belief about a peer is served to it at its turn.
  lemma ClaimedAtTurn(caps: Caps, g: Group, flags: PeerStates, accepts: set<Peer>, c: Choice, d: Data, p: Peer, pos: nat)
    returns (i: nat)
    requires ValidChoice(g, flags, c)
    requires pos in PeerOf(BucketOf(TickGroup(caps, g, flags, accepts, c), d), p).available
    requires pos !in PeerOf(BucketOf(g, d), p).available
    ensures i < |c.turns| && c.turns[i] == p && d in g.buckets
    ensures pos in ServedPositions(caps, BeforeTurn(caps, g, flags, accepts, c, i, d), p, flags[p].gossip, p in accepts)
  {
    var asked := AskAll(caps, g.buckets[d], AskOrder(c.asks, d), g.size);
    AskAllFacts(caps, g.size, g.buckets[d], AskOrder(c.asks, d));
    ServeAllFacts(caps, asked, Gossips(flags), accepts, c.turns);
    assert p in c.turns;
    i :| i < |c.turns| && c.turns[i] == p;
    ServeAllBelief(caps, asked, Gossips(flags), accepts, c.turns, i);
    assert BeforeTurn(caps, g, flags, accepts, c, i, d) == ServeAll(caps, asked, Gossips(flags), accepts, c.turns[..i]);
  }

  lemma ServedIsInTheOut(
      caps: Caps, g: Group, flags: PeerStates, accepts: set<Peer>, c: Choice, i: nat, d: Data, pos: nat)
    requires GroupOk(caps, g) && IsTurn(g, flags, c, i) && d in g.buckets
    requires pos in ServedPositions(caps, BeforeTurn(caps, g, flags, accepts, c, i, d), c.turns[i],
                                    flags[c.turns[i]].gossip, c.turns[i] in accepts)
    ensures var out := OutAt(caps, g, flags, accepts, c, i);
            exists batch <- out.batches :: batch.data == d && pos in batch.positions
  {
    OutAtFacts(caps, g, flags, accepts, c, i);
    var batch :| batch in OutAt(caps, g, flags, accepts, c, i).batches && batch.data == d;
    assert pos in batch.positions;
  }

  /** A tick is never silent about a claim: a position enters the belief about a peer only when a
      batch with it goes to that peer. */
  lemma ClaimedIsSent(
      cfg: Config, m: Manager, key: Key, flags: PeerStates, accepts: set<Peer>, c: Choice, d: Data, p: Peer, pos: nat)
    requires Shapes(cfg, m) && TickOk(m, key, flags, c)
    requires pos in PeerOf(At(Tick(cfg, m, key, flags, accepts, c), key, d), p).available
    requires pos !in PeerOf(At(m, key, d), p).available
    ensures exists out <- Emitted(cfg, m, key, flags, accepts, c), batch <- out.batches ::
              out.to == p && batch.data == d && pos in batch.positions
  {
    var g, caps := m.groups[key], cfg.caps;
    var i := ClaimedAtTurn(caps, g, flags, accepts, c, d, p, pos);
    ServedIsInTheOut(caps, g, flags, accepts, c, i, d, pos);
    var out := OutAt(caps, g, flags, accepts, c, i);
    OutsAll(caps, g, flags, accepts, c, |c.turns|, i);
    assert out in Emitted(cfg, m, key, flags, accepts, c);
  }
}
