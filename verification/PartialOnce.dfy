/** What a run of one partial-message manager (node/partial.go) puts on the wire: nothing goes back to
    where it came from or out twice, and the forward and request budgets bound the copies and the
    requests actually sent. */
module PartialOnce {
  import opened PartialBucket
  import opened PartialManager
  import opened PartialSafety
  import opened PartialWire
  import opened PartialNetwork
  import opened PartialRecovery
  import opened PartialRuns
  import opened PartialEffects

  // ---------------------------------------------------------------- a live bucket only moves onward

  // Votes, local marks, beliefs and counts are never taken back.
  ghost predicate Onward(b: Bucket, n: Bucket) {
    && (forall pos <- b.held :: pos in n.held && n.held[pos] == b.held[pos])
    && b.validated <= n.validated && b.local <= n.local
    && (forall p: Peer :: PeerOf(b, p).available <= PeerOf(n, p).available)
    && (forall pos: nat :: Count(b.sendCount, pos) <= Count(n.sendCount, pos))
    && (forall pos: nat :: Count(b.requestCount, pos) <= Count(n.requestCount, pos))
  }

  lemma {:induction false} AskAllGrows(caps: Caps, b: Bucket, order: seq<Peer>, size: nat, pos: nat)
    ensures Count(b.requestCount, pos) <= Count(AskAll(caps, b, order, size).requestCount, pos)
  {
    if order != [] { AskAllGrows(caps, b, order[..|order| - 1], size, pos); }
  }

  lemma {:induction false} ServeAllGrows(caps: Caps, b: Bucket, gossips: set<Peer>, accepts: set<Peer>, order: seq<Peer>, p: Peer, pos: nat)
    ensures var n := ServeAll(caps, b, gossips, accepts, order);
            PeerOf(b, p).available <= PeerOf(n, p).available && Count(b.sendCount, pos) <= Count(n.sendCount, pos)
  {
    if order != [] {
      var front, last := order[..|order| - 1], order[|order| - 1];
      ServeAllGrows(caps, b, gossips, accepts, front, p, pos);
      ServeGrows(caps, ServeAll(caps, b, gossips, accepts, front), last, last in gossips, last in accepts, p, pos);
    }
  }

  lemma TickOnward(caps: Caps, g: Group, flags: PeerStates, accepts: set<Peer>, c: Choice, d: Data)
    ensures Onward(BucketOf(g, d), BucketOf(TickGroup(caps, g, flags, accepts, c), d))
  {
    if d in g.buckets {
      var b := g.buckets[d];
      var asked := AskAll(caps, b, AskOrder(c.asks, d), g.size);
      var n := ServeAll(caps, asked, Gossips(flags), accepts, c.turns);
      AskAllFacts(caps, g.size, b, AskOrder(c.asks, d));
      ServeAllFacts(caps, asked, Gossips(flags), accepts, c.turns);
      forall p: Peer ensures PeerOf(b, p).available <= PeerOf(n, p).available {
        ServeAllGrows(caps, asked, Gossips(flags), accepts, c.turns, p, 0);
        assert PeerOf(asked, p) == PeerOf(b, p);
      }
      forall pos: nat
        ensures Count(b.sendCount, pos) <= Count(n.sendCount, pos) && Count(b.requestCount, pos) <= Count(n.requestCount, pos)
      {
        ServeAllGrows(caps, asked, Gossips(flags), accepts, c.turns, 0, pos);
        AskAllGrows(caps, b, AskOrder(c.asks, d), g.size, pos);
      }
      assert Onward(b, n);
    }
  }

  lemma ReceiveOnward(cfg: Config, m: Manager, from: Peer, rpc: Rpc, key: Key, d: Data)
    requires Shapes(cfg, m)
    ensures Onward(At(m, key, d), At(Receive(cfg, m, from, rpc).0, key, d))
  {
    if !Early(cfg, m, rpc).0 && key == KeyOf(rpc) {
      var b, n := At(m, key, d), At(Receive(cfg, m, from, rpc).0, key, d);
      var g := GroupOf(cfg, m, key);
      var heard := HearAll(g, from, rpc.metadatas.items);
      ReceiveLeaves(cfg, m, from, rpc, key, d);
      ReceiveAdds(cfg, m, from, rpc, key, d);
      AtGroupOf(cfg, m, key, d);
      TakeAllKeepsPeers(heard, from, rpc.batches.items, d);
      forall p: Peer ensures PeerOf(b, p).available <= PeerOf(n, p).available {
        forall pos: nat | pos in PeerOf(b, p).available ensures pos in PeerOf(BucketOf(heard, d), p).available {
          HearAllExact(g, from, rpc.metadatas.items, d, p, pos);
        }
      }
    }
  }

  lemma VerdictOnward(m: Manager, i: nat, key: Key, d: Data)
    requires i < |m.pending| && key in m.groups
    ensures key in CallBack(m, i).groups && Onward(At(m, key, d), At(CallBack(m, i), key, d))
  {
    CallBackFires(m, i, key, d, 0);
    PromoteFacts(At(m, key, d), m.pending[i].work.positions);
  }

  lemma PublishOnward(cfg: Config, m: Manager, k: Key, pos: nat, sig: Sig, data: Data, key: Key, d: Data)
    requires key in m.groups
    ensures var n := Publish(cfg, m, k, pos, sig, data); key in n.groups && Onward(At(m, key, d), At(n, key, d))
  {
    PublishExact(cfg, m, k, pos, sig, data);
  }

  lemma TickStepOnward(cfg: Config, m: Manager, k: Key, flags: PeerStates, accepts: set<Peer>, c: Choice, key: Key, d: Data)
    requires key in m.groups
    ensures var n := Tick(cfg, m, k, flags, accepts, c); key in n.groups && Onward(At(m, key, d), At(n, key, d))
  {
    if k == key && !Silent(m, k) { TickOnward(cfg.caps, m.groups[k], flags, accepts, c, d); }
  }

  lemma StepOnward(cfg: Config, m: Manager, e: Event, key: Key, d: Data)
    requires PartialSafety.Inv(cfg, m) && Enabled(cfg, m, e) && key in m.groups
    ensures var n := Next(cfg, m, e);
            if key in n.groups then Onward(At(m, key, d), At(n, key, d)) else Below(n, key)
  {
    match e
    case PublishVote(k, pos, sig, data) => PublishOnward(cfg, m, k, pos, sig, data, key, d);
    case Incoming(from, rpc) => ReceiveOnward(cfg, m, from, rpc, key, d);
    case TickOf(k, flags, accepts, choice) => TickStepOnward(cfg, m, k, flags, accepts, choice, key, d);
    case Verdict(index) => VerdictOnward(m, index, key, d);
    case SealUpTo(kind, group) =>
    case PruneUpTo(kind, group) =>
  }

  // A group that is gone and below the floor.
  predicate Gone(m: Manager, key: Key) { key !in m.groups && Below(m, key) }

  lemma StepStaysGone(cfg: Config, m: Manager, e: Event, key: Key)
    requires Enabled(cfg, m, e) && Gone(m, key) && (e.PublishVote? ==> !Below(m, e.key))
    ensures Gone(Next(cfg, m, e), key)
  {
  }

  /** A vote published here stays: from its publish on, until its group is pruned, it is validated,
      local and held with the published signature. */
  lemma {:induction false} PublishedStays(cfg: Config, m: Manager, es: seq<Event>, key: Key, pos: nat, sig: Sig, d: Data)
    requires PartialSafety.Inv(cfg, m) && IsRun(cfg, m, es) && Disciplined(cfg, m, es)
    requires Gone(m, key) || (key in m.groups && Mine(At(m, key, d), pos, sig))
    ensures var n := After(cfg, m, es); Gone(n, key) || (key in n.groups && Mine(At(n, key, d), pos, sig))
    decreases |es|
  {
    if es != [] {
      StepKeepsInv(cfg, m, es[0]);
      if key in m.groups { StepOnward(cfg, m, es[0], key, d); } else { StepStaysGone(cfg, m, es[0], key); }
      PublishedStays(cfg, Next(cfg, m, es[0]), es[1..], key, pos, sig, d);
    }
  }

  predicate Mine(b: Bucket, pos: nat, sig: Sig) { pos in b.validated && pos in b.local && pos in b.held && b.held[pos] == sig }

  // ---------------------------------------------------------------- nothing is sent twice or sent back

  ghost predicate SendsTo(outs: seq<Out>, p: Peer, d: Data, pos: nat) {
    exists out <- outs, batch <- out.batches :: out.to == p && batch.data == d && pos in batch.positions
  }

  // No tick of the run sends the position of this bucket to the peer.
  ghost predicate NeverSends(cfg: Config, m: Manager, es: seq<Event>, key: Key, d: Data, p: Peer, pos: nat)
    requires IsRun(cfg, m, es)
    decreases |es|
  {
    es != [] ==>
      && (es[0].TickOf? && es[0].key == key ==>
            !SendsTo(Emitted(cfg, m, key, es[0].flags, es[0].accepts, es[0].choice), p, d, pos))
      && NeverSends(cfg, Next(cfg, m, es[0]), es[1..], key, d, p, pos)
  }

  predicate Settled(m: Manager, key: Key, d: Data, p: Peer, pos: nat) {
    Gone(m, key) || (key in m.groups && pos in PeerOf(At(m, key, d), p).available)
  }

  lemma SettledIsNotSent(cfg: Config, m: Manager, e: Event, key: Key, d: Data, p: Peer, pos: nat)
    requires PartialSafety.Inv(cfg, m) && Enabled(cfg, m, e) && Settled(m, key, d, p, pos) && e.TickOf? && e.key == key
    ensures !SendsTo(Emitted(cfg, m, key, e.flags, e.accepts, e.choice), p, d, pos)
  {
    var outs := Emitted(cfg, m, key, e.flags, e.accepts, e.choice);
    forall out <- outs, batch <- out.batches | out.to == p && batch.data == d ensures pos !in batch.positions {
      OnlyValidatedFlows(cfg, m, key, e.flags, e.accepts, e.choice, out);
      assert HonestBatch(At(m, key, d), m.groups[key].size, p, e.flags[p].gossip, batch);
    }
  }

  lemma {:induction false} SettledIsNeverSent(cfg: Config, m: Manager, es: seq<Event>, key: Key, d: Data, p: Peer, pos: nat)
    requires PartialSafety.Inv(cfg, m) && IsRun(cfg, m, es) && Disciplined(cfg, m, es) && Settled(m, key, d, p, pos)
    ensures NeverSends(cfg, m, es, key, d, p, pos)
    decreases |es|
  {
    if es != [] {
      StepKeepsInv(cfg, m, es[0]);
      if es[0].TickOf? && es[0].key == key { SettledIsNotSent(cfg, m, es[0], key, d, p, pos); }
      if key in m.groups { StepOnward(cfg, m, es[0], key, d); } else { StepStaysGone(cfg, m, es[0], key); }
      SettledIsNeverSent(cfg, Next(cfg, m, es[0]), es[1..], key, d, p, pos);
    }
  }

  /** Nothing goes back to where it came from: once a peer has sent or advertised a position, no later
      tick of any run sends that peer the position, whatever happens in between, its prune included,
      when local publishes are above the floor. */
  lemma NeverSentBack(cfg: Config, before: seq<Event>, from: Peer, rpc: Rpc, k: nat, es: seq<Event>, d: Data, pos: nat)
    requires IsRun(cfg, NewManager(), before) && LetIn(cfg, After(cfg, NewManager(), before), rpc, k)
    requires var n := Receive(cfg, After(cfg, NewManager(), before), from, rpc).0;
             IsRun(cfg, n, es) && Disciplined(cfg, n, es)
    requires CarriedPos(rpc.batches.items[..k], d, pos)
             || (Told(rpc.metadatas.items, d, pos) && pos < Width(cfg.sizeOf(KeyOf(rpc))))
    ensures NeverSends(cfg, Receive(cfg, After(cfg, NewManager(), before), from, rpc).0, es, KeyOf(rpc), d, from, pos)
  {
    var m := After(cfg, NewManager(), before);
    NewInv(cfg);
    RunKeepsInv(cfg, NewManager(), before);
    ReceiveKeeps(cfg, m, from, rpc);
    ReceiveExact(cfg, m, from, rpc, k, d, from, pos);
    SettledIsNeverSent(cfg, Receive(cfg, m, from, rpc).0, es, KeyOf(rpc), d, from, pos);
  }

  // What a tick sends to a peer it believes the peer to hold from then on.
  lemma SentIsSettled(cfg: Config, m: Manager, key: Key, flags: PeerStates, accepts: set<Peer>, c: Choice, d: Data, p: Peer, pos: nat)
    requires Shapes(cfg, m) && TickOk(m, key, flags, c) && SendsTo(Emitted(cfg, m, key, flags, accepts, c), p, d, pos)
    ensures key in m.groups && pos in PeerOf(At(Tick(cfg, m, key, flags, accepts, c), key, d), p).available
    ensures pos !in PeerOf(At(m, key, d), p).available
  {
    var g, caps := m.groups[key], cfg.caps;
    var out, batch :| out in Emitted(cfg, m, key, flags, accepts, c) && batch in out.batches
                      && out.to == p && batch.data == d && pos in batch.positions;
    OnlyValidatedFlows(cfg, m, key, flags, accepts, c, out);
    assert HonestBatch(At(m, key, d), g.size, p, flags[p].gossip, batch);
    var i := OutsOnly(caps, g, flags, accepts, c, |c.turns|, out);
    OutCarries(caps, g, flags, accepts, c, i, d, pos);
    var asked := AskAll(caps, g.buckets[d], AskOrder(c.asks, d), g.size);
    ServeAllBelief(caps, asked, Gossips(flags), accepts, c.turns, i);
  }

  // A turn carries exactly what the bucket, as the turn finds it, has to serve.
  lemma OutCarries(caps: Caps, g: Group, flags: PeerStates, accepts: set<Peer>, c: Choice, i: nat, d: Data, pos: nat)
    requires GroupOk(caps, g) && IsTurn(g, flags, c, i)
    ensures CarriedPos(OutAt(caps, g, flags, accepts, c, i).batches, d, pos) <==>
              (d in g.buckets && pos in ServedPositions(caps, BeforeTurn(caps, g, flags, accepts, c, i, d), c.turns[i],
                                                        flags[c.turns[i]].gossip, c.turns[i] in accepts))
  {
    var p, out := c.turns[i], OutAt(caps, g, flags, accepts, c, i);
    OutAtFacts(caps, g, flags, accepts, c, i);
    if CarriedPos(out.batches, d, pos) {
      var batch :| batch in out.batches && batch.data == d && pos in batch.positions;
      assert Carries(BeforeTurn(caps, g, flags, accepts, c, i, d), g.size,
                     ServedPositions(caps, BeforeTurn(caps, g, flags, accepts, c, i, d), p, flags[p].gossip, p in accepts), batch);
    } else if d in g.buckets && pos in ServedPositions(caps, BeforeTurn(caps, g, flags, accepts, c, i, d), p, flags[p].gossip, p in accepts) {
      ServedIsInTheOut(caps, g, flags, accepts, c, i, d, pos);
    }
  }

  /** Nothing goes out twice: once a tick has sent a position to a peer, no later tick of any run sends
      it to that peer again, when local publishes are above the floor. */
  lemma NeverSentTwice(cfg: Config, before: seq<Event>, tick: Event, es: seq<Event>, d: Data, p: Peer, pos: nat)
    requires IsRun(cfg, NewManager(), before) && tick.TickOf? && Enabled(cfg, After(cfg, NewManager(), before), tick)
    requires var (m, n) := (After(cfg, NewManager(), before), Next(cfg, After(cfg, NewManager(), before), tick));
             && IsRun(cfg, n, es) && Disciplined(cfg, n, es)
             && SendsTo(Emitted(cfg, m, tick.key, tick.flags, tick.accepts, tick.choice), p, d, pos)
    ensures NeverSends(cfg, Next(cfg, After(cfg, NewManager(), before), tick), es, tick.key, d, p, pos)
  {
    var m := After(cfg, NewManager(), before);
    NewInv(cfg);
    RunKeepsInv(cfg, NewManager(), before);
    StepKeepsInv(cfg, m, tick);
    SentIsSettled(cfg, m, tick.key, tick.flags, tick.accepts, tick.choice, d, p, pos);
    SettledIsNeverSent(cfg, Next(cfg, m, tick), es, tick.key, d, p, pos);
  }

  // ---------------------------------------------------------------- the forward budget on the wire

  // How many of the messages carry the position.
  ghost function Copies(outs: seq<Out>, d: Data, pos: nat): nat {
    if outs == [] then 0 else Copies(outs[..|outs| - 1], d, pos) + Bit(CarriedPos(outs[|outs| - 1].batches, d, pos))
  }

  lemma ServeCounts(caps: Caps, b: Bucket, p: Peer, gossip: bool, accepts: bool, pos: nat)
    ensures Count(Serve(caps, b, p, gossip, accepts).sendCount, pos) ==
            Count(b.sendCount, pos) + Bit(pos in ServedPositions(caps, b, p, gossip, accepts))
  {
  }

  // Every turn has a peer and an order.
  predicate Turnable(flags: PeerStates, c: Choice) { |c.turns| == |c.orders| && forall p <- c.turns :: p in flags }

  // How many of the first n turns carry the position.
  ghost function Carriers(caps: Caps, g: Group, flags: PeerStates, accepts: set<Peer>, c: Choice, n: nat, d: Data, pos: nat): nat
    requires Turnable(flags, c) && n <= |c.turns|
  {
    if n == 0 then 0
    else Carriers(caps, g, flags, accepts, c, n - 1, d, pos) + Bit(CarriedPos(OutAt(caps, g, flags, accepts, c, n - 1).batches, d, pos))
  }

  lemma {:induction false} CarriersAreCopies(caps: Caps, g: Group, flags: PeerStates, accepts: set<Peer>, c: Choice, n: nat, d: Data, pos: nat)
    requires Turnable(flags, c) && n <= |c.turns|
    ensures Copies(Outs(caps, g, flags, accepts, c, n), d, pos) == Carriers(caps, g, flags, accepts, c, n, d, pos)
  {
    if n > 0 {
      CarriersAreCopies(caps, g, flags, accepts, c, n - 1, d, pos);
      OutsStep(caps, g, flags, accepts, c, n - 1, d, pos);
    }
  }

  lemma {:induction false} TurnsCount(caps: Caps, g: Group, flags: PeerStates, accepts: set<Peer>, c: Choice, n: nat, d: Data, pos: nat)
    requires GroupOk(caps, g) && ValidChoice(g, flags, c) && n <= |c.turns|
    ensures Count(BeforeTurn(caps, g, flags, accepts, c, n, d).sendCount, pos) ==
            Count(BucketOf(g, d).sendCount, pos) + Carriers(caps, g, flags, accepts, c, n, d, pos)
  {
    if n == 0 {
      BeforeFirstTurn(caps, g, flags, accepts, c, d);
    } else {
      TurnsCount(caps, g, flags, accepts, c, n - 1, d, pos);
      TurnCounts(caps, g, flags, accepts, c, n - 1, d, pos);
    }
  }

  lemma BeforeFirstTurn(caps: Caps, g: Group, flags: PeerStates, accepts: set<Peer>, c: Choice, d: Data)
    ensures BeforeTurn(caps, g, flags, accepts, c, 0, d).sendCount == BucketOf(g, d).sendCount
  {
    assert c.turns[..0] == [];
    if d in g.buckets { AskAllFacts(caps, g.size, g.buckets[d], AskOrder(c.asks, d)); }
  }

  lemma TurnCounts(caps: Caps, g: Group, flags: PeerStates, accepts: set<Peer>, c: Choice, i: nat, d: Data, pos: nat)
    requires GroupOk(caps, g) && IsTurn(g, flags, c, i)
    ensures Count(BeforeTurn(caps, g, flags, accepts, c, i + 1, d).sendCount, pos) ==
            Count(BeforeTurn(caps, g, flags, accepts, c, i, d).sendCount, pos)
            + Bit(CarriedPos(OutAt(caps, g, flags, accepts, c, i).batches, d, pos))
  {
    var p := c.turns[i];
    TurnStep(caps, g, flags, accepts, c, i, d);
    OutCarries(caps, g, flags, accepts, c, i, d, pos);
    if d in g.buckets {
      ServeCounts(caps, BeforeTurn(caps, g, flags, accepts, c, i, d), p, p in Gossips(flags), p in accepts, pos);
    }
  }

  lemma BeforeTurnIs(caps: Caps, g: Group, flags: PeerStates, accepts: set<Peer>, c: Choice, i: nat, d: Data)
    requires i <= |c.turns|
    ensures BeforeTurn(caps, g, flags, accepts, c, i, d) ==
            if d in g.buckets
            then ServeAll(caps, AskAll(caps, g.buckets[d], AskOrder(c.asks, d), g.size), Gossips(flags), accepts, c.turns[..i])
            else Fresh()
  {
  }

  lemma TurnStep(caps: Caps, g: Group, flags: PeerStates, accepts: set<Peer>, c: Choice, i: nat, d: Data)
    requires i < |c.turns|
    ensures var (b, p) := (BeforeTurn(caps, g, flags, accepts, c, i, d), c.turns[i]);
            BeforeTurn(caps, g, flags, accepts, c, i + 1, d) ==
              if d in g.buckets then Serve(caps, b, p, p in Gossips(flags), p in accepts) else b
  {
    var order := c.turns[..i + 1];
    assert order[..i] == c.turns[..i] && order[i] == c.turns[i];
    BeforeTurnIs(caps, g, flags, accepts, c, i, d);
    BeforeTurnIs(caps, g, flags, accepts, c, i + 1, d);
  }

  lemma OutsStep(caps: Caps, g: Group, flags: PeerStates, accepts: set<Peer>, c: Choice, i: nat, d: Data, pos: nat)
    requires Turnable(flags, c) && i < |c.turns|
    ensures var (now, next, out) := (Outs(caps, g, flags, accepts, c, i), Outs(caps, g, flags, accepts, c, i + 1), OutAt(caps, g, flags, accepts, c, i));
            && Copies(next, d, pos) == Copies(now, d, pos) + Bit(CarriedPos(out.batches, d, pos))
            && Requests(next, d, pos) == Requests(now, d, pos) + Bit(Asks(out.metadatas, d, pos))
  {
    var now, next, out := Outs(caps, g, flags, accepts, c, i), Outs(caps, g, flags, accepts, c, i + 1), OutAt(caps, g, flags, accepts, c, i);
    if out.metadatas == [] && out.batches == [] {
      assert next == now && !CarriedPos(out.batches, d, pos) && !Asks(out.metadatas, d, pos);
    } else {
      assert next[..|next| - 1] == now;
    }
  }

  lemma GroupCounts(caps: Caps, g: Group, flags: PeerStates, accepts: set<Peer>, c: Choice, d: Data, pos: nat)
    requires GroupOk(caps, g) && ValidChoice(g, flags, c)
    ensures Count(BucketOf(TickGroup(caps, g, flags, accepts, c), d).sendCount, pos) ==
            Count(BucketOf(g, d).sendCount, pos) + Copies(Outs(caps, g, flags, accepts, c, |c.turns|), d, pos)
  {
    TurnsCount(caps, g, flags, accepts, c, |c.turns|, d, pos);
    CarriersAreCopies(caps, g, flags, accepts, c, |c.turns|, d, pos);
    assert c.turns[..|c.turns|] == c.turns;
  }

  /** One tick counts what it sends: a position's forward count grows by the number of messages that
      carry it. */
  lemma TickCounts(cfg: Config, m: Manager, key: Key, flags: PeerStates, accepts: set<Peer>, c: Choice, d: Data, pos: nat)
    requires Shapes(cfg, m) && TickOk(m, key, flags, c)
    ensures Count(At(Tick(cfg, m, key, flags, accepts, c), key, d).sendCount, pos) ==
            Count(At(m, key, d).sendCount, pos) + Copies(Emitted(cfg, m, key, flags, accepts, c), d, pos)
  {
    if !Silent(m, key) { GroupCounts(cfg.caps, m.groups[key], flags, accepts, c, d, pos); }
  }

  // All copies of a position the ticks of a run send.
  ghost function CopiesOver(cfg: Config, m: Manager, es: seq<Event>, key: Key, d: Data, pos: nat): nat
    requires IsRun(cfg, m, es)
    decreases |es|
  {
    if es == [] then 0
    else
      (if es[0].TickOf? && es[0].key == key
       then Copies(Emitted(cfg, m, key, es[0].flags, es[0].accepts, es[0].choice), d, pos) else 0)
      + CopiesOver(cfg, Next(cfg, m, es[0]), es[1..], key, d, pos)
  }

  ghost function RequestsOver(cfg: Config, m: Manager, es: seq<Event>, key: Key, d: Data, pos: nat): nat
    requires IsRun(cfg, m, es)
    decreases |es|
  {
    if es == [] then 0
    else
      (if es[0].TickOf? && es[0].key == key
       then Requests(Emitted(cfg, m, key, es[0].flags, es[0].accepts, es[0].choice), d, pos) else 0)
      + RequestsOver(cfg, Next(cfg, m, es[0]), es[1..], key, d, pos)
  }

  lemma {:induction false} GoneSendsNothing(cfg: Config, m: Manager, es: seq<Event>, key: Key, d: Data, pos: nat)
    requires IsRun(cfg, m, es) && Disciplined(cfg, m, es) && Gone(m, key)
    ensures CopiesOver(cfg, m, es, key, d, pos) == 0 && RequestsOver(cfg, m, es, key, d, pos) == 0
    decreases |es|
  {
    if es != [] {
      StepStaysGone(cfg, m, es[0], key);
      GoneSendsNothing(cfg, Next(cfg, m, es[0]), es[1..], key, d, pos);
    }
  }

  lemma BudgetsAt(cfg: Config, m: Manager, key: Key, d: Data, pos: nat)
    requires Shapes(cfg, m)
    ensures Count(At(m, key, d).sendCount, pos) <= cfg.caps.maxPeers
    ensures Count(At(m, key, d).requestCount, pos) <= cfg.caps.maxIWant
  {
    FreshInv(cfg.caps, 0);
  }

  lemma StepCounts(cfg: Config, m: Manager, e: Event, key: Key, d: Data, pos: nat)
    requires PartialSafety.Inv(cfg, m) && Enabled(cfg, m, e)
    ensures var (b, n) := (At(m, key, d), Next(cfg, m, e));
            var tick := e.TickOf? && e.key == key;
            !Gone(n, key) ==>
              && Count(b.sendCount, pos) + (if tick then Copies(Emitted(cfg, m, key, e.flags, e.accepts, e.choice), d, pos) else 0)
                 <= Count(At(n, key, d).sendCount, pos)
              && Count(b.requestCount, pos) + (if tick then Requests(Emitted(cfg, m, key, e.flags, e.accepts, e.choice), d, pos) else 0)
                 <= Count(At(n, key, d).requestCount, pos)
  {
    if e.TickOf? && e.key == key {
      TickCounts(cfg, m, key, e.flags, e.accepts, e.choice, d, pos);
      TickAsks(cfg, m, key, e.flags, e.accepts, e.choice, d, pos);
    } else if key in m.groups {
      StepOnward(cfg, m, e, key, d);
    }
  }

  lemma {:induction false} BudgetsBoundTheWire(cfg: Config, m: Manager, es: seq<Event>, key: Key, d: Data, pos: nat)
    requires PartialSafety.Inv(cfg, m) && IsRun(cfg, m, es) && Disciplined(cfg, m, es)
    ensures Count(At(m, key, d).sendCount, pos) + CopiesOver(cfg, m, es, key, d, pos) <= cfg.caps.maxPeers
    ensures Count(At(m, key, d).requestCount, pos) + RequestsOver(cfg, m, es, key, d, pos) <= cfg.caps.maxIWant
    decreases |es|
  {
    BudgetsAt(cfg, m, key, d, pos);
    if es != [] {
      var n := Next(cfg, m, es[0]);
      StepKeepsInv(cfg, m, es[0]);
      StepCounts(cfg, m, es[0], key, d, pos);
      BudgetsAt(cfg, n, key, d, pos);
      if Gone(n, key) {
        GoneSendsNothing(cfg, n, es[1..], key, d, pos);
        if es[0].TickOf? && es[0].key == key { TickOfGone(cfg, m, es[0], key); }
      } else {
        BudgetsBoundTheWire(cfg, n, es[1..], key, d, pos);
      }
    }
  }

  // The step that takes a group away sends nothing for it.
  lemma TickOfGone(cfg: Config, m: Manager, e: Event, key: Key)
    requires Enabled(cfg, m, e) && Gone(Next(cfg, m, e), key) && e.TickOf? && e.key == key
    ensures Emitted(cfg, m, key, e.flags, e.accepts, e.choice) == []
  {
  }

  /** Over every run whose local publishes are above the floor, a position of a bucket goes out to at
      most maxPeers peers and is asked for at most maxIWant times, counted on the wire. */
  lemma WireBudgets(cfg: Config, es: seq<Event>, key: Key, d: Data, pos: nat)
    requires IsRun(cfg, NewManager(), es) && Disciplined(cfg, NewManager(), es)
    ensures CopiesOver(cfg, NewManager(), es, key, d, pos) <= cfg.caps.maxPeers
    ensures RequestsOver(cfg, NewManager(), es, key, d, pos) <= cfg.caps.maxIWant
  {
    NewInv(cfg);
    BudgetsBoundTheWire(cfg, NewManager(), es, key, d, pos);
  }

  // ---------------------------------------------------------------- the request budget on the wire

  // How many of the messages ask for the position.
  ghost function Requests(outs: seq<Out>, d: Data, pos: nat): nat {
    if outs == [] then 0 else Requests(outs[..|outs| - 1], d, pos) + Bit(Asks(outs[|outs| - 1].metadatas, d, pos))
  }

  ghost function Askers(caps: Caps, b: Bucket, order: seq<Peer>, size: nat, pos: nat): set<Peer> {
    set p | p in order && pos in WantsOf(caps, b, order, p, size)
  }

  lemma {:induction false} AskersCount(caps: Caps, b: Bucket, order: seq<Peer>, size: nat, pos: nat)
    requires Distinct(order)
    ensures Count(AskAll(caps, b, order, size).requestCount, pos) ==
            Count(b.requestCount, pos) + |Askers(caps, b, order, size, pos)|
  {
    if order == [] {
      assert Askers(caps, b, order, size, pos) == {};
    } else {
      var front, last := order[..|order| - 1], order[|order| - 1];
      AskersCount(caps, b, front, size, pos);
      assert last !in front;
      var more: set<Peer> := if pos in Wanted(caps, AskAll(caps, b, front, size), last, size) then {last} else {};
      forall p: Peer
        ensures p in Askers(caps, b, order, size, pos) <==> p in Askers(caps, b, front, size, pos) + more
      {
      }
      assert Askers(caps, b, order, size, pos) == Askers(caps, b, front, size, pos) + more;
    }
  }

  lemma {:induction false} OnlyListedWant(caps: Caps, b: Bucket, order: seq<Peer>, p: Peer, size: nat)
    requires p !in order
    ensures WantsOf(caps, b, order, p, size) == {}
  {
    if order != [] { OnlyListedWant(caps, b, order[..|order| - 1], p, size); }
  }

  ghost function AskedPeers(caps: Caps, g: Group, c: Choice, d: Data, pos: nat): set<Peer> {
    if d in g.buckets then Askers(caps, g.buckets[d], AskOrder(c.asks, d), g.size, pos) else {}
  }

  lemma TurnAsksOnly(caps: Caps, g: Group, flags: PeerStates, accepts: set<Peer>, c: Choice, i: nat, d: Data, pos: nat)
    requires GroupOk(caps, g) && IsTurn(g, flags, c, i) && Asks(OutAt(caps, g, flags, accepts, c, i).metadatas, d, pos)
    ensures c.turns[i] in AskedPeers(caps, g, c, d, pos)
  {
    var p := c.turns[i];
    OutAtFacts(caps, g, flags, accepts, c, i);
    MetasToFacts(caps, g, c, p, flags[p].armed, c.orders[i]);
    var md :| md in OutAt(caps, g, flags, accepts, c, i).metadatas && md.data == d && pos in md.requests;
    if p !in AskOrder(c.asks, d) { OnlyListedWant(caps, BucketOf(g, d), AskOrder(c.asks, d), p, g.size); }
  }

  lemma TurnAsksIf(caps: Caps, g: Group, flags: PeerStates, accepts: set<Peer>, c: Choice, i: nat, d: Data, pos: nat)
    requires IsTurn(g, flags, c, i) && c.turns[i] in AskedPeers(caps, g, c, d, pos)
    ensures Asks(OutAt(caps, g, flags, accepts, c, i).metadatas, d, pos)
  {
    var p := c.turns[i];
    MetasToFacts(caps, g, c, p, flags[p].armed, c.orders[i]);
    assert p in Gossips(flags) && c.orders[i] in c.orders && d in c.orders[i];
    var md :| md in MetasTo(caps, g, c.asks, p, flags[p].armed, c.orders[i]) && md.data == d;
  }

  lemma TurnAsks(caps: Caps, g: Group, flags: PeerStates, accepts: set<Peer>, c: Choice, i: nat, d: Data, pos: nat)
    requires GroupOk(caps, g) && IsTurn(g, flags, c, i)
    ensures var (now, next) := (Outs(caps, g, flags, accepts, c, i), Outs(caps, g, flags, accepts, c, i + 1));
            Requests(next, d, pos) == Requests(now, d, pos) + Bit(c.turns[i] in AskedPeers(caps, g, c, d, pos))
  {
    OutsStep(caps, g, flags, accepts, c, i, d, pos);
    if Asks(OutAt(caps, g, flags, accepts, c, i).metadatas, d, pos) { TurnAsksOnly(caps, g, flags, accepts, c, i, d, pos); }
    if c.turns[i] in AskedPeers(caps, g, c, d, pos) { TurnAsksIf(caps, g, flags, accepts, c, i, d, pos); }
  }

  // How many of the first n turns belong to one of the peers.
  function TurnsOf(asked: set<Peer>, turns: seq<Peer>, n: nat): nat
    requires n <= |turns|
  {
    if n == 0 then 0 else TurnsOf(asked, turns, n - 1) + Bit(turns[n - 1] in asked)
  }

  lemma {:induction false} TurnsAsk(caps: Caps, g: Group, flags: PeerStates, accepts: set<Peer>, c: Choice, n: nat, d: Data, pos: nat)
    requires GroupOk(caps, g) && ValidChoice(g, flags, c) && n <= |c.turns|
    ensures Requests(Outs(caps, g, flags, accepts, c, n), d, pos) == TurnsOf(AskedPeers(caps, g, c, d, pos), c.turns, n)
  {
    if n > 0 {
      TurnsAsk(caps, g, flags, accepts, c, n - 1, d, pos);
      TurnAsks(caps, g, flags, accepts, c, n - 1, d, pos);
    }
  }

  lemma {:induction false} TurnsAreDistinct(asked: set<Peer>, turns: seq<Peer>, n: nat)
    requires n <= |turns| && Distinct(turns)
    ensures TurnsOf(asked, turns, n) == |asked * Positions(turns[..n])| <= |asked|
  {
    if n == 0 {
      assert asked * Positions(turns[..n]) == {};
    } else {
      TurnsAreDistinct(asked, turns, n - 1);
      OneTurnMore(asked, turns, n - 1);
    }
    Narrower(asked * Positions(turns[..n]), asked);
  }

  lemma OneTurnMore(asked: set<Peer>, turns: seq<Peer>, i: nat)
    requires i < |turns| && Distinct(turns)
    ensures |asked * Positions(turns[..i + 1])| == |asked * Positions(turns[..i])| + Bit(turns[i] in asked)
  {
    assert turns[..i + 1] == turns[..i] + [turns[i]];
    assert Positions(turns[..i + 1]) == Positions(turns[..i]) + {turns[i]};
    assert turns[i] !in Positions(turns[..i]);
    if turns[i] in asked {
      assert asked * Positions(turns[..i + 1]) == asked * Positions(turns[..i]) + {turns[i]};
    } else {
      assert asked * Positions(turns[..i + 1]) == asked * Positions(turns[..i]);
    }
  }

  lemma Narrower<T>(a: set<T>, b: set<T>)
    requires a <= b
    ensures |a| <= |b|
  {
    assert b == a + (b - a);
  }

  lemma TickRequests(caps: Caps, g: Group, flags: PeerStates, accepts: set<Peer>, c: Choice, d: Data, pos: nat)
    requires GroupOk(caps, g) && ValidChoice(g, flags, c)
    ensures Count(BucketOf(g, d).requestCount, pos) + |AskedPeers(caps, g, c, d, pos)| ==
            Count(BucketOf(TickGroup(caps, g, flags, accepts, c), d).requestCount, pos)
  {
    if d in g.buckets {
      AskersCount(caps, g.buckets[d], AskOrder(c.asks, d), g.size, pos);
      ServeAllFacts(caps, AskAll(caps, g.buckets[d], AskOrder(c.asks, d), g.size), Gossips(flags), accepts, c.turns);
    }
  }

  lemma GroupRequests(caps: Caps, g: Group, flags: PeerStates, accepts: set<Peer>, c: Choice, d: Data, pos: nat)
    requires GroupOk(caps, g) && ValidChoice(g, flags, c)
    ensures var (asked, sent) := (Count(BucketOf(TickGroup(caps, g, flags, accepts, c), d).requestCount, pos),
                                  Count(BucketOf(g, d).requestCount, pos) + Requests(Outs(caps, g, flags, accepts, c, |c.turns|), d, pos));
            sent <= asked && (Lists(c.turns, flags.Keys) ==> sent == asked)
  {
    TurnsAsk(caps, g, flags, accepts, c, |c.turns|, d, pos);
    TickRequests(caps, g, flags, accepts, c, d, pos);
    TurnsAreDistinct(AskedPeers(caps, g, c, d, pos), c.turns, |c.turns|);
    if Lists(c.turns, flags.Keys) { AllAskedHaveTurns(caps, g, flags, c, d, pos); }
  }

  /** One tick sends no more requests for a position than it counts, and one that ran to its end sends
      exactly those. */
  lemma TickAsks(cfg: Config, m: Manager, key: Key, flags: PeerStates, accepts: set<Peer>, c: Choice, d: Data, pos: nat)
    requires Shapes(cfg, m) && TickOk(m, key, flags, c)
    ensures var (asked, sent) := (Count(At(Tick(cfg, m, key, flags, accepts, c), key, d).requestCount, pos),
                                  Count(At(m, key, d).requestCount, pos) + Requests(Emitted(cfg, m, key, flags, accepts, c), d, pos));
            sent <= asked && (Lists(c.turns, flags.Keys) ==> sent == asked)
  {
    if !Silent(m, key) { GroupRequests(cfg.caps, m.groups[key], flags, accepts, c, d, pos); }
  }

  lemma AllAskedHaveTurns(caps: Caps, g: Group, flags: PeerStates, c: Choice, d: Data, pos: nat)
    requires ValidChoice(g, flags, c) && Lists(c.turns, flags.Keys)
    ensures var asked := AskedPeers(caps, g, c, d, pos); asked * Positions(c.turns[..|c.turns|]) == asked
  {
    assert c.turns[..|c.turns|] == c.turns;
    forall p <- AskedPeers(caps, g, c, d, pos) ensures p in Positions(c.turns) { assert p in c.asks[d] && p in Gossips(flags); }
  }

  // How many gossip peers are believed to hold the position.
  ghost function Holders(b: Bucket, flags: PeerStates, pos: nat): nat {
    |set p | p in Gossips(flags) && pos in PeerOf(b, p).available|
  }

  /** A tick that ran to its end sends, for each missing position of the committee, as many requests as
      gossip peers are believed to hold it or as the budget still allows, whichever is less. */
  lemma FullTickAsks(caps: Caps, g: Group, flags: PeerStates, accepts: set<Peer>, c: Choice, d: Data, pos: nat)
    requires GroupOk(caps, g) && ValidChoice(g, flags, c) && Lists(c.turns, flags.Keys)
    requires d in g.buckets && pos < g.size && pos !in g.buckets[d].held
    ensures var (sent, asked) := (Requests(Outs(caps, g, flags, accepts, c, |c.turns|), d, pos), Count(g.buckets[d].requestCount, pos));
            var holders := Holders(g.buckets[d], flags, pos);
            asked <= caps.maxIWant && sent == if asked + holders <= caps.maxIWant then holders else caps.maxIWant - asked
  {
    GroupRequests(caps, g, flags, accepts, c, d, pos);
    GroupAsks(caps, g, flags, accepts, c, d, pos);
  }

  lemma GroupAsks(caps: Caps, g: Group, flags: PeerStates, accepts: set<Peer>, c: Choice, d: Data, pos: nat)
    requires ValidChoice(g, flags, c) && d in g.buckets && pos < g.size && pos !in g.buckets[d].held
    requires Count(g.buckets[d].requestCount, pos) <= caps.maxIWant
    ensures var asked := Count(g.buckets[d].requestCount, pos) + Holders(g.buckets[d], flags, pos);
            Count(BucketOf(TickGroup(caps, g, flags, accepts, c), d).requestCount, pos) ==
              if asked <= caps.maxIWant then asked else caps.maxIWant
  {
    AskAllExact(caps, g.size, g.buckets[d], c.asks[d], pos);
    AdvertisersCount(g.buckets[d], c.asks[d], Gossips(flags), pos);
    ServeAllFacts(caps, AskAll(caps, g.buckets[d], c.asks[d], g.size), Gossips(flags), accepts, c.turns);
  }

  lemma {:induction false} AdvertisersCount(b: Bucket, order: seq<Peer>, all: set<Peer>, pos: nat)
    requires Lists(order, all)
    ensures Advertisers(b, order, pos) == |set p | p in all && pos in PeerOf(b, p).available|
    decreases |order|
  {
    if order == [] {
      assert (set p | p in all && pos in PeerOf(b, p).available) == {};
    } else {
      var front, last := order[..|order| - 1], order[|order| - 1];
      assert last !in front && forall p :: p in order <==> p in front || p == last;
      AdvertisersCount(b, front, all - {last}, pos);
      assert (set p | p in all && pos in PeerOf(b, p).available) ==
        (set p | p in all - {last} && pos in PeerOf(b, p).available) + if pos in PeerOf(b, last).available then {last} else {};
    }
  }
}
