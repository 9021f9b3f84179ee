/** The main results about every run of one partial-message manager (node/partial.go). */
module PartialRuns {
  import opened PartialBucket
  import opened PartialManager
  import opened PartialSafety
  import opened PartialWire

  ghost predicate IsRun(cfg: Config, m: Manager, es: seq<Event>)
    decreases |es|
  {
    es == [] || (Enabled(cfg, m, es[0]) && IsRun(cfg, Next(cfg, m, es[0]), es[1..]))
  }

  ghost function After(cfg: Config, m: Manager, es: seq<Event>): Manager
    requires IsRun(cfg, m, es)
    decreases |es|
  {
    if es == [] then m else After(cfg, Next(cfg, m, es[0]), es[1..])
  }

  lemma {:induction false} RunKeepsInv(cfg: Config, m: Manager, es: seq<Event>)
    requires PartialSafety.Inv(cfg, m) && IsRun(cfg, m, es)
    ensures PartialSafety.Inv(cfg, After(cfg, m, es))
    decreases |es|
  {
    if es != [] {
      StepKeepsInv(cfg, m, es[0]);
      RunKeepsInv(cfg, Next(cfg, m, es[0]), es[1..]);
    }
  }

  // ---------------------------------------------------------------- exactly once, and the budgets

  /** After any run: what a live bucket holds is the disjoint union of validating and validated; each
      validating position stands exactly once in the items pending at the verifier; the positions
      that fired an arrival are exactly the validated ones not published here; and no arrival of any
      bucket, live or pruned, has fired twice. */
  lemma ArrivalsExactlyOnce(cfg: Config, es: seq<Event>, key: Key, d: Data, pos: nat)
    requires IsRun(cfg, NewManager(), es)
    ensures var m := After(cfg, NewManager(), es);
            var b := At(m, key, d);
            && (pos in b.held <==> pos in b.validating || pos in b.validated)
            && !(pos in b.validating && pos in b.validated)
            && Fired(m, key, d, pos) <= 1
            && (!Below(m, key) ==>
                  && Queued(m.pending, key, d, pos) == (if pos in b.validating then 1 else 0)
                  && (Fired(m, key, d, pos) == 1 <==> pos in b.validated && pos !in b.local))
  {
    NewInv(cfg);
    RunKeepsInv(cfg, NewManager(), es);
    var m := After(cfg, NewManager(), es);
    FreshInv(cfg.caps, 0);
    assert Queued(m.pending, key, d, pos) >= 0 && Fired(m, key, d, pos) <= 1;
    assert !Below(m, key) ==> Fired(m, key, d, pos) == Bit(pos in At(m, key, d).validated - At(m, key, d).local);
  }

  /** After any run, in every bucket: a position's forward count is the number of distinct peers it
      was claimed for and stays within maxPeers; its request count stays within maxIWant; the belief
      about a peer is what was claimed for it or heard from it; only validated positions are claimed. */
  lemma BudgetsOverEveryRun(cfg: Config, es: seq<Event>, key: Key, d: Data, p: Peer, pos: nat)
    requires IsRun(cfg, NewManager(), es)
    ensures var b := At(After(cfg, NewManager(), es), key, d);
            && Count(b.sendCount, pos) == |set c | c in b.claims && c.1 == pos| <= cfg.caps.maxPeers
            && Count(b.requestCount, pos) <= cfg.caps.maxIWant
            && (pos in PeerOf(b, p).available <==> (p, pos) in b.claims || (p, pos) in b.heard)
            && ((p, pos) in b.claims ==> pos in b.validated && pos < cfg.sizeOf(key))
            && (pos in PeerOf(b, p).available + PeerOf(b, p).pendingWant ==>
                  cfg.sizeOf(key) > 0 && pos < Width(cfg.sizeOf(key)))
  {
    NewInv(cfg);
    RunKeepsInv(cfg, NewManager(), es);
    var m := After(cfg, NewManager(), es);
    var b := At(m, key, d);
    FreshInv(cfg.caps, 0);
    assert ClaimsOf(b, pos) == set c | c in b.claims && c.1 == pos;
    assert pos in PeerOf(b, p).available <==> (p, pos) in b.claims || (p, pos) in b.heard;
    if (p, pos) in b.claims {
      assert key in m.groups && d in m.groups[key].buckets;
      assert pos in b.validated && pos in b.held;
    }
  }

  // ---------------------------------------------------------------- redelivery and rejection

  // The votes of a bucket and everything that decides what is sent, beliefs aside.
  ghost predicate SameContents(b: Bucket, n: Bucket) {
    n == b.(peers := n.peers, heard := n.heard)
  }

  lemma {:induction false} HeldOnlyAdds(b: Bucket, positions: seq<nat>, sigs: seq<Sig>)
    requires |positions| == |sigs| && forall pos <- positions :: pos in b.held
    ensures AddReceived(b, positions, sigs) == (b, [])
  {
    if positions != [] { HeldOnlyAdds(b, positions[..|positions| - 1], sigs[..|sigs| - 1]); }
  }

  lemma {:induction false} RedeliveredBatches(g: Group, from: Peer, batches: seq<Batch>)
    requires forall batch <- batches, pos <- batch.positions :: pos in BucketOf(g, batch.data).held
    ensures var t := TakeAll(g, from, batches);
            t.work == [] && t.group.size == g.size && forall d :: SameContents(BucketOf(g, d), BucketOf(t.group, d))
  {
    if batches != [] {
      var front, batch := TakeAll(g, from, batches[..|batches| - 1]), batches[|batches| - 1];
      RedeliveredBatches(g, from, batches[..|batches| - 1]);
      assert batch in batches;
      if !front.outcome.Failed? && !CheckBatch(front.group.size, batch).Failed? {
        assert SameContents(BucketOf(g, batch.data), BucketOf(front.group, batch.data));
        HeldOnlyAdds(BucketOf(front.group, batch.data), batch.positions, batch.sigs);
      }
    }
  }

  /** An RPC whose batches repeat positions already held, in whatever order and however often, adds
      no vote, replaces no signature and submits nothing to the verifier. */
  lemma RedeliveryChangesNothing(cfg: Config, m: Manager, from: Peer, rpc: Rpc, key: Key, d: Data)
    requires Shapes(cfg, m)
    requires rpc.topic.PartialTopic? && rpc.batches.Parsed?
    requires forall batch <- rpc.batches.items, pos <- batch.positions :: pos in At(m, KeyOf(rpc), batch.data).held
    ensures var n := Receive(cfg, m, from, rpc).0;
            n.pending == m.pending && n.fired == m.fired && SameContents(At(m, key, d), At(n, key, d))
  {
    if !Early(cfg, m, rpc).0 {
      var k, g := KeyOf(rpc), GroupOf(cfg, m, KeyOf(rpc));
      GroupOfOk(cfg, m, k);
      HearAllFacts(cfg.caps, g, from, rpc.metadatas.items);
      var heard := HearAll(g, from, rpc.metadatas.items);
      forall batch <- rpc.batches.items, pos <- batch.positions ensures pos in BucketOf(heard, batch.data).held {
        assert OnlyHeard(BucketOf(g, batch.data), BucketOf(heard, batch.data));
        AtGroupOf(cfg, m, k, batch.data);
      }
      RedeliveredBatches(heard, from, rpc.batches.items);
      AtGroupOf(cfg, m, k, d);
      assert OnlyHeard(BucketOf(g, d), BucketOf(heard, d));
      assert m.pending + [] == m.pending;
    }
  }

  /** Batches are taken up to the first malformed one: the RPC fails exactly when some batch is
      malformed, with that batch's error, and the state is that of the batches before it. */
  lemma {:induction false} RejectedBatchChangesNothing(g: Group, from: Peer, batches: seq<Batch>)
    ensures TakeAll(g, from, batches).group.size == g.size
    ensures TakeAll(g, from, batches).outcome == Fine <==> forall batch <- batches :: CheckBatch(g.size, batch) == Fine
    ensures TakeAll(g, from, batches).outcome.Failed? ==>
              exists k: nat :: k < |batches| && CheckBatch(g.size, batches[k]).Failed?
                && (forall j :: 0 <= j < k ==> CheckBatch(g.size, batches[j]) == Fine)
                && TakeAll(g, from, batches) == TakeAll(g, from, batches[..k]).(outcome := CheckBatch(g.size, batches[k]))
  {
    if batches != [] {
      var last := |batches| - 1;
      RejectedBatchChangesNothing(g, from, batches[..last]);
      var front, batch := TakeAll(g, from, batches[..last]), batches[last];
      assert forall x <- batches :: x in batches[..last] || x == batch;
      if front.outcome.Failed? {
        var k: nat :| k < last && CheckBatch(g.size, batches[..last][k]).Failed?
                && (forall j :: 0 <= j < k ==> CheckBatch(g.size, batches[..last][j]) == Fine)
                && TakeAll(g, from, batches[..last])
                   == TakeAll(g, from, batches[..last][..k]).(outcome := CheckBatch(g.size, batches[..last][k]));
        assert batches[..last][..k] == batches[..k];
        forall j | 0 <= j < k ensures CheckBatch(g.size, batches[j]) == Fine {
          assert batches[..last][j] == batches[j];
        }
        assert batches[k] in batches;
      } else if CheckBatch(g.size, batch).Failed? {
        forall j | 0 <= j < last ensures CheckBatch(g.size, batches[j]) == Fine {
          assert batches[..last][j] == batches[j];
        }
        assert batch in batches;
      }
    }
  }

  // ---------------------------------------------------------------- no resurrection

  // Local publishes use keys above the floor.
  ghost predicate Disciplined(cfg: Config, m: Manager, es: seq<Event>)
    requires IsRun(cfg, m, es)
    decreases |es|
  {
    es != [] ==> (es[0].PublishVote? ==> !Below(m, es[0].key)) && Disciplined(cfg, Next(cfg, m, es[0]), es[1..])
  }

  // No live group is at or below its kind's pruned watermark.
  predicate AboveFloor(m: Manager) { forall key <- m.groups :: !Below(m, key) }

  ghost predicate AlwaysAboveFloor(cfg: Config, m: Manager, es: seq<Event>)
    requires IsRun(cfg, m, es)
    decreases |es|
  {
    AboveFloor(m) && (es != [] ==> AlwaysAboveFloor(cfg, Next(cfg, m, es[0]), es[1..]))
  }

  lemma StepStaysAboveFloor(cfg: Config, m: Manager, e: Event)
    requires AboveFloor(m) && Enabled(cfg, m, e)
    ensures AboveFloor(Next(cfg, m, e)) <==> (e.PublishVote? ==> !Below(m, e.key))
  {
    if e.PublishVote? { assert e.key in Next(cfg, m, e).groups; }
  }

  /** A run keeps every live group above the watermark exactly when every local publish uses a key
      above it; peers cannot bring a pruned group back. */
  lemma {:induction false} NoResurrectionIff(cfg: Config, m: Manager, es: seq<Event>)
    requires IsRun(cfg, m, es) && AboveFloor(m)
    ensures AlwaysAboveFloor(cfg, m, es) <==> Disciplined(cfg, m, es)
    decreases |es|
  {
    if es != [] {
      StepStaysAboveFloor(cfg, m, es[0]);
      if AboveFloor(Next(cfg, m, es[0])) {
        NoResurrectionIff(cfg, Next(cfg, m, es[0]), es[1..]);
      } else {
        assert !AlwaysAboveFloor(cfg, Next(cfg, m, es[0]), es[1..]);
      }
    }
  }

  /** publishLocal does not consult the floor: publishing for the pruned group 5 brings it back. */
  lemma PublishResurrects()
    ensures var cfg := Config(Caps(1, 1), false, (k: Key) => 1);
            var pruned := Prune(NewManager(), Attestation, 5);
            var n := Publish(cfg, pruned, Key(Attestation, 0, 5), 0, "sig", "data");
            Below(n, Key(Attestation, 0, 5)) && Key(Attestation, 0, 5) in n.groups
  {
  }

  lemma StepRaisesFloor(cfg: Config, m: Manager, e: Event, key: Key)
    requires Enabled(cfg, m, e) && Below(m, key)
    ensures Below(Next(cfg, m, e), key)
  {
  }

  lemma StepFiresNothingBelow(cfg: Config, m: Manager, e: Event, key: Key, d: Data, pos: nat)
    requires PartialSafety.Inv(cfg, m) && Enabled(cfg, m, e) && Below(m, key)
    ensures Fired(Next(cfg, m, e), key, d, pos) == Fired(m, key, d, pos)
  {
    if e.Verdict? {
      CallBackFires(m, e.index, key, d, pos);
      assert At(m, key, d).validating == {};
    }
  }

  /** The floor never comes down, and a pruned group never fires another arrival, whatever is
      published, received or called back afterwards. */
  lemma {:induction false} PrunedNeverFires(cfg: Config, m: Manager, es: seq<Event>, key: Key, d: Data, pos: nat)
    requires PartialSafety.Inv(cfg, m) && IsRun(cfg, m, es) && Below(m, key)
    ensures Below(After(cfg, m, es), key)
    ensures Fired(After(cfg, m, es), key, d, pos) == Fired(m, key, d, pos)
    decreases |es|
  {
    if es != [] {
      var n := Next(cfg, m, es[0]);
      StepKeepsInv(cfg, m, es[0]);
      StepRaisesFloor(cfg, m, es[0], key);
      StepFiresNothingBelow(cfg, m, es[0], key, d, pos);
      PrunedNeverFires(cfg, n, es[1..], key, d, pos);
    }
  }

  // ---------------------------------------------------------------- sealing

  // Every tick of the group during the run emits nothing.
  ghost predicate SaysNothing(cfg: Config, m: Manager, es: seq<Event>, key: Key)
    requires IsRun(cfg, m, es)
    decreases |es|
  {
    es != [] ==>
      && (es[0].TickOf? && es[0].key == key ==>
            Emitted(cfg, m, key, es[0].flags, es[0].accepts, es[0].choice) == [])
      && SaysNothing(cfg, Next(cfg, m, es[0]), es[1..], key)
  }

  // Sealed, or pruned.
  predicate Closed(m: Manager, key: Key) {
    if key in m.groups then m.groups[key].sealed else Below(m, key)
  }

  lemma StepStaysClosed(cfg: Config, m: Manager, e: Event, key: Key)
    requires PartialSafety.Inv(cfg, m) && Enabled(cfg, m, e) && Closed(m, key)
    requires e.PublishVote? ==> !Below(m, e.key)
    ensures Closed(Next(cfg, m, e), key)
  {
    match e
    case Incoming(from, rpc) =>
      if !Early(cfg, m, rpc).0 { TakenFromFacts(cfg, m, from, rpc); }
    case _ =>
  }

  /** A group live when sealed never emits data or metadata again, through its prune and beyond, in
      any run whose local publishes are above the floor. */
  lemma {:induction false} SealedSaysNothing(cfg: Config, m: Manager, es: seq<Event>, key: Key)
    requires PartialSafety.Inv(cfg, m) && IsRun(cfg, m, es) && Disciplined(cfg, m, es)
    requires Closed(m, key)
    ensures SaysNothing(cfg, m, es, key)
    decreases |es|
  {
    if es != [] {
      StepKeepsInv(cfg, m, es[0]);
      StepStaysClosed(cfg, m, es[0], key);
      SealedSaysNothing(cfg, Next(cfg, m, es[0]), es[1..], key);
    }
  }

  /** seal marks exactly the groups that exist at or below the key; one created later, by a straggler
      say, is open again. */
  lemma SealMarksWhatExists(cfg: Config, m: Manager, kind: Kind, group: nat, key: Key)
    ensures var n := Seal(m, kind, group);
            && n.groups.Keys == m.groups.Keys
            && (UpTo(key, kind, group) && key in m.groups ==> Closed(n, key))
            && (!UpTo(key, kind, group) && key in m.groups ==> n.groups[key] == m.groups[key])
            && (key !in m.groups ==> !GroupOf(cfg, n, key).sealed)
  {
  }

  lemma {:induction false} SealedHearAll(g: Group, from: Peer, mds: seq<Metadata>)
    ensures HearAll(g.(sealed := true), from, mds) == HearAll(g, from, mds).(sealed := true)
  {
    if mds != [] { SealedHearAll(g, from, mds[..|mds| - 1]); }
  }

  lemma {:induction false} SealedTakeAll(g: Group, from: Peer, batches: seq<Batch>)
    ensures TakeAll(g.(sealed := true), from, batches) ==
            TakeAll(g, from, batches).(group := TakeAll(g, from, batches).group.(sealed := true))
  {
    if batches != [] { SealedTakeAll(g, from, batches[..|batches| - 1]); }
  }

  function WithSeal(m: Manager, key: Key): Manager
    requires key in m.groups
  {
    m.(groups := m.groups[key := m.groups[key].(sealed := true)])
  }

  lemma SealedTaken(cfg: Config, m: Manager, key: Key, from: Peer, rpc: Rpc)
    requires key in m.groups && !Early(cfg, m, rpc).0
    ensures var (t, s) := (TakenFrom(cfg, m, from, rpc), TakenFrom(cfg, WithSeal(m, key), from, rpc));
            s == if KeyOf(rpc) == key then t.(group := t.group.(sealed := true)) else t
  {
    if KeyOf(rpc) == key {
      SealedHearAll(m.groups[key], from, rpc.metadatas.items);
      SealedTakeAll(HearAll(m.groups[key], from, rpc.metadatas.items), from, rpc.batches.items);
    } else {
      assert GroupOf(cfg, WithSeal(m, key), KeyOf(rpc)) == GroupOf(cfg, m, KeyOf(rpc));
    }
  }

  lemma PutThenSeal(groups: map<Key, Group>, key: Key, k: Key, g: Group)
    requires key in groups
    ensures k != key ==> groups[key := groups[key].(sealed := true)][k := g]
                         == groups[k := g][key := groups[key].(sealed := true)]
    ensures groups[key := groups[key].(sealed := true)][key := g.(sealed := true)]
            == groups[key := g][key := g.(sealed := true)]
  {
  }

  /** Sealing takes nothing from the receive path: a sealed group accepts and submits exactly what
      the open group would, with the same errors ... */
  lemma SealedStillReceives(cfg: Config, m: Manager, key: Key, from: Peer, rpc: Rpc)
    requires key in m.groups
    ensures var (n, outcome) := Receive(cfg, m, from, rpc);
            key in n.groups && Receive(cfg, WithSeal(m, key), from, rpc) == (WithSeal(n, key), outcome)
  {
    assert Early(cfg, WithSeal(m, key), rpc) == Early(cfg, m, rpc);
    if !Early(cfg, m, rpc).0 {
      SealedTaken(cfg, m, key, from, rpc);
      PutThenSeal(m.groups, key, KeyOf(rpc), TakenFrom(cfg, m, from, rpc).group);
    }
  }

  /** ... and promotes and fires exactly what the open group would. */
  lemma SealedStillFires(m: Manager, key: Key, i: nat)
    requires key in m.groups && i < |m.pending|
    ensures key in CallBack(m, i).groups && CallBack(WithSeal(m, key), i) == WithSeal(CallBack(m, i), key)
  {
    var item := m.pending[i];
    if item.key in m.groups && item.work.data in m.groups[item.key].buckets {
      var b := Promote(m.groups[item.key].buckets[item.work.data], item.work.positions).0;
      PutThenSeal(m.groups, key, item.key, Put(m.groups[item.key], item.work.data, b));
    }
  }
}
