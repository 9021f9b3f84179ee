/** What every run of one partial-message manager keeps: bucket budgets and beliefs, exactly-once
    arrivals, and the pruned watermark. */
module PartialSafety {
  import opened PartialBucket
  import opened PartialManager

  datatype Event =
    | PublishVote(key: Key, pos: nat, sig: Sig, data: Data)
    | Incoming(from: Peer, rpc: Rpc)
    | TickOf(key: Key, flags: PeerStates, accepts: set<Peer>, choice: Choice)
    | Verdict(index: nat)
    | SealUpTo(kind: Kind, group: nat)
    | PruneUpTo(kind: Kind, group: nat)

  // A vote is published for a sized cell (the source panics otherwise) at one of its positions, as
  // every duty of the plan is (Positions.FinalityIdentityAgrees, AttestationIdentityAgrees).
  ghost predicate Enabled(cfg: Config, m: Manager, e: Event) {
    match e
    case PublishVote(key, pos, _, _) => pos < cfg.sizeOf(key)
    case TickOf(key, flags, _, choice) => TickOk(m, key, flags, choice)
    case Verdict(index) => index < |m.pending|
    case _ => true
  }

  ghost function Next(cfg: Config, m: Manager, e: Event): Manager
    requires Enabled(cfg, m, e)
  {
    match e
    case PublishVote(key, pos, sig, data) => Publish(cfg, m, key, pos, sig, data)
    case Incoming(from, rpc) => Receive(cfg, m, from, rpc).0
    case TickOf(key, flags, accepts, choice) => Tick(cfg, m, key, flags, accepts, choice)
    case Verdict(index) => CallBack(m, index)
    case SealUpTo(kind, group) => Seal(m, kind, group)
    case PruneUpTo(kind, group) => Prune(m, kind, group)
  }

  // ---------------------------------------------------------------- the invariant

  ghost predicate GroupOk(caps: Caps, g: Group) {
    g.size > 0 && forall d <- g.buckets :: PartialBucket.Inv(caps, g.size, g.buckets[d])
  }

  ghost predicate Shapes(cfg: Config, m: Manager) {
    forall key <- m.groups :: m.groups[key].size == cfg.sizeOf(key) && GroupOk(cfg.caps, m.groups[key])
  }

  // Nothing below a kind's pruned watermark waits for the verifier.
  ghost predicate Quiet(m: Manager) {
    forall key: Key, d: Data {:trigger At(m, key, d)} :: Below(m, key) ==> At(m, key, d).validating == {}
  }

  function Bit(c: bool): nat { if c then 1 else 0 }

  function Share(work: Work, d: Data, pos: nat): nat { if work.data == d then multiset(work.positions)[pos] else 0 }

  function Shares(work: seq<Work>, d: Data, pos: nat): nat {
    if work == [] then 0 else Shares(work[..|work| - 1], d, pos) + Share(work[|work| - 1], d, pos)
  }

  function Owed(item: Item, key: Key, d: Data, pos: nat): nat {
    if item.key == key then Share(item.work, d, pos) else 0
  }

  // How often a position stands in the pending verifier items.
  function Queued(pending: seq<Item>, key: Key, d: Data, pos: nat): nat {
    if pending == [] then 0
    else Queued(pending[..|pending| - 1], key, d, pos) + Owed(pending[|pending| - 1], key, d, pos)
  }

  function Fired(m: Manager, key: Key, d: Data, pos: nat): nat { multiset(m.fired)[Arrival(key, d, pos)] }

  // Exactly-once arrivals: above the watermark each validating position stands once in the pending
  // items and each position validated from a peer has fired once; nothing ever fires twice.
  ghost predicate Ledger(m: Manager) {
    && (forall key: Key, d: Data, pos: nat {:trigger Queued(m.pending, key, d, pos)} :: !Below(m, key) ==>
          Queued(m.pending, key, d, pos) == Bit(pos in At(m, key, d).validating))
    && (forall key: Key, d: Data, pos: nat {:trigger Fired(m, key, d, pos)} :: !Below(m, key) ==>
          Fired(m, key, d, pos) == Bit(pos in At(m, key, d).validated - At(m, key, d).local))
    && (forall key: Key, d: Data, pos: nat :: Fired(m, key, d, pos) <= 1)
  }

  ghost predicate Inv(cfg: Config, m: Manager) { Shapes(cfg, m) && Quiet(m) && Ledger(m) }

  lemma NewInv(cfg: Config)
    ensures Inv(cfg, NewManager())
  {
  }

  // ---------------------------------------------------------------- sums

  lemma {:induction false} QueuedConcat(a: seq<Item>, b: seq<Item>, key: Key, d: Data, pos: nat)
    ensures Queued(a + b, key, d, pos) == Queued(a, key, d, pos) + Queued(b, key, d, pos)
  {
    if b == [] {
      assert a + b == a;
    } else {
      assert (a + b)[..|a + b| - 1] == a + b[..|b| - 1];
      QueuedConcat(a, b[..|b| - 1], key, d, pos);
    }
  }

  lemma {:induction false} QueuedItems(key: Key, work: seq<Work>, k: Key, d: Data, pos: nat)
    ensures Queued(Items(key, work), k, d, pos) == if k == key then Shares(work, d, pos) else 0
  {
    if work != [] {
      var front := work[..|work| - 1];
      assert Items(key, work)[..|work| - 1] == Items(key, front);
      QueuedItems(key, front, k, d, pos);
    }
  }

  lemma QueuedWithout(pending: seq<Item>, i: nat, key: Key, d: Data, pos: nat)
    requires i < |pending|
    ensures Queued(pending, key, d, pos) ==
            Queued(pending[..i] + pending[i + 1..], key, d, pos) + Owed(pending[i], key, d, pos)
  {
    QueuedConcat(pending[..i], pending[i + 1..], key, d, pos);
    assert pending == pending[..i + 1] + pending[i + 1..];
    QueuedConcat(pending[..i + 1], pending[i + 1..], key, d, pos);
    assert pending[..i + 1][..i] == pending[..i];
  }

  lemma {:induction false} SharesConcat(a: seq<Work>, b: seq<Work>, d: Data, pos: nat)
    ensures Shares(a + b, d, pos) == Shares(a, d, pos) + Shares(b, d, pos)
  {
    if b == [] {
      assert a + b == a;
    } else {
      assert (a + b)[..|a + b| - 1] == a + b[..|b| - 1];
      SharesConcat(a, b[..|b| - 1], d, pos);
    }
  }

  // A sequence without repeats holds each of its elements once.
  lemma {:induction false} OnceEach(s: seq<nat>, pos: nat)
    requires forall i, j :: 0 <= i < j < |s| ==> s[i] != s[j]
    ensures multiset(s)[pos] == Bit(pos in s)
  {
    if s != [] {
      var last := |s| - 1;
      OnceEach(s[..last], pos);
      assert s == s[..last] + [s[last]];
    }
  }

  lemma {:induction false} ArrivalsCount(key: Key, d: Data, promoted: seq<nat>, k: Key, e: Data, pos: nat)
    ensures multiset(Arrivals(key, d, promoted))[Arrival(k, e, pos)] ==
            if k == key && e == d then multiset(promoted)[pos] else 0
  {
    if promoted != [] {
      var front, last := promoted[..|promoted| - 1], promoted[|promoted| - 1];
      ArrivalsCount(key, d, front, k, e, pos);
      assert Arrivals(key, d, promoted) == Arrivals(key, d, front) + [Arrival(key, d, last)];
      assert promoted == front + [last];
    }
  }

  // ---------------------------------------------------------------- receiving into one group

  // What receiving leaves alone in a bucket.
  ghost predicate OnlyHeard(b: Bucket, n: Bucket) {
    n == b.(peers := n.peers, heard := n.heard)
  }

  ghost predicate OnlyReceived(b: Bucket, n: Bucket) {
    n == b.(held := n.held, validating := n.validating, peers := n.peers, heard := n.heard)
  }

  lemma {:induction false} HearAllFacts(caps: Caps, g: Group, from: Peer, mds: seq<Metadata>)
    requires GroupOk(caps, g)
    ensures var n := HearAll(g, from, mds);
            && GroupOk(caps, n) && n.size == g.size && n.sealed == g.sealed
            && forall d :: OnlyHeard(BucketOf(g, d), BucketOf(n, d))
  {
    if mds != [] {
      var front, md := HearAll(g, from, mds[..|mds| - 1]), mds[|mds| - 1];
      HearAllFacts(caps, g, from, mds[..|mds| - 1]);
      FreshInv(caps, g.size);
      HearMetadataKeeps(caps, g.size, BucketOf(front, md.data), from, md.available, md.requests);
    }
  }

  lemma TakeFacts(caps: Caps, g: Group, from: Peer, batch: Batch)
    requires GroupOk(caps, g) && CheckBatch(g.size, batch) == Fine
    ensures var t := Take(g, from, batch);
            && GroupOk(caps, t.group) && t.group.size == g.size && t.group.sealed == g.sealed
            && (forall d :: OnlyReceived(BucketOf(g, d), BucketOf(t.group, d)))
            && forall d, pos :: Shares(t.work, d, pos) + Bit(pos in BucketOf(g, d).validating) ==
                                Bit(pos in BucketOf(t.group, d).validating)
  {
    var b, t := BucketOf(g, batch.data), Take(g, from, batch);
    var (n, added) := AddReceived(b, batch.positions, batch.sigs);
    FreshInv(caps, g.size);
    AddReceivedFacts(b, batch.positions, batch.sigs);
    AddReceivedKeeps(caps, g.size, b, batch.positions, batch.sigs);
    MarkSentKeeps(caps, g.size, n, from, batch.positions);
    forall d, pos
      ensures Shares(t.work, d, pos) + Bit(pos in BucketOf(g, d).validating) == Bit(pos in BucketOf(t.group, d).validating)
    {
      OnceEach(added, pos);
      assert t.work == [] || (t.work[..0] == [] && Shares(t.work, d, pos) == Share(Work(batch.data, added), d, pos));
      assert pos in Positions(added) <==> pos in added;
    }
  }

  lemma {:induction false} TakeAllFacts(caps: Caps, g: Group, from: Peer, batches: seq<Batch>)
    requires GroupOk(caps, g)
    ensures var t := TakeAll(g, from, batches);
            && GroupOk(caps, t.group) && t.group.size == g.size && t.group.sealed == g.sealed
            && (forall d :: OnlyReceived(BucketOf(g, d), BucketOf(t.group, d)))
            && forall d, pos :: Shares(t.work, d, pos) + Bit(pos in BucketOf(g, d).validating) ==
                                Bit(pos in BucketOf(t.group, d).validating)
  {
    if batches != [] {
      TakeAllFacts(caps, g, from, batches[..|batches| - 1]);
      var front, batch := TakeAll(g, from, batches[..|batches| - 1]), batches[|batches| - 1];
      if !front.outcome.Failed? && !CheckBatch(front.group.size, batch).Failed? {
        TakeFacts(caps, front.group, from, batch);
        var next := Take(front.group, from, batch);
        forall d, pos { SharesConcat(front.work, next.work, d, pos); }
      }
    }
  }

  // ---------------------------------------------------------------- every step

  lemma AtGroupOf(cfg: Config, m: Manager, key: Key, d: Data)
    ensures BucketOf(GroupOf(cfg, m, key), d) == At(m, key, d)
  {
  }

  ghost predicate SameLedger(b: Bucket, n: Bucket) {
    n.validating == b.validating && n.validated - n.local == b.validated - b.local
  }

  // A step that fires nothing, submits nothing and moves no watermark.
  lemma LedgerFrom(m: Manager, n: Manager)
    requires Quiet(m) && Ledger(m)
    requires n.pending == m.pending && n.fired == m.fired && n.floor == m.floor
    requires forall k: Key, e: Data {:trigger At(n, k, e)} ::
               SameLedger(At(m, k, e), At(n, k, e))
    ensures Quiet(n) && Ledger(n)
  {
    forall k: Key, e: Data, pos: nat | !Below(n, k)
      ensures Queued(n.pending, k, e, pos) == Bit(pos in At(n, k, e).validating)
      ensures Fired(n, k, e, pos) == Bit(pos in At(n, k, e).validated - At(n, k, e).local)
    {
      assert Queued(m.pending, k, e, pos) == Bit(pos in At(m, k, e).validating);
      assert Fired(m, k, e, pos) == Bit(pos in At(m, k, e).validated - At(m, k, e).local);
    }
    forall k: Key, e: Data, pos: nat ensures Fired(n, k, e, pos) <= 1 { assert Fired(m, k, e, pos) <= 1; }
  }

  // A step that rewrites one group without touching what is validating or came validated from peers.
  lemma RewriteKeeps(cfg: Config, m: Manager, key: Key, g: Group)
    requires Inv(cfg, m) && GroupOk(cfg.caps, g) && g.size == cfg.sizeOf(key)
    requires forall d :: SameLedger(At(m, key, d), BucketOf(g, d))
    ensures Inv(cfg, m.(groups := m.groups[key := g]))
  {
    var n := m.(groups := m.groups[key := g]);
    assert Shapes(cfg, n);
    forall k: Key, e: Data ensures SameLedger(At(m, k, e), At(n, k, e)) { }
    LedgerFrom(m, n);
  }

  lemma PublishKeeps(cfg: Config, m: Manager, key: Key, pos: nat, sig: Sig, d: Data)
    requires Inv(cfg, m) && pos < cfg.sizeOf(key)
    ensures Inv(cfg, Publish(cfg, m, key, pos, sig, d))
  {
    var g := GroupOf(cfg, m, key);
    GroupOfOk(cfg, m, key);
    PublishIntoFacts(cfg.caps, g, pos, sig, d);
    forall e ensures SameLedger(At(m, key, e), BucketOf(PublishInto(g, pos, sig, d), e)) { AtGroupOf(cfg, m, key, e); }
    RewriteKeeps(cfg, m, key, PublishInto(g, pos, sig, d));
  }

  lemma PublishIntoFacts(caps: Caps, g: Group, pos: nat, sig: Sig, d: Data)
    requires GroupOk(caps, g) && pos < g.size
    ensures GroupOk(caps, PublishInto(g, pos, sig, d))
    ensures forall e :: SameLedger(BucketOf(g, e), BucketOf(PublishInto(g, pos, sig, d), e))
  {
    FreshInv(caps, g.size);
    StoreLocalKeeps(caps, g.size, BucketOf(g, d), pos, sig);
  }

  lemma GroupOfOk(cfg: Config, m: Manager, key: Key)
    requires Shapes(cfg, m) && Sizable(cfg, m, key)
    ensures GroupOk(cfg.caps, GroupOf(cfg, m, key)) && GroupOf(cfg, m, key).size == cfg.sizeOf(key)
  {
  }

  // What an RPC that is let in does to the state.
  lemma TakenFromFacts(cfg: Config, m: Manager, from: Peer, rpc: Rpc)
    requires Shapes(cfg, m) && !Early(cfg, m, rpc).0
    ensures var (key, t) := (KeyOf(rpc), TakenFrom(cfg, m, from, rpc));
            && GroupOk(cfg.caps, t.group) && t.group.size == cfg.sizeOf(key)
            && t.group.sealed == GroupOf(cfg, m, key).sealed
            && (forall d :: OnlyReceived(At(m, key, d), BucketOf(t.group, d)))
            && forall d, pos :: Shares(t.work, d, pos) + Bit(pos in At(m, key, d).validating) ==
                                Bit(pos in BucketOf(t.group, d).validating)
  {
    var key := KeyOf(rpc);
    var g := GroupOf(cfg, m, key);
    GroupOfOk(cfg, m, key);
    HearAllFacts(cfg.caps, g, from, rpc.metadatas.items);
    TakeAllFacts(cfg.caps, HearAll(g, from, rpc.metadatas.items), from, rpc.batches.items);
    forall d ensures BucketOf(g, d) == At(m, key, d) { AtGroupOf(cfg, m, key, d); }
  }

  lemma ReceiveKeeps(cfg: Config, m: Manager, from: Peer, rpc: Rpc)
    requires Inv(cfg, m)
    ensures Inv(cfg, Receive(cfg, m, from, rpc).0)
  {
    if !Early(cfg, m, rpc).0 {
      var key, t, n := KeyOf(rpc), TakenFrom(cfg, m, from, rpc), Receive(cfg, m, from, rpc).0;
      TakenFromFacts(cfg, m, from, rpc);
      assert Shapes(cfg, n);
      forall k: Key, e: Data, pos: nat | !Below(n, k)
        ensures Queued(n.pending, k, e, pos) == Bit(pos in At(n, k, e).validating)
        ensures Fired(n, k, e, pos) == Bit(pos in At(n, k, e).validated - At(n, k, e).local)
      {
        QueuedConcat(m.pending, Items(key, t.work), k, e, pos);
        QueuedItems(key, t.work, k, e, pos);
        assert Queued(m.pending, k, e, pos) == Bit(pos in At(m, k, e).validating);
        assert Fired(m, k, e, pos) == Bit(pos in At(m, k, e).validated - At(m, k, e).local);
      }
      forall k: Key, e: Data, pos: nat ensures Fired(n, k, e, pos) <= 1 { assert Fired(m, k, e, pos) <= 1; }
      forall k: Key, e: Data | Below(n, k) ensures At(n, k, e).validating == {} {
        assert At(n, k, e) == At(m, k, e);
      }
    }
  }

  lemma TickGroupFacts(caps: Caps, g: Group, flags: PeerStates, accepts: set<Peer>, c: Choice)
    requires GroupOk(caps, g)
    ensures var n := TickGroup(caps, g, flags, accepts, c);
            && GroupOk(caps, n) && n.size == g.size && n.sealed == g.sealed && n.buckets.Keys == g.buckets.Keys
            && forall d <- g.buckets ::
                 n.buckets[d] == g.buckets[d].(sendCount := n.buckets[d].sendCount, peers := n.buckets[d].peers,
                                               claims := n.buckets[d].claims, requestCount := n.buckets[d].requestCount)
  {
    var n := TickGroup(caps, g, flags, accepts, c);
    forall d <- g.buckets
      ensures PartialBucket.Inv(caps, n.size, n.buckets[d])
      ensures n.buckets[d] == g.buckets[d].(sendCount := n.buckets[d].sendCount, peers := n.buckets[d].peers,
                                            claims := n.buckets[d].claims, requestCount := n.buckets[d].requestCount)
    {
      var asked := AskAll(caps, g.buckets[d], AskOrder(c.asks, d), g.size);
      AskAllFacts(caps, g.size, g.buckets[d], AskOrder(c.asks, d));
      ServeAllFacts(caps, asked, Gossips(flags), accepts, c.turns);
      ServeAllKeeps(caps, g.size, asked, Gossips(flags), accepts, c.turns);
    }
  }

  lemma TickKeeps(cfg: Config, m: Manager, key: Key, flags: PeerStates, accepts: set<Peer>, c: Choice)
    requires Inv(cfg, m)
    ensures Inv(cfg, Tick(cfg, m, key, flags, accepts, c))
  {
    if !Silent(m, key) {
      var n := TickGroup(cfg.caps, m.groups[key], flags, accepts, c);
      TickGroupFacts(cfg.caps, m.groups[key], flags, accepts, c);
      forall d ensures SameLedger(At(m, key, d), BucketOf(n, d)) { }
      RewriteKeeps(cfg, m, key, n);
    }
  }

  lemma CallBackKeeps(cfg: Config, m: Manager, i: nat)
    requires Inv(cfg, m) && i < |m.pending|
    ensures Inv(cfg, CallBack(m, i))
  {
    var n := CallBack(m, i);
    CallBackShapes(cfg, m, i);
    forall k: Key, e: Data, pos: nat | !Below(n, k)
      ensures Queued(n.pending, k, e, pos) == Bit(pos in At(n, k, e).validating)
    {
      CallBackQueue(m, i, k, e, pos);
    }
    forall k: Key, e: Data, pos: nat
      ensures !Below(n, k) ==> Fired(n, k, e, pos) == Bit(pos in At(n, k, e).validated - At(n, k, e).local)
      ensures Fired(n, k, e, pos) <= 1
    {
      CallBackLedger(cfg, m, i, k, e, pos);
    }
  }

  lemma CallBackQueue(m: Manager, i: nat, k: Key, e: Data, pos: nat)
    requires Ledger(m) && i < |m.pending| && !Below(m, k)
    ensures Queued(CallBack(m, i).pending, k, e, pos) == Bit(pos in At(CallBack(m, i), k, e).validating)
  {
    var ps := m.pending[i].work.positions;
    QueuedWithout(m.pending, i, k, e, pos);
    assert Queued(m.pending, k, e, pos) == Bit(pos in At(m, k, e).validating);
    CallBackFires(m, i, k, e, pos);
    PromoteFacts(At(m, k, e), ps);
    assert pos in ps <==> pos in Positions(ps);
  }

  lemma CallBackLedger(cfg: Config, m: Manager, i: nat, k: Key, e: Data, pos: nat)
    requires Inv(cfg, m) && i < |m.pending|
    ensures var n := CallBack(m, i);
            && (!Below(n, k) ==> Fired(n, k, e, pos) == Bit(pos in At(n, k, e).validated - At(n, k, e).local))
            && Fired(n, k, e, pos) <= 1
  {
    var ps := m.pending[i].work.positions;
    CallBackFires(m, i, k, e, pos);
    PromoteFacts(At(m, k, e), ps);
    LifecycleAt(cfg, m, k, e);
    assert pos in ps <==> pos in Positions(ps);
    assert Fired(m, k, e, pos) <= 1;
    if Below(m, k) {
      assert At(m, k, e).validating == {};
    } else {
      assert Fired(m, k, e, pos) == Bit(pos in At(m, k, e).validated - At(m, k, e).local);
    }
  }

  lemma LifecycleAt(cfg: Config, m: Manager, key: Key, d: Data)
    requires Shapes(cfg, m)
    ensures At(m, key, d).local <= At(m, key, d).validated && At(m, key, d).validating !! At(m, key, d).validated
  {
  }

  lemma CallBackShapes(cfg: Config, m: Manager, i: nat)
    requires Inv(cfg, m) && i < |m.pending|
    ensures Shapes(cfg, CallBack(m, i)) && Quiet(CallBack(m, i))
  {
    var item := m.pending[i];
    var key, d := item.key, item.work.data;
    PromoteFacts(At(m, key, d), item.work.positions);
    if key in m.groups && d in m.groups[key].buckets {
      PromoteKeeps(cfg.caps, m.groups[key].size, m.groups[key].buckets[d], item.work.positions);
    }
    forall k: Key, e: Data | Below(m, k) ensures At(CallBack(m, i), k, e).validating == {} {
      CallBackFires(m, i, k, e, 0);
      assert At(m, k, e).validating == {};
    }
  }

  // The arrivals of one verdict.
  lemma CallBackFires(m: Manager, i: nat, k: Key, e: Data, pos: nat)
    requires i < |m.pending|
    ensures var (n, item) := (CallBack(m, i), m.pending[i]);
            && Fired(n, k, e, pos) == Fired(m, k, e, pos) +
                 Bit(k == item.key && e == item.work.data && pos in At(m, k, e).validating && pos in item.work.positions)
            && At(n, k, e) == if k == item.key && e == item.work.data then Promote(At(m, k, e), item.work.positions).0
                              else At(m, k, e)
  {
    var item := m.pending[i];
    var key, d, ps := item.key, item.work.data, item.work.positions;
    var promoted := Promote(At(m, key, d), ps).1;
    PromoteFacts(At(m, key, d), ps);
    ArrivalsCount(key, d, promoted, k, e, pos);
    OnceEach(promoted, pos);
    assert pos in promoted <==> pos in Positions(promoted);
    assert pos in ps <==> pos in Positions(ps);
    if !(key in m.groups && d in m.groups[key].buckets) {
      assert At(m, key, d) == Fresh();
      assert Promote(Fresh(), ps).0 == Fresh();
    }
  }

  lemma SealKeeps(cfg: Config, m: Manager, kind: Kind, group: nat)
    requires Inv(cfg, m)
    ensures Inv(cfg, Seal(m, kind, group))
  {
    var n := Seal(m, kind, group);
    assert Shapes(cfg, n);
    LedgerFrom(m, n);
  }

  lemma PruneKeeps(cfg: Config, m: Manager, kind: Kind, group: nat)
    requires Inv(cfg, m)
    ensures Inv(cfg, Prune(m, kind, group))
  {
    var n := Prune(m, kind, group);
    forall k: Key, e: Data | !Below(n, k) ensures !Below(m, k) && At(n, k, e) == At(m, k, e) { }
    forall k: Key, e: Data | Below(n, k) ensures At(n, k, e).validating == {} {
      assert Below(m, k) ==> At(m, k, e).validating == {};
    }
    forall k: Key, e: Data, pos: nat | !Below(n, k)
      ensures Queued(n.pending, k, e, pos) == Bit(pos in At(n, k, e).validating)
      ensures Fired(n, k, e, pos) == Bit(pos in At(n, k, e).validated - At(n, k, e).local)
    {
      assert Queued(m.pending, k, e, pos) == Bit(pos in At(m, k, e).validating);
      assert Fired(m, k, e, pos) == Bit(pos in At(m, k, e).validated - At(m, k, e).local);
    }
    forall k: Key, e: Data, pos: nat ensures Fired(n, k, e, pos) <= 1 { assert Fired(m, k, e, pos) <= 1; }
  }

  lemma StepKeepsInv(cfg: Config, m: Manager, e: Event)
    requires Inv(cfg, m) && Enabled(cfg, m, e)
    ensures Inv(cfg, Next(cfg, m, e))
  {
    match e
    case PublishVote(key, pos, sig, data) => PublishKeeps(cfg, m, key, pos, sig, data);
    case Incoming(from, rpc) => ReceiveKeeps(cfg, m, from, rpc);
    case TickOf(key, flags, accepts, choice) => TickKeeps(cfg, m, key, flags, accepts, choice);
    case Verdict(index) => CallBackKeeps(cfg, m, index);
    case SealUpTo(kind, group) => SealKeeps(cfg, m, kind, group);
    case PruneUpTo(kind, group) => PruneKeeps(cfg, m, kind, group);
  }
}
