/** The group of node/partial.go as it is updated in place: a map from attestation_data to bucket
    objects, and the tick, receive and publish work on it. */
module PartialGroupObject {
  import opened PartialBucket
  import opened PartialManager
  import opened PartialBucketObject

  class VoteGroup {
    const size: nat
    var buckets: map<Data, VoteBucket>
    var sealed: bool

    // Its buckets are its own, and no two keys share one.
    ghost predicate Valid()
      reads this
    {
      && (forall d <- buckets, e <- buckets :: buckets[d] == buckets[e] ==> d == e)
      && (forall d <- buckets :: buckets[d].owner == this)
    }

    ghost function View(): Group
      reads this, buckets.Values
    {
      Group(size, map d | d in buckets :: buckets[d].View(), sealed)
    }

    method SealIt()
      modifies this`sealed
      ensures View() == old(View()).(sealed := true)
    {
      sealed := true;
      assert View().buckets == old(View().buckets);
    }

    constructor (size: nat)
      ensures Valid() && View() == Group(size, map[], false) && this.size == size && buckets == map[]
    {
      this.size, buckets, sealed := size, map[], false;
    }

    // bucket: created when needed.
    method BucketFor(d: Data) returns (b: VoteBucket)
      requires Valid()
      modifies this`buckets
      ensures Valid() && buckets == old(buckets)[d := b]
      ensures fresh(b) || (d in old(buckets) && b == old(buckets)[d])
      ensures b.View() == BucketOf(old(View()), d)
    {
      if d in buckets {
        b := buckets[d];
      } else {
        b := new VoteBucket(this);
        buckets := buckets[d := b];
      }
    }

    // Only one bucket changed.
    twostate lemma BucketChanged(d: Data, new b: VoteBucket)
      requires buckets == old(buckets)[d := b] && sealed == old(sealed)
      requires forall e <- old(buckets) :: e != d ==> buckets[e].View() == old(buckets[e].View())
      ensures View() == Put(old(View()), d, b.View())
    {
      forall e <- buckets ensures View().buckets[e] == if e == d then b.View() else old(View().buckets[e]) { }
    }

    method PublishLocal(pos: nat, sig: Sig, d: Data)
      requires Valid()
      modifies this`buckets, buckets.Values
      ensures Valid() && View() == PublishInto(old(View()), pos, sig, d)
      ensures fresh(buckets.Values - old(buckets.Values))
    {
      var b := BucketFor(d);
      b.PutLocal(pos, sig);
      BucketChanged(d, b);
    }

    method HearOne(from: Peer, md: Metadata)
      requires Valid()
      modifies this`buckets, buckets.Values
      ensures Valid() && View() == Hear(old(View()), from, md)
      ensures fresh(buckets.Values - old(buckets.Values))
    {
      var b := BucketFor(md.data);
      b.NoteMetadata(from, md.available, md.requests, size);
      BucketChanged(md.data, b);
    }

    // The metadata half of an RPC.
    method HearMetadatas(from: Peer, mds: seq<Metadata>)
      requires Valid()
      modifies this`buckets, buckets.Values
      ensures Valid() && View() == HearAll(old(View()), from, mds)
      ensures fresh(buckets.Values - old(buckets.Values))
    {
      for i := 0 to |mds|
        invariant Valid() && View() == HearAll(old(View()), from, mds[..i])
        invariant fresh(buckets.Values - old(buckets.Values))
      {
        assert mds[..i + 1][..i] == mds[..i];
        HearOne(from, mds[i]);
      }
      assert mds[..|mds|] == mds;
    }

    // The whole batch is checked before anything is stored.
    method Check(batch: Batch) returns (outcome: Outcome)
      ensures outcome == CheckBatch(size, batch)
    {
      if |batch.positions| != |batch.sigs| { return Failed(LengthMismatch); }
      for i := 0 to |batch.positions|
        invariant forall pos <- batch.positions[..i] :: pos < size
      {
        assert batch.positions[i] in batch.positions;
        if batch.positions[i] >= size { return Failed(IndexTooLarge); }
        assert batch.positions[..i + 1] == batch.positions[..i] + [batch.positions[i]];
      }
      assert batch.positions[..|batch.positions|] == batch.positions;
      return Fine;
    }

    method TakeOne(from: Peer, batch: Batch) returns (work: seq<Work>)
      requires Valid() && CheckBatch(size, batch) == Fine
      modifies this`buckets, buckets.Values
      ensures Valid() && Taken(View(), work, Fine) == Take(old(View()), from, batch)
      ensures fresh(buckets.Values - old(buckets.Values))
    {
      var b := BucketFor(batch.data);
      var added := b.AddAll(batch.positions, batch.sigs);
      b.NoteSender(from, batch.positions);
      work := if added == [] then [] else [Work(batch.data, added)];
      BucketChanged(batch.data, b);
    }

    // The data half of an RPC, up to the first malformed batch.
    method TakeBatches(from: Peer, batches: seq<Batch>) returns (work: seq<Work>, outcome: Outcome)
      requires Valid()
      modifies this`buckets, buckets.Values
      ensures Valid() && Taken(View(), work, outcome) == TakeAll(old(View()), from, batches)
      ensures fresh(buckets.Values - old(buckets.Values))
    {
      ghost var g := View();
      work, outcome := [], Fine;
      for i := 0 to |batches|
        invariant Valid() && outcome == Fine
        invariant Taken(View(), work, Fine) == TakeAll(g, from, batches[..i])
        invariant fresh(buckets.Values - old(buckets.Values))
      {
        TakeAllStep(g, from, batches, i);
        work, outcome := TakeNext(from, batches[i], work);
        if outcome.Failed? {
          FailedStays(g, from, batches, i + 1);
          return;
        }
      }
      assert batches[..|batches|] == batches;
    }

    method TakeNext(from: Peer, batch: Batch, soFar: seq<Work>) returns (work: seq<Work>, outcome: Outcome)
      requires Valid()
      modifies this`buckets, buckets.Values
      ensures Valid() && Taken(View(), work, outcome) == TakeOn(Taken(old(View()), soFar, Fine), from, batch)
      ensures fresh(buckets.Values - old(buckets.Values))
    {
      work := soFar;
      outcome := Check(batch);
      if outcome == Fine {
        var next := TakeOne(from, batch);
        work := work + next;
      }
    }

    // markValidated's part: the promoted positions of a bucket that exists.
    method Confirm(d: Data, positions: seq<nat>) returns (promoted: seq<nat>)
      requires Valid() && d in buckets
      modifies buckets.Values
      ensures View() == Put(old(View()), d, Promote(old(View()).buckets[d], positions).0)
      ensures promoted == Promote(old(View()).buckets[d], positions).1
    {
      promoted := buckets[d].PromoteAll(positions);
      OneBucketMoved(d);
    }

    // selectIWantTargets on every bucket, in map order.
    method SelectAll(caps: Caps, gossips: set<Peer>)
        returns (wants: map<Data, map<Peer, seq<nat>>>, ghost asks: map<Data, seq<Peer>>)
      requires Valid()
      modifies buckets.Values
      ensures AskedSoFar(caps, size, gossips, old(View().buckets), View().buckets, {}, asks, wants)
    {
      var left := buckets.Keys;
      wants, asks := map[], map[];
      while left != {}
        invariant left <= buckets.Keys
        invariant AskedSoFar(caps, size, gossips, old(View().buckets), View().buckets, left, asks, wants)
      {
        var d :| d in left;
        ghost var now := View().buckets;
        var w: map<Peer, seq<nat>>;
        ghost var order: seq<Peer>;
        w, order := AskBucket(caps, gossips, d);
        AskedOneMore(caps, size, gossips, old(View().buckets), now, left, asks, wants, d, View().buckets[d], order, w);
        wants, asks := wants[d := w], asks[d := order];
        left := left - {d};
      }
    }

    method AskBucket(caps: Caps, gossips: set<Peer>, d: Data) returns (wants: map<Peer, seq<nat>>, ghost order: seq<Peer>)
      requires Valid() && d in buckets
      modifies buckets[d]
      ensures View().buckets == old(View().buckets)[d := View().buckets[d]]
      ensures AskedOk(caps, size, gossips, old(View().buckets)[d], View().buckets[d], order, wants)
    {
      wants, order := buckets[d].SelectTargets(caps, gossips, size);
      OneBucketMoved(d);
    }

    // One bucket's part of a peer's turn: claim and encode, forget its wants, and describe the
    // bucket when it is a gossip peer.
    method ServeBucket(caps: Caps, p: Peer, gossip: bool, armed: bool, accepts: bool, d: Data, wantList: seq<nat>)
        returns (batches: seq<Batch>, mds: seq<Metadata>)
      requires Valid() && d in buckets && Lifecycle(size, buckets[d].View())
      modifies buckets[d]
      ensures View().buckets == old(View().buckets)[d := Serve(caps, old(View().buckets)[d], p, gossip, accepts)]
      ensures batches == BatchFor(caps, size, old(View().buckets)[d], d, p, gossip, accepts)
      ensures mds == if gossip then MetaFor(old(View().buckets)[d], d, armed, wantList) else []
    {
      var b := buckets[d];
      batches := ClaimFrom(caps, p, gossip, accepts, d, b);
      OneBucketMoved(d);
      mds := [];
      if gossip { mds := b.Describe(d, wantList, armed); }
    }

    twostate lemma OneBucketMoved(d: Data)
      requires old(Valid()) && buckets == old(buckets) && d in buckets
      requires forall e <- buckets :: e != d ==> buckets[e].View() == old(buckets[e].View())
      ensures View().buckets == old(View().buckets)[d := buckets[d].View()]
    {
    }

    method ClaimFrom(caps: Caps, p: Peer, gossip: bool, accepts: bool, d: Data, b: VoteBucket) returns (batches: seq<Batch>)
      requires Lifecycle(size, b.View())
      modifies b
      ensures b.View() == Serve(caps, old(b.View()), p, gossip, accepts)
      ensures batches == BatchFor(caps, size, old(b.View()), d, p, gossip, accepts)
    {
      ghost var was := b.View();
      var claimed := b.ServePeer(caps, p, gossip, accepts, size);
      ClaimedIsEmpty(caps, size, was, p, gossip, accepts);
      batches := [];
      if claimed != [] {
        var batch := b.Encode(d, claimed);
        SameSigs(was, b.View(), claimed);
        batches := [batch];
      }
    }

    // One peer's turn, the buckets taken in map order.
    method ServeTurn(caps: Caps, p: Peer, f: Flags, accepts: bool, wants: map<Data, map<Peer, seq<nat>>>)
        returns (out: Out, ghost order: seq<Data>)
      requires Valid() && LivesWell(size, View().buckets)
      modifies buckets.Values
      ensures TurnSoFar(caps, old(View()), View().buckets, {}, p, f, accepts, wants, out, order)
    {
      ghost var g := View();
      var left := buckets.Keys;
      out, order := Out(p, [], []), [];
      while left != {}
        invariant left <= buckets.Keys
        invariant TurnSoFar(caps, g, View().buckets, left, p, f, accepts, wants, out, order)
      {
        var d :| d in left;
        out := TurnBucket(caps, p, f, accepts, wants, out, d, g, left, order);
        order := order + [d];
        left := left - {d};
      }
    }

    method TurnBucket(caps: Caps, p: Peer, f: Flags, accepts: bool, wants: map<Data, map<Peer, seq<nat>>>, soFar: Out, d: Data,
                      ghost g: Group, ghost left: set<Data>, ghost order: seq<Data>) returns (out: Out)
      requires Valid() && d in buckets && d in left && left <= g.buckets.Keys && g.size == size && LivesWell(size, g.buckets)
      requires TurnSoFar(caps, g, View().buckets, left, p, f, accepts, wants, soFar, order)
      modifies buckets[d]
      ensures TurnSoFar(caps, g, View().buckets, left - {d}, p, f, accepts, wants, out, order + [d])
    {
      TurnOneMore(caps, g, View().buckets, left, p, f, accepts, wants, soFar, order, d);
      var batches, mds := ServeBucket(caps, p, f.gossip, f.armed, accepts, d, WantList(wants, d, p));
      out := soFar.(metadatas := soFar.metadatas + mds, batches := soFar.batches + batches);
    }

    // publishActions on a live group: select the wants, then serve the peers in map order until the
    // consumer stops (after stopAfter actions, if that is not 0).
    method Tick(caps: Caps, flags: PeerStates, accepts: set<Peer>, stopAfter: nat)
        returns (outs: seq<Out>, rest: PeerStates, ghost c: Choice)
      requires Valid() && LivesWell(size, View().buckets)
      modifies buckets.Values
      ensures TickedOk(caps, old(View()), flags, accepts, c, View(), outs, rest)
      ensures stopAfter == 0 || |outs| < stopAfter ==> Lists(c.turns, flags.Keys)
    {
      ghost var g := View();
      var wants: map<Data, map<Peer, seq<nat>>>;
      ghost var asks: map<Data, seq<Peer>>;
      wants, asks := SelectAll(caps, Gossips(flags));
      ghost var asked := View().buckets;
      c, outs, rest := Choice(asks, [], []), [], flags;
      TickBegins(caps, g, flags, accepts, c, asked, wants);
      var left := flags.Keys;
      while left != {}
        invariant left <= flags.Keys && c.asks == asks && Lists(c.turns, flags.Keys - left)
        invariant TickedOk(caps, g, flags, accepts, c, View(), outs, rest)
        invariant stopAfter == 0 || |outs| < stopAfter
      {
        var p :| p in left;
        var out: Out;
        out, rest, c := TickPeer(caps, flags, accepts, p, wants, outs, rest, c, g, asked);
        ListedOneMore(c.turns[..|c.turns| - 1], flags.Keys, left, p);
        left := left - {p};
        if out.metadatas != [] || out.batches != [] {
          outs := outs + [out];
          if |outs| == stopAfter { break; }
        }
      }
    }

    // One peer of a tick; a served gossip peer leaves the peer states.
    method TickPeer(caps: Caps, flags: PeerStates, accepts: set<Peer>, p: Peer, wants: map<Data, map<Peer, seq<nat>>>,
                    ghost outs: seq<Out>, left: PeerStates, ghost c: Choice, ghost g: Group, ghost asked: map<Data, Bucket>)
        returns (out: Out, rest: PeerStates, ghost after: Choice)
      requires Valid() && g.size == size && LivesWell(size, g.buckets) && p in flags && p !in c.turns
      requires TickedOk(caps, g, flags, accepts, c, View(), outs, left)
      requires AskedSoFar(caps, size, Gossips(flags), g.buckets, asked, {}, c.asks, wants)
      modifies buckets.Values
      ensures after.asks == c.asks && after.turns == c.turns + [p]
      ensures TickedOk(caps, g, flags, accepts, after, View(),
                       outs + if out.metadatas == [] && out.batches == [] then [] else [out], rest)
    {
      ghost var now := View();
      TickedLivesWell(caps, g, flags, accepts, c, now);
      ghost var order: seq<Data>;
      out, order := ServeTurn(caps, p, flags[p], p in accepts, wants);
      TickOneMore(caps, g, flags, accepts, c, now, outs, left, asked, wants, p, View(), out, order);
      after := Choice(c.asks, c.turns + [p], c.orders + [order]);
      rest := if flags[p].gossip then map q | q in left && q != p :: left[q] else left;
    }
  }

  // The result of a tick, or of the part of it that c describes.
  ghost predicate TickedOk(caps: Caps, g: Group, flags: PeerStates, accepts: set<Peer>, c: Choice, now: Group,
                           outs: seq<Out>, rest: PeerStates) {
    && ValidChoice(g, flags, c) && now == TickGroup(caps, g, flags, accepts, c)
    && outs == Outs(caps, g, flags, accepts, c, |c.turns|)
    && rest == map p | p in flags && !(flags[p].gossip && p in c.turns) :: flags[p]
  }

  lemma TickedLivesWell(caps: Caps, g: Group, flags: PeerStates, accepts: set<Peer>, c: Choice, now: Group)
    requires LivesWell(g.size, g.buckets) && now == TickGroup(caps, g, flags, accepts, c)
    ensures LivesWell(g.size, now.buckets)
  {
    forall d <- g.buckets ensures Lifecycle(g.size, now.buckets[d]) { TickedBucket(caps, g, flags, accepts, c, d); }
  }

  lemma TickedBucket(caps: Caps, g: Group, flags: PeerStates, accepts: set<Peer>, c: Choice, d: Data)
    requires d in g.buckets
    ensures var n := TickGroup(caps, g, flags, accepts, c).buckets[d];
            n.held == g.buckets[d].held && n.validating == g.buckets[d].validating
            && n.validated == g.buckets[d].validated && n.local == g.buckets[d].local
  {
    AskAllFacts(caps, g.size, g.buckets[d], AskOrder(c.asks, d));
    ServeAllFacts(caps, AskAll(caps, g.buckets[d], AskOrder(c.asks, d), g.size), Gossips(flags), accepts, c.turns);
  }

  lemma AsksValid(caps: Caps, g: Group, flags: PeerStates, c: Choice, asked: map<Data, Bucket>,
                  wants: map<Data, map<Peer, seq<nat>>>)
    requires c.turns == [] && c.orders == []
    requires AskedSoFar(caps, g.size, Gossips(flags), g.buckets, asked, {}, c.asks, wants)
    ensures ValidChoice(g, flags, c)
  {
    forall d <- g.buckets ensures d in c.asks && Lists(c.asks[d], Gossips(flags)) {
      assert AskedOk(caps, g.size, Gossips(flags), g.buckets[d], asked[d], c.asks[d], wants[d]);
    }
  }

  lemma NothingServedYet(caps: Caps, g: Group, flags: PeerStates, accepts: set<Peer>, c: Choice, asked: map<Data, Bucket>,
                         wants: map<Data, map<Peer, seq<nat>>>)
    requires c.turns == [] && AskedSoFar(caps, g.size, Gossips(flags), g.buckets, asked, {}, c.asks, wants)
    ensures TickGroup(caps, g, flags, accepts, c) == g.(buckets := asked)
  {
    forall d <- g.buckets ensures TickGroup(caps, g, flags, accepts, c).buckets[d] == asked[d] {
      assert AskedOk(caps, g.size, Gossips(flags), g.buckets[d], asked[d], c.asks[d], wants[d]);
    }
    assert TickGroup(caps, g, flags, accepts, c).buckets == asked;
  }

  lemma TickBegins(caps: Caps, g: Group, flags: PeerStates, accepts: set<Peer>, c: Choice, asked: map<Data, Bucket>,
                   wants: map<Data, map<Peer, seq<nat>>>)
    requires c.turns == [] && c.orders == []
    requires AskedSoFar(caps, g.size, Gossips(flags), g.buckets, asked, {}, c.asks, wants)
    ensures TickedOk(caps, g, flags, accepts, c, g.(buckets := asked), [], flags)
  {
    AsksValid(caps, g, flags, c, asked, wants);
    NothingServedYet(caps, g, flags, accepts, c, asked, wants);
  }

  lemma {:induction false} OutsPrefix(
      caps: Caps, g: Group, flags: PeerStates, accepts: set<Peer>, c: Choice, c2: Choice, n: nat)
    requires |c.orders| == |c.turns| && |c2.orders| == |c2.turns| && n <= |c.turns| <= |c2.turns| && c2.asks == c.asks
    requires c2.turns[..|c.turns|] == c.turns && c2.orders[..|c.orders|] == c.orders
    requires (forall p <- c.turns :: p in flags) && (forall p <- c2.turns :: p in flags)
    ensures Outs(caps, g, flags, accepts, c2, n) == Outs(caps, g, flags, accepts, c, n)
  {
    if n > 0 {
      OutsPrefix(caps, g, flags, accepts, c, c2, n - 1);
      assert c2.turns[n - 1] == c2.turns[..|c.turns|][n - 1] && c2.orders[n - 1] == c2.orders[..|c.orders|][n - 1];
      assert c2.turns[..n - 1] == c2.turns[..|c.turns|][..n - 1] == c.turns[..n - 1];
      assert c2.turns[n - 1] in c2.turns && c.turns[n - 1] in c.turns;
      assert OutAt(caps, g, flags, accepts, c2, n - 1) == OutAt(caps, g, flags, accepts, c, n - 1);
    }
  }

  // The want lists say what WantsOf does.
  lemma WantListIs(caps: Caps, size: nat, gossips: set<Peer>, b: Bucket, asked: Bucket, order: seq<Peer>,
                   wants: map<Data, map<Peer, seq<nat>>>, p: Peer, d: Data)
    requires d in wants && AskedOk(caps, size, gossips, b, asked, order, wants[d]) && p in gossips
    ensures var w := WantsOf(caps, b, order, p, size);
            Positions(WantList(wants, d, p)) == w && (WantList(wants, d, p) == [] <==> w == {})
  {
    var w := WantsOf(caps, b, order, p, size);
    WantsAreBits(caps, b, order, p, size);
    SortedIsTheSet(w, size);
    SortedIsEmpty(w, size);
    assert Positions(Sorted(w, size)) == w;
  }

  lemma {:induction false} WantsAreBits(caps: Caps, b: Bucket, order: seq<Peer>, p: Peer, size: nat)
    ensures forall pos <- WantsOf(caps, b, order, p, size) :: pos < size
  {
    if order != [] { WantsAreBits(caps, b, order[..|order| - 1], p, size); }
  }

  lemma {:induction false} MetasAgree(caps: Caps, g: Group, flags: PeerStates, c: Choice, asked: map<Data, Bucket>,
                   wants: map<Data, map<Peer, seq<nat>>>, p: Peer, armed: bool, order: seq<Data>, now: Group)
    requires AskedSoFar(caps, g.size, Gossips(flags), g.buckets, asked, {}, c.asks, wants) && p in Gossips(flags)
    requires now.buckets.Keys == g.buckets.Keys && forall d <- g.buckets :: now.buckets[d].validated == g.buckets[d].validated
    requires forall d <- order :: d in g.buckets
    ensures MetasFor(now, wants, p, armed, order) == MetasTo(caps, g, c.asks, p, armed, order)
  {
    if order != [] {
      var d := order[|order| - 1];
      MetasAgree(caps, g, flags, c, asked, wants, p, armed, order[..|order| - 1], now);
      WantListIs(caps, g.size, Gossips(flags), g.buckets[d], asked[d], c.asks[d], wants, p, d);
    }
  }

  lemma MetasAfterTurns(caps: Caps, g: Group, flags: PeerStates, accepts: set<Peer>, c: Choice, now: Group,
                        asked: map<Data, Bucket>, wants: map<Data, map<Peer, seq<nat>>>, p: Peer, armed: bool, order: seq<Data>)
    requires now == TickGroup(caps, g, flags, accepts, c) && p in Gossips(flags)
    requires AskedSoFar(caps, g.size, Gossips(flags), g.buckets, asked, {}, c.asks, wants)
    requires forall d <- order :: d in g.buckets
    ensures MetasFor(now, wants, p, armed, order) == MetasTo(caps, g, c.asks, p, armed, order)
  {
    forall d <- g.buckets ensures now.buckets[d].validated == g.buckets[d].validated {
      TickedBucket(caps, g, flags, accepts, c, d);
    }
    MetasAgree(caps, g, flags, c, asked, wants, p, armed, order, now);
  }

  lemma OutAgrees(caps: Caps, g: Group, flags: PeerStates, accepts: set<Peer>, c: Choice, now: Group, asked: map<Data, Bucket>,
                  wants: map<Data, map<Peer, seq<nat>>>, p: Peer, after: map<Data, Bucket>, out: Out, order: seq<Data>)
    requires now == TickGroup(caps, g, flags, accepts, c) && p in flags
    requires AskedSoFar(caps, g.size, Gossips(flags), g.buckets, asked, {}, c.asks, wants)
    requires TurnSoFar(caps, now, after, {}, p, flags[p], p in accepts, wants, out, order)
    ensures out == TurnOut(caps, g, flags, accepts, c.asks, c.turns, p, order)
  {
    if flags[p].gossip { MetasAfterTurns(caps, g, flags, accepts, c, now, asked, wants, p, flags[p].armed, order); }
  }

  lemma ChoiceExtends(g: Group, flags: PeerStates, c: Choice, p: Peer, order: seq<Data>)
    requires ValidChoice(g, flags, c) && p in flags && p !in c.turns && Lists(order, g.buckets.Keys)
    ensures ValidChoice(g, flags, Choice(c.asks, c.turns + [p], c.orders + [order]))
  {
  }

  lemma OutsExtend(caps: Caps, g: Group, flags: PeerStates, accepts: set<Peer>, c: Choice, p: Peer, order: seq<Data>, out: Out)
    requires |c.orders| == |c.turns| && p in flags && forall q <- c.turns :: q in flags
    requires out == TurnOut(caps, g, flags, accepts, c.asks, c.turns, p, order)
    ensures var c2 := Choice(c.asks, c.turns + [p], c.orders + [order]);
            Outs(caps, g, flags, accepts, c2, |c2.turns|) ==
              Outs(caps, g, flags, accepts, c, |c.turns|) + if out.metadatas == [] && out.batches == [] then [] else [out]
  {
    var c2 := Choice(c.asks, c.turns + [p], c.orders + [order]);
    assert c2.turns[..|c.turns|] == c.turns && c2.orders[..|c.orders|] == c.orders;
    OutsPrefix(caps, g, flags, accepts, c, c2, |c.turns|);
    assert OutAt(caps, g, flags, accepts, c2, |c.turns|) == out;
  }

  lemma RestShrinks(flags: PeerStates, turns: seq<Peer>, rest: PeerStates, p: Peer)
    requires p in flags && rest == map q | q in flags && !(flags[q].gossip && q in turns) :: flags[q]
    ensures (if flags[p].gossip then map q | q in rest && q != p :: rest[q] else rest)
            == map q | q in flags && !(flags[q].gossip && q in turns + [p]) :: flags[q]
  {
  }

  lemma TickOneMore(caps: Caps, g: Group, flags: PeerStates, accepts: set<Peer>, c: Choice, now: Group, outs: seq<Out>,
                    rest: PeerStates, asked: map<Data, Bucket>, wants: map<Data, map<Peer, seq<nat>>>, p: Peer, after: Group,
                    out: Out, order: seq<Data>)
    requires TickedOk(caps, g, flags, accepts, c, now, outs, rest) && p in flags && p !in c.turns
    requires AskedSoFar(caps, g.size, Gossips(flags), g.buckets, asked, {}, c.asks, wants)
    requires after == now.(buckets := after.buckets)
    requires TurnSoFar(caps, now, after.buckets, {}, p, flags[p], p in accepts, wants, out, order)
    ensures TickedOk(caps, g, flags, accepts, Choice(c.asks, c.turns + [p], c.orders + [order]), after,
                     outs + if out.metadatas == [] && out.batches == [] then [] else [out],
                     if flags[p].gossip then map q | q in rest && q != p :: rest[q] else rest)
  {
    assert now.buckets.Keys - {} == g.buckets.Keys;
    RestShrinks(flags, c.turns, rest, p);
    ChoiceExtends(g, flags, c, p, order);
    OutAgrees(caps, g, flags, accepts, c, now, asked, wants, p, after.buckets, out, order);
    OutsExtend(caps, g, flags, accepts, c, p, order, out);
    TickGroupExtends(caps, g, flags, accepts, c, Choice(c.asks, c.turns + [p], c.orders + [order]), p, after.buckets);
  }

  lemma TickGroupExtends(caps: Caps, g: Group, flags: PeerStates, accepts: set<Peer>, c: Choice, c2: Choice, p: Peer,
                         after: map<Data, Bucket>)
    requires c2.asks == c.asks && c2.turns == c.turns + [p] && p in flags
    requires ServedSoFar(caps, TickGroup(caps, g, flags, accepts, c).buckets, after, {}, p, flags[p].gossip, p in accepts)
    ensures TickGroup(caps, g, flags, accepts, c2) == g.(buckets := after)
  {
    assert c2.turns[..|c.turns|] == c.turns;
    assert Asked(caps, g, c2.asks) == Asked(caps, g, c.asks);
    assert p in Gossips(flags) <==> flags[p].gossip;
    assert TickGroup(caps, g, flags, accepts, c2).buckets == after;
  }

  predicate LivesWell(size: nat, buckets: map<Data, Bucket>) { forall d <- buckets :: Lifecycle(size, buckets[d]) }

  // Where a peer's turn stands with the buckets in left still to come: out is what it sends so far.
  ghost predicate TurnSoFar(caps: Caps, g: Group, now: map<Data, Bucket>, left: set<Data>, p: Peer, f: Flags, accepts: bool,
                            wants: map<Data, map<Peer, seq<nat>>>, out: Out, order: seq<Data>) {
    && Lists(order, g.buckets.Keys - left)
    && ServedSoFar(caps, g.buckets, now, left, p, f.gossip, accepts)
    && out == Out(p, if f.gossip then MetasFor(g, wants, p, f.armed, order) else [],
                  BatchesTo(caps, g, p, f.gossip, accepts, order))
  }

  lemma TurnOneMore(caps: Caps, g: Group, now: map<Data, Bucket>, left: set<Data>, p: Peer, f: Flags, accepts: bool,
                    wants: map<Data, map<Peer, seq<nat>>>, out: Out, order: seq<Data>, d: Data)
    requires TurnSoFar(caps, g, now, left, p, f, accepts, wants, out, order) && d in left && left <= g.buckets.Keys
    ensures now[d] == g.buckets[d]
    ensures var batches := BatchFor(caps, g.size, g.buckets[d], d, p, f.gossip, accepts);
            var mds := if f.gossip then MetaFor(g.buckets[d], d, f.armed, WantList(wants, d, p)) else [];
            TurnSoFar(caps, g, now[d := Serve(caps, g.buckets[d], p, f.gossip, accepts)], left - {d}, p, f, accepts, wants,
                      out.(metadatas := out.metadatas + mds, batches := out.batches + batches), order + [d])
  {
    TurnStep(caps, g, wants, p, f.gossip, f.armed, accepts, order, d);
    ServedOneMore(caps, g.buckets, now, left, p, f.gossip, accepts, d);
    ListedOneMore(order, g.buckets.Keys, left, d);
  }

  lemma ListedOneMore<T(!new)>(order: seq<T>, all: set<T>, left: set<T>, x: T)
    requires Lists(order, all - left) && x in left && left <= all
    ensures Lists(order + [x], all - (left - {x}))
  {
  }

  function WantList(wants: map<Data, map<Peer, seq<nat>>>, d: Data, p: Peer): seq<nat> {
    if d in wants && p in wants[d] then wants[d][p] else []
  }

  // The control envelope for one peer.
  function MetasFor(g: Group, wants: map<Data, map<Peer, seq<nat>>>, p: Peer, armed: bool, order: seq<Data>): seq<Metadata> {
    if order == [] then []
    else
      var d := order[|order| - 1];
      MetasFor(g, wants, p, armed, order[..|order| - 1]) + MetaFor(BucketOf(g, d), d, armed, WantList(wants, d, p))
  }

  lemma TurnStep(caps: Caps, g: Group, wants: map<Data, map<Peer, seq<nat>>>, p: Peer, gossip: bool, armed: bool,
                 accepts: bool, order: seq<Data>, d: Data)
    requires d in g.buckets
    ensures BatchesTo(caps, g, p, gossip, accepts, order + [d]) ==
            BatchesTo(caps, g, p, gossip, accepts, order) + BatchFor(caps, g.size, g.buckets[d], d, p, gossip, accepts)
    ensures MetasFor(g, wants, p, armed, order + [d]) ==
            MetasFor(g, wants, p, armed, order) + MetaFor(g.buckets[d], d, armed, WantList(wants, d, p))
  {
    assert (order + [d])[..|order|] == order;
  }

  ghost predicate ServedSoFar(caps: Caps, was: map<Data, Bucket>, now: map<Data, Bucket>, left: set<Data>,
                              p: Peer, gossip: bool, accepts: bool) {
    && now.Keys == was.Keys
    && forall d <- now :: now[d] == if d in left then was[d] else Serve(caps, was[d], p, gossip, accepts)
  }

  lemma ServedOneMore(caps: Caps, was: map<Data, Bucket>, now: map<Data, Bucket>, left: set<Data>,
                      p: Peer, gossip: bool, accepts: bool, d: Data)
    requires ServedSoFar(caps, was, now, left, p, gossip, accepts) && d in left && d in was
    ensures ServedSoFar(caps, was, now[d := Serve(caps, was[d], p, gossip, accepts)], left - {d}, p, gossip, accepts)
  {
  }

  lemma SameSigs(b: Bucket, n: Bucket, positions: seq<nat>)
    requires n.held == b.held
    ensures SigsOf(n, positions) == SigsOf(b, positions)
  {
  }

  // What one bucket contributes to a peer's data envelope, and to its control envelope.
  function BatchFor(caps: Caps, size: nat, b: Bucket, d: Data, p: Peer, gossip: bool, accepts: bool): seq<Batch> {
    var served := ServedPositions(caps, b, p, gossip, accepts);
    if served == {} then [] else [EncodeBatch(b, d, Sorted(served, size))]
  }

  function MetaFor(b: Bucket, d: Data, armed: bool, wantList: seq<nat>): seq<Metadata> {
    var available := if armed then b.validated else {};
    if available == {} && wantList == [] then [] else [Metadata(d, available, Positions(wantList))]
  }

  lemma ClaimedIsEmpty(caps: Caps, size: nat, b: Bucket, p: Peer, gossip: bool, accepts: bool)
    requires Lifecycle(size, b)
    ensures var served := ServedPositions(caps, b, p, gossip, accepts);
            Sorted(served, size) == [] <==> served == {}
  {
    var served := ServedPositions(caps, b, p, gossip, accepts);
    forall pos <- served ensures pos < size { assert pos in b.validated && pos in b.held; }
    SortedIsEmpty(served, size);
  }

  // What selectIWantTargets does to one bucket, and the want lists it makes.
  ghost predicate AskedOk(
      caps: Caps, size: nat, gossips: set<Peer>, was: Bucket, now: Bucket, order: seq<Peer>, wants: map<Peer, seq<nat>>) {
    && Lists(order, gossips) && now == AskAll(caps, was, order, size)
    && wants.Keys <= gossips
    && forall p <- gossips ::
         var w := WantsOf(caps, was, order, p, size);
         if w == {} then p !in wants else p in wants && wants[p] == Sorted(w, size)
  }

  ghost predicate AskedSoFar(
      caps: Caps, size: nat, gossips: set<Peer>, was: map<Data, Bucket>, now: map<Data, Bucket>, left: set<Data>,
      asks: map<Data, seq<Peer>>, wants: map<Data, map<Peer, seq<nat>>>) {
    && now.Keys == was.Keys && asks.Keys == was.Keys - left && wants.Keys == was.Keys - left
    && (forall d <- now :: if d in left then now[d] == was[d] else AskedOk(caps, size, gossips, was[d], now[d], asks[d], wants[d]))
  }

  lemma AskedOneMore(
      caps: Caps, size: nat, gossips: set<Peer>, was: map<Data, Bucket>, now: map<Data, Bucket>, left: set<Data>,
      asks: map<Data, seq<Peer>>, wants: map<Data, map<Peer, seq<nat>>>,
      d: Data, b: Bucket, order: seq<Peer>, w: map<Peer, seq<nat>>)
    requires AskedSoFar(caps, size, gossips, was, now, left, asks, wants) && d in left && d in was
    requires AskedOk(caps, size, gossips, was[d], b, order, w)
    ensures AskedSoFar(caps, size, gossips, was, now[d := b], left - {d}, asks[d := order], wants[d := w])
  {
  }

  // One more batch after an accepted prefix.
  function TakeOn(front: Taken, from: Peer, batch: Batch): Taken {
    if CheckBatch(front.group.size, batch).Failed? then front.(outcome := CheckBatch(front.group.size, batch))
    else Take(front.group, from, batch).(work := front.work + Take(front.group, from, batch).work)
  }

  lemma TakeAllStep(g: Group, from: Peer, batches: seq<Batch>, i: nat)
    requires i < |batches| && TakeAll(g, from, batches[..i]).outcome == Fine
    ensures TakeAll(g, from, batches[..i + 1]) == TakeOn(TakeAll(g, from, batches[..i]), from, batches[i])
  {
    assert batches[..i + 1][..i] == batches[..i];
  }

  lemma {:induction false} FailedStays(g: Group, from: Peer, batches: seq<Batch>, n: nat)
    requires n <= |batches| && TakeAll(g, from, batches[..n]).outcome.Failed?
    ensures TakeAll(g, from, batches) == TakeAll(g, from, batches[..n])
    decreases |batches| - n
  {
    if n == |batches| {
      assert batches[..n] == batches;
    } else {
      assert batches[..n + 1][..n] == batches[..n];
      FailedStays(g, from, batches, n + 1);
    }
  }
}
