/** The bucket of node/partial.go as it is updated in place, each method proved against the
    operation of PartialBucket it performs. */
module PartialBucketObject {
  import opened PartialBucket
  import opened PartialManager

  class VoteBucket {
    var held: map<nat, Sig>
    var validating: set<nat>
    var validated: set<nat>
    var sendCount: map<nat, nat>
    var requestCount: map<nat, nat>
    var peers: map<Peer, PeerState>
    ghost var claims: set<(Peer, nat)>
    ghost var heard: set<(Peer, nat)>
    ghost var local: set<nat>
    ghost const owner: object

    ghost function View(): Bucket
      reads this
    {
      Bucket(held, validating, validated, sendCount, requestCount, peers, claims, heard, local)
    }

    constructor (ghost owner: object)
      ensures View() == Fresh() && this.owner == owner
    {
      this.owner := owner;
      held, validating, validated := map[], {}, {};
      sendCount, requestCount, peers := map[], map[], map[];
      claims, heard, local := {}, {}, {};
    }

    // peer: the per-peer state, created when needed.
    method Touch(p: Peer)
      modifies this
      ensures View() == old(View()).(peers := old(View()).peers[p := PeerOf(old(View()), p)])
    {
      if p !in peers { peers := peers[p := PeerState({}, {})]; }
    }

    method PutLocal(pos: nat, sig: Sig)
      modifies this
      ensures View() == StoreLocal(old(View()), pos, sig)
    {
      if pos in held { return; }
      held := held[pos := sig];
      validated := validated + {pos};
      local := local + {pos};
    }

    method AddAll(positions: seq<nat>, sigs: seq<Sig>) returns (added: seq<nat>)
      requires |positions| == |sigs|
      modifies this
      ensures (View(), added) == AddReceived(old(View()), positions, sigs)
    {
      added := [];
      for i := 0 to |positions|
        invariant (View(), added) == AddReceived(old(View()), positions[..i], sigs[..i])
      {
        assert positions[..i + 1][..i] == positions[..i] && sigs[..i + 1][..i] == sigs[..i];
        var pos := positions[i];
        if pos !in held {
          held := held[pos := sigs[i]];
          validating := validating + {pos};
          added := added + [pos];
        }
      }
      assert positions[..|positions|] == positions && sigs[..|sigs|] == sigs;
    }

    // The sender holds what it sent.
    method NoteSender(from: Peer, positions: seq<nat>)
      modifies this
      ensures View() == MarkSent(old(View()), from, positions)
    {
      ghost var was := PeerOf(View(), from);
      Touch(from);
      assert Positions(positions[..0]) == {};
      assert was.available + {} == was.available;
      for i := 0 to |positions|
        invariant View() == old(View()).(peers := peers)
        invariant peers == old(peers)[from := was.(available := was.available + Positions(positions[..i]))]
      {
        peers := peers[from := peers[from].(available := peers[from].available + {positions[i]})];
        assert Positions(positions[..i + 1]) == Positions(positions[..i]) + {positions[i]};
        assert was.available + Positions(positions[..i]) + {positions[i]} == was.available + Positions(positions[..i + 1]);
      }
      assert positions[..|positions|] == positions;
      heard := heard + Marks(from, Positions(positions));
    }

    method NoteMetadata(from: Peer, available: set<nat>, requests: set<nat>, size: nat)
      modifies this
      ensures View() == HearMetadata(old(View()), from, available, requests, size)
    {
      Touch(from);
      var s := peers[from];
      peers := peers[from := PeerState(s.available + Fit(available, size), s.pendingWant + Fit(requests, size))];
      heard := heard + Marks(from, Fit(available, size));
    }

    // claimToSend's filter: the validated positions in map order.
    method Choose(caps: Caps, p: Peer, gossip: bool) returns (chosen: set<nat>)
      requires p in peers
      ensures chosen == Claimable(caps, View(), p, gossip)
    {
      chosen := {};
      if gossip && peers[p].pendingWant == {} { return; }
      var left := validated;
      while left != {}
        invariant left <= validated
        invariant chosen == set pos | pos in Claimable(caps, View(), p, gossip) && pos !in left
      {
        var pos :| pos in left;
        left := left - {pos};
        if Count(sendCount, pos) < caps.maxPeers && pos !in peers[p].available && (!gossip || pos in peers[p].pendingWant) {
          chosen := chosen + {pos};
        }
      }
    }

    // claimToSend's bookkeeping, one position at a time.
    method Commit(p: Peer, claimed: seq<nat>)
      requires p in peers && forall i, j :: 0 <= i < j < |claimed| ==> claimed[i] != claimed[j]
      modifies this
      ensures View() == Claim(old(View()), p, Positions(claimed))
    {
      ghost var b := View();
      assert Positions(claimed[..0]) == {};
      NothingClaimed(b, p);
      for i := 0 to |claimed|
        invariant p in peers && View() == ClaimedSoFar(b, p, Positions(claimed[..i]))
      {
        ClaimOneMore(b, p, Positions(claimed[..i]), claimed[i]);
        assert Positions(claimed[..i + 1]) == Positions(claimed[..i]) + {claimed[i]};
        CommitOne(p, claimed[i]);
      }
      assert claimed[..|claimed|] == claimed;
      claims := claims + Marks(p, Positions(claimed));
    }

    method CommitOne(p: Peer, pos: nat)
      requires p in peers
      modifies this
      ensures p in peers && View() == MarkedOne(old(View()), p, pos)
    {
      peers := peers[p := peers[p].(available := peers[p].available + {pos})];
      sendCount := sendCount[pos := Count(sendCount, pos) + 1];
    }

    method ClaimToSend(caps: Caps, p: Peer, gossip: bool, size: nat) returns (claimed: seq<nat>)
      requires p in peers && Lifecycle(size, View())
      modifies this
      ensures claimed == Sorted(Claimable(caps, old(View()), p, gossip), size)
      ensures View() == Claim(old(View()), p, Claimable(caps, old(View()), p, gossip))
    {
      var chosen := Choose(caps, p, gossip);
      claimed := Sorted(chosen, size);
      SortedIsTheSet(chosen, size);
      forall pos <- chosen ensures pos < size { assert pos in View().validated; }
      assert Positions(claimed) == chosen;
      Commit(p, claimed);
    }

    // One peer's turn of a tick; its wants are forgotten whether or not they were served.
    method ServePeer(caps: Caps, p: Peer, gossip: bool, accepts: bool, size: nat) returns (claimed: seq<nat>)
      requires Lifecycle(size, View())
      modifies this
      ensures View() == Serve(caps, old(View()), p, gossip, accepts)
      ensures claimed == Sorted(ServedPositions(caps, old(View()), p, gossip, accepts), size)
    {
      Touch(p);
      claimed := [];
      if accepts {
        TouchChangesNothing(caps, old(View()), p, gossip);
        claimed := ClaimToSend(caps, p, gossip, size);
      } else {
        NothingSorted(size);
      }
      peers := peers[p := peers[p].(pendingWant := {})];
    }

    // selectIWantTargets for one peer.
    method AskPeer(caps: Caps, p: Peer, size: nat) returns (wants: seq<nat>)
      modifies this
      ensures View() == Ask(caps, old(View()), p, size)
      ensures wants == Sorted(Wanted(caps, old(View()), p, size), size)
    {
      ghost var b := View();
      ghost var s := Wanted(caps, b, p, size);
      Touch(p);
      wants := [];
      NothingBumped(b.requestCount);
      for i := 0 to size
        invariant p in peers && View() == AskedUpTo(b, p, s, i) && wants == Sorted(s, i)
      {
        AskOneMore(caps, b, p, size, i);
        if i in peers[p].available && i !in held && Count(requestCount, i) < caps.maxIWant {
          requestCount := requestCount[i := Count(requestCount, i) + 1];
          wants := wants + [i];
        }
      }
      assert FirstBits(s, size) == s;
    }

    // selectIWantTargets, the gossip peers taken in map order.
    method SelectTargets(caps: Caps, gossips: set<Peer>, size: nat) returns (wants: map<Peer, seq<nat>>, ghost order: seq<Peer>)
      modifies this
      ensures Lists(order, gossips) && View() == AskAll(caps, old(View()), order, size)
      ensures wants.Keys <= gossips
      ensures forall p <- gossips ::
                var w := WantsOf(caps, old(View()), order, p, size);
                if w == {} then p !in wants else p in wants && wants[p] == Sorted(w, size)
    {
      var left := gossips;
      wants, order := map[], [];
      while left != {}
        invariant left <= gossips && Distinct(order) && forall p :: p in order <==> p in gossips && p !in left
        invariant View() == AskAll(caps, old(View()), order, size)
        invariant wants.Keys <= gossips - left
        invariant forall p <- gossips - left ::
                    var w := WantsOf(caps, old(View()), order, p, size);
                    if w == {} then p !in wants else p in wants && wants[p] == Sorted(w, size)
      {
        var p :| p in left;
        ghost var w := Wanted(caps, View(), p, size);
        var list := AskPeer(caps, p, size);
        assert (order + [p])[..|order|] == order;
        forall q <- gossips - left ensures WantsOf(caps, old(View()), order + [p], q, size) == WantsOf(caps, old(View()), order, q, size) {
        }
        assert WantsOf(caps, old(View()), order + [p], p, size) == w;
        SortedIsEmpty(w, size);
        if list != [] { wants := wants[p := list]; }
        order := order + [p];
        left := left - {p};
      }
    }

    // markValidated's loop; the promoted positions are what fires.
    method PromoteAll(positions: seq<nat>) returns (promoted: seq<nat>)
      modifies this
      ensures (View(), promoted) == Promote(old(View()), positions)
    {
      promoted := [];
      for i := 0 to |positions|
        invariant (View(), promoted) == Promote(old(View()), positions[..i])
      {
        assert positions[..i + 1][..i] == positions[..i];
        var pos := positions[i];
        if pos in validating {
          validating := validating - {pos};
          validated := validated + {pos};
          promoted := promoted + [pos];
        }
      }
      assert positions[..|positions|] == positions;
    }

    // encodeBatch, indices and signatures in the given order.
    method Encode(d: Data, positions: seq<nat>) returns (batch: Batch)
      ensures batch == EncodeBatch(View(), d, positions)
    {
      var idxs, sigs := [], [];
      for i := 0 to |positions|
        invariant idxs == positions[..i] && sigs == SigsOf(View(), positions)[..i]
      {
        idxs := idxs + [positions[i]];
        sigs := sigs + [if positions[i] in held then held[positions[i]] else ""];
      }
      assert SigsOf(View(), positions)[..|positions|] == SigsOf(View(), positions);
      batch := Batch(d, idxs, sigs);
    }

    // bucketMetadata: none when both bitmaps would be empty.
    method Describe(d: Data, wantList: seq<nat>, includeAvailable: bool) returns (mds: seq<Metadata>)
      ensures var available := if includeAvailable then validated else {};
              mds == if available == {} && wantList == [] then [] else [Metadata(d, available, Positions(wantList))]
    {
      var available, requests: set<nat> := {}, {};
      if includeAvailable {
        var left := validated;
        while left != {}
          invariant left <= validated && available == validated - left
        {
          var pos :| pos in left;
          left := left - {pos};
          available := available + {pos};
        }
      }
      for i := 0 to |wantList|
        invariant requests == Positions(wantList[..i])
      {
        requests := requests + {wantList[i]};
        assert Positions(wantList[..i + 1]) == Positions(wantList[..i]) + {wantList[i]};
      }
      assert wantList[..|wantList|] == wantList;
      assert available == (if includeAvailable then validated else {});
      if wantList != [] { assert wantList[0] in requests; }
      mds := if available == {} && requests == {} then [] else [Metadata(d, available, requests)];
    }
  }

  lemma TouchChangesNothing(caps: Caps, b: Bucket, p: Peer, gossip: bool)
    ensures var t := b.(peers := b.peers[p := PeerOf(b, p)]);
            && PeerOf(t, p) == PeerOf(b, p) && Claimable(caps, t, p, gossip) == Claimable(caps, b, p, gossip)
            && Claim(t, p, Claimable(caps, b, p, gossip)) == Claim(b, p, Claimable(caps, b, p, gossip))
  {
  }

  lemma {:induction false} NothingSorted(size: nat)
    ensures Sorted({}, size) == []
  {
    if size > 0 { NothingSorted(size - 1); }
  }

  lemma SortedIsEmpty(s: set<nat>, size: nat)
    requires forall pos <- s :: pos < size
    ensures Sorted(s, size) == [] <==> s == {}
  {
    SortedIsTheSet(s, size);
    NothingSorted(size);
    if pos :| pos in s { assert pos in Sorted(s, size); }
  }

  lemma NothingBumped(m: map<nat, nat>)
    ensures Bump(m, {}) == m
  {
  }

  ghost function FirstBits(s: set<nat>, i: nat): set<nat> { set pos | pos in s && pos < i }

  ghost function AskedUpTo(b: Bucket, p: Peer, s: set<nat>, i: nat): Bucket {
    b.(peers := b.peers[p := PeerOf(b, p)], requestCount := Bump(b.requestCount, FirstBits(s, i)))
  }

  // One step of the scan over positions.
  lemma AskOneMore(caps: Caps, b: Bucket, p: Peer, size: nat, i: nat)
    requires i < size
    ensures var (s, n) := (Wanted(caps, b, p, size), AskedUpTo(b, p, Wanted(caps, b, p, size), i));
            && (i in s <==> i in PeerOf(n, p).available && i !in n.held && Count(n.requestCount, i) < caps.maxIWant)
            && AskedUpTo(b, p, s, i + 1) ==
                 if i in s then n.(requestCount := n.requestCount[i := Count(n.requestCount, i) + 1]) else n
  {
    var s := Wanted(caps, b, p, size);
    if i in s { BumpNext(b.requestCount, s, i); } else { assert FirstBits(s, i + 1) == FirstBits(s, i); }
  }

  lemma BumpNext(m: map<nat, nat>, s: set<nat>, i: nat)
    requires i in s
    ensures Bump(m, FirstBits(s, i + 1)) == Bump(m, FirstBits(s, i))[i := Count(Bump(m, FirstBits(s, i)), i) + 1]
  {
    assert FirstBits(s, i + 1) == FirstBits(s, i) + {i};
    BumpOneMore(m, FirstBits(s, i), i);
  }

  lemma BumpOneMore(m: map<nat, nat>, s: set<nat>, pos: nat)
    requires pos !in s
    ensures Bump(m, s + {pos}) == Bump(m, s)[pos := Count(Bump(m, s), pos) + 1]
  {
  }

  // A claim before its history is written.
  ghost function ClaimedSoFar(b: Bucket, p: Peer, s: set<nat>): Bucket { Claim(b, p, s).(claims := b.claims) }

  ghost function MarkedOne(n: Bucket, p: Peer, pos: nat): Bucket {
    n.(peers := n.peers[p := PeerOf(n, p).(available := PeerOf(n, p).available + {pos})],
       sendCount := n.sendCount[pos := Count(n.sendCount, pos) + 1])
  }

  lemma ClaimOneMore(b: Bucket, p: Peer, s: set<nat>, pos: nat)
    requires pos !in s
    ensures ClaimedSoFar(b, p, s + {pos}) == MarkedOne(ClaimedSoFar(b, p, s), p, pos)
  {
    assert PeerOf(b, p).available + (s + {pos}) == PeerOf(b, p).available + s + {pos};
    BumpOneMore(b.sendCount, s, pos);
  }

  lemma NothingClaimed(b: Bucket, p: Peer)
    requires p in b.peers
    ensures Claim(b, p, {}) == b
  {
    NothingBumped(b.sendCount);
    assert Marks(p, {}) == {};
    assert PeerOf(b, p).available + {} == PeerOf(b, p).available;
    assert b.peers[p := PeerOf(b, p)] == b.peers;
    assert b.claims + {} == b.claims;
  }
}
