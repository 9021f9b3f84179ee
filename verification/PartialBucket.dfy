/** One bucket of the partial-message transport in node/partial.go: the votes held for one
    attestation_data, what each peer is believed to hold and wants, and the forward and request
    budgets.  A committee bitmap is the set of its set bits. */
module PartialBucket {

  type Peer = nat
  type Sig = string
  type Data = string

  datatype PeerState = PeerState(available: set<nat>, pendingWant: set<nat>)

  // The last three fields are histories: which positions were claimed for which peer, which each
  // peer sent or advertised, and which were published here.
  datatype Bucket = Bucket(
    held: map<nat, Sig>, validating: set<nat>, validated: set<nat>,
    sendCount: map<nat, nat>, requestCount: map<nat, nat>, peers: map<Peer, PeerState>,
    claims: set<(Peer, nat)>, heard: set<(Peer, nat)>, local: set<nat>)

  datatype Caps = Caps(maxPeers: nat, maxIWant: nat)

  function Fresh(): Bucket { Bucket(map[], {}, {}, map[], map[], map[], {}, {}, {}) }

  // Bits of a committee bitmap: whole bytes.
  function Width(size: nat): nat { (size + 7) / 8 * 8 }

  // Or truncates to our own width.
  function Fit(bits: set<nat>, size: nat): set<nat> { set b | b in bits && b < Width(size) }

  function Count(m: map<nat, nat>, pos: nat): nat { if pos in m then m[pos] else 0 }

  function Bump(m: map<nat, nat>, s: set<nat>): map<nat, nat> {
    map pos | pos in m.Keys + s :: Count(m, pos) + if pos in s then 1 else 0
  }

  function PeerOf(b: Bucket, p: Peer): PeerState {
    if p in b.peers then b.peers[p] else PeerState({}, {})
  }

  function Marks(p: Peer, s: set<nat>): set<(Peer, nat)> { set pos | pos in s :: (p, pos) }

  function Positions(ps: seq<nat>): set<nat> { set pos | pos in ps }

  // The positions of a set in ascending order.
  function Sorted(s: set<nat>, size: nat): seq<nat> {
    if size == 0 then [] else Sorted(s, size - 1) + if size - 1 in s then [size - 1] else []
  }

  lemma {:induction false} SortedIsTheSet(s: set<nat>, size: nat)
    ensures forall pos :: pos in Sorted(s, size) <==> pos in s && pos < size
    ensures forall i, j :: 0 <= i < j < |Sorted(s, size)| ==> Sorted(s, size)[i] < Sorted(s, size)[j]
  {
    if size > 0 {
      SortedIsTheSet(s, size - 1);
      var front := Sorted(s, size - 1);
      forall i | 0 <= i < |front| ensures front[i] < size - 1 { assert front[i] in front; }
    }
  }

  // ---------------------------------------------------------------- operations

  function StoreLocal(b: Bucket, pos: nat, sig: Sig): Bucket {
    if pos in b.held then b
    else b.(held := b.held[pos := sig], validated := b.validated + {pos}, local := b.local + {pos})
  }

  // Stores the positions not held yet as validating; redeliveries are dropped, never overwritten.
  function AddReceived(b: Bucket, positions: seq<nat>, sigs: seq<Sig>): (Bucket, seq<nat>)
    requires |positions| == |sigs|
  {
    if positions == [] then (b, [])
    else
      var last := |positions| - 1;
      var (front, added) := AddReceived(b, positions[..last], sigs[..last]);
      var pos := positions[last];
      if pos in front.held then (front, added)
      else (front.(held := front.held[pos := sigs[last]], validating := front.validating + {pos}), added + [pos])
  }

  // The sender holds what it sent.
  function MarkSent(b: Bucket, from: Peer, positions: seq<nat>): Bucket {
    var s := PeerOf(b, from);
    b.(peers := b.peers[from := s.(available := s.available + Positions(positions))],
       heard := b.heard + Marks(from, Positions(positions)))
  }

  function HearMetadata(b: Bucket, from: Peer, available: set<nat>, requests: set<nat>, size: nat): Bucket {
    var s := PeerOf(b, from);
    b.(peers := b.peers[from := PeerState(s.available + Fit(available, size), s.pendingWant + Fit(requests, size))],
       heard := b.heard + Marks(from, Fit(available, size)))
  }

  // What claimToSend picks: validated, under the forward cap, not believed held by the peer, and
  // asked for when the peer is a gossip peer.
  function Claimable(caps: Caps, b: Bucket, p: Peer, gossip: bool): set<nat> {
    set pos | pos in b.validated
              && Count(b.sendCount, pos) < caps.maxPeers
              && pos !in PeerOf(b, p).available
              && (gossip ==> pos in PeerOf(b, p).pendingWant)
  }

  function Claim(b: Bucket, p: Peer, s: set<nat>): Bucket {
    b.(peers := b.peers[p := PeerOf(b, p).(available := PeerOf(b, p).available + s)],
       sendCount := Bump(b.sendCount, s), claims := b.claims + Marks(p, s))
  }

  // One peer's turn of a tick: claim for it when it takes partial messages, then forget its wants.
  function Serve(caps: Caps, b: Bucket, p: Peer, gossip: bool, accepts: bool): Bucket {
    var after := if accepts then Claim(b, p, Claimable(caps, b, p, gossip)) else b;
    after.(peers := after.peers[p := PeerOf(after, p).(pendingWant := {})])
  }

  function ServedPositions(caps: Caps, b: Bucket, p: Peer, gossip: bool, accepts: bool): set<nat> {
    if accepts then Claimable(caps, b, p, gossip) else {}
  }

  // What selectIWantTargets asks one gossip peer for.
  function Wanted(caps: Caps, b: Bucket, p: Peer, size: nat): set<nat> {
    set pos | pos in PeerOf(b, p).available && pos < size && pos !in b.held
              && Count(b.requestCount, pos) < caps.maxIWant
  }

  function Ask(caps: Caps, b: Bucket, p: Peer, size: nat): Bucket {
    b.(peers := b.peers[p := PeerOf(b, p)], requestCount := Bump(b.requestCount, Wanted(caps, b, p, size)))
  }

  // selectIWantTargets on one bucket, the gossip peers visited in the given order.
  function AskAll(caps: Caps, b: Bucket, order: seq<Peer>, size: nat): Bucket {
    if order == [] then b
    else Ask(caps, AskAll(caps, b, order[..|order| - 1], size), order[|order| - 1], size)
  }

  // The want list it makes for one peer.
  function WantsOf(caps: Caps, b: Bucket, order: seq<Peer>, p: Peer, size: nat): set<nat> {
    if order == [] then {}
    else
      var front := order[..|order| - 1];
      if order[|order| - 1] == p then Wanted(caps, AskAll(caps, b, front, size), p, size)
      else WantsOf(caps, b, front, p, size)
  }

  // The serving half of a tick on one bucket, the peers served in the given order.
  function ServeAll(caps: Caps, b: Bucket, gossips: set<Peer>, accepts: set<Peer>, order: seq<Peer>): Bucket {
    if order == [] then b
    else
      var p := order[|order| - 1];
      Serve(caps, ServeAll(caps, b, gossips, accepts, order[..|order| - 1]), p, p in gossips, p in accepts)
  }

  // The verifier's verdict: positions still validating are promoted, the others skipped.
  function Promote(b: Bucket, positions: seq<nat>): (Bucket, seq<nat>) {
    if positions == [] then (b, [])
    else
      var (front, promoted) := Promote(b, positions[..|positions| - 1]);
      var pos := positions[|positions| - 1];
      if pos !in front.validating then (front, promoted)
      else (front.(validating := front.validating - {pos}, validated := front.validated + {pos}), promoted + [pos])
  }

  // ---------------------------------------------------------------- what every operation keeps

  function ClaimsOf(b: Bucket, pos: nat): set<(Peer, nat)> { set c | c in b.claims && c.1 == pos }

  // Held is the disjoint union of validating and validated, within the committee.
  predicate Lifecycle(size: nat, b: Bucket) {
    && b.held.Keys == b.validating + b.validated
    && b.validating !! b.validated
    && b.local <= b.validated
    && forall pos <- b.held :: pos < size
  }

  // The belief about a peer is exactly what was claimed for it and what it sent or advertised.
  ghost predicate Beliefs(b: Bucket) {
    forall p: Peer, pos: nat {:trigger (p, pos) in b.claims} {:trigger pos in PeerOf(b, p).available} ::
      pos in PeerOf(b, p).available <==> ((p, pos) in b.claims || (p, pos) in b.heard)
  }

  // The forward count of a position is the number of peers it was claimed for, and never over the
  // cap; only validated positions are ever claimed; requests stay under their cap.
  ghost predicate Budgets(caps: Caps, b: Bucket) {
    && (forall pos: nat :: Count(b.sendCount, pos) == |ClaimsOf(b, pos)| && Count(b.sendCount, pos) <= caps.maxPeers)
    && (forall c <- b.claims :: c.1 in b.validated)
    && (forall pos: nat :: Count(b.requestCount, pos) <= caps.maxIWant)
  }

  // Nothing a peer sends widens the bitmaps kept about it.
  ghost predicate Narrow(size: nat, b: Bucket) {
    forall p: Peer, pos: nat :: pos in PeerOf(b, p).available || pos in PeerOf(b, p).pendingWant ==> pos < Width(size)
  }

  ghost predicate Inv(caps: Caps, size: nat, b: Bucket) {
    Lifecycle(size, b) && Beliefs(b) && Budgets(caps, b) && Narrow(size, b)
  }

  // The smallest whole number of bytes that holds the committee.
  lemma WidthCovers(size: nat)
    ensures size <= Width(size) < size + 8 && Width(size) % 8 == 0
  {
  }

  lemma FreshInv(caps: Caps, size: nat)
    ensures Inv(caps, size, Fresh())
  {
    forall pos: nat ensures |ClaimsOf(Fresh(), pos)| == 0 { assert ClaimsOf(Fresh(), pos) == {}; }
  }

  lemma StoreLocalKeeps(caps: Caps, size: nat, b: Bucket, pos: nat, sig: Sig)
    requires Inv(caps, size, b) && pos < size
    ensures Inv(caps, size, StoreLocal(b, pos, sig))
  {
    SameClaims(caps, b, StoreLocal(b, pos, sig));
  }

  // Budgets and beliefs only look at the counts, claims, peers and validated positions.
  lemma SameClaims(caps: Caps, b: Bucket, n: Bucket)
    requires Budgets(caps, b) && n.claims == b.claims && n.sendCount == b.sendCount
    requires n.requestCount == b.requestCount && b.validated <= n.validated
    ensures Budgets(caps, n)
  {
    forall pos: nat ensures Count(n.sendCount, pos) == |ClaimsOf(n, pos)| {
      assert ClaimsOf(n, pos) == ClaimsOf(b, pos);
    }
  }

  lemma {:induction false} AddReceivedFacts(b: Bucket, positions: seq<nat>, sigs: seq<Sig>)
    requires |positions| == |sigs|
    ensures var (n, added) := AddReceived(b, positions, sigs);
            && n == b.(held := n.held, validating := n.validating)
            && n.held.Keys == b.held.Keys + Positions(positions)
            && n.validating == b.validating + Positions(added)
            && Positions(added) == Positions(positions) - b.held.Keys
            && (forall i, j :: 0 <= i < j < |added| ==> added[i] != added[j])
            && (forall pos <- b.held :: n.held[pos] == b.held[pos])
  {
    if positions != [] {
      var last := |positions| - 1;
      AddReceivedFacts(b, positions[..last], sigs[..last]);
      var (front, added) := AddReceived(b, positions[..last], sigs[..last]);
      var pos := positions[last];
      assert Positions(positions) == Positions(positions[..last]) + {pos};
      if pos !in front.held {
        assert Positions(added + [pos]) == Positions(added) + {pos};
        assert pos !in Positions(added);
      }
    }
  }

  lemma AddReceivedKeeps(caps: Caps, size: nat, b: Bucket, positions: seq<nat>, sigs: seq<Sig>)
    requires |positions| == |sigs| && Inv(caps, size, b) && forall pos <- positions :: pos < size
    ensures Inv(caps, size, AddReceived(b, positions, sigs).0)
  {
    AddReceivedFacts(b, positions, sigs);
    SameClaims(caps, b, AddReceived(b, positions, sigs).0);
  }

  lemma MarkSentKeeps(caps: Caps, size: nat, b: Bucket, from: Peer, positions: seq<nat>)
    requires Inv(caps, size, b) && forall pos <- positions :: pos < size
    ensures Inv(caps, size, MarkSent(b, from, positions))
  {
    WidthCovers(size);
    SameClaims(caps, b, MarkSent(b, from, positions));
  }

  lemma HearMetadataKeeps(caps: Caps, size: nat, b: Bucket, from: Peer, available: set<nat>, requests: set<nat>)
    requires Inv(caps, size, b)
    ensures Inv(caps, size, HearMetadata(b, from, available, requests, size))
  {
    SameClaims(caps, b, HearMetadata(b, from, available, requests, size));
  }

  lemma ClaimCounts(b: Bucket, p: Peer, s: set<nat>, pos: nat)
    requires forall q <- s :: (p, q) !in b.claims
    ensures |ClaimsOf(Claim(b, p, s), pos)| == |ClaimsOf(b, pos)| + if pos in s then 1 else 0
    ensures Count(Claim(b, p, s).sendCount, pos) == Count(b.sendCount, pos) + if pos in s then 1 else 0
  {
    var n := Claim(b, p, s);
    if pos in s {
      assert ClaimsOf(n, pos) == ClaimsOf(b, pos) + {(p, pos)};
    } else {
      assert ClaimsOf(n, pos) == ClaimsOf(b, pos);
    }
  }

  lemma ClaimBudgets(caps: Caps, b: Bucket, p: Peer, gossip: bool)
    requires Budgets(caps, b) && Beliefs(b)
    ensures Budgets(caps, Claim(b, p, Claimable(caps, b, p, gossip)))
  {
    var s := Claimable(caps, b, p, gossip);
    var n := Claim(b, p, s);
    forall pos: nat
      ensures Count(n.sendCount, pos) == |ClaimsOf(n, pos)| && Count(n.sendCount, pos) <= caps.maxPeers
    {
      ClaimCounts(b, p, s, pos);
    }
  }

  lemma ClaimKeeps(caps: Caps, size: nat, b: Bucket, p: Peer, gossip: bool)
    requires Inv(caps, size, b)
    ensures Inv(caps, size, Claim(b, p, Claimable(caps, b, p, gossip)))
  {
    ClaimBudgets(caps, b, p, gossip);
    ClaimBeliefs(b, p, Claimable(caps, b, p, gossip));
    WidthCovers(size);
    forall pos <- Claimable(caps, b, p, gossip) ensures pos < size { assert pos in b.validated && pos in b.held; }
  }

  lemma ClaimBeliefs(b: Bucket, p: Peer, s: set<nat>)
    requires Beliefs(b)
    ensures Beliefs(Claim(b, p, s))
  {
    var n := Claim(b, p, s);
    forall q: Peer, pos: nat
      ensures pos in PeerOf(n, q).available <==> ((q, pos) in n.claims || (q, pos) in n.heard)
    {
      assert (q, pos) in Marks(p, s) <==> q == p && pos in s;
    }
  }

  lemma ForgetKeeps(caps: Caps, size: nat, b: Bucket, p: Peer)
    requires Inv(caps, size, b)
    ensures Inv(caps, size, b.(peers := b.peers[p := PeerOf(b, p).(pendingWant := {})]))
  {
    var n := b.(peers := b.peers[p := PeerOf(b, p).(pendingWant := {})]);
    SameClaims(caps, b, n);
    forall q: Peer, pos: nat
      ensures pos in PeerOf(n, q).available <==> pos in PeerOf(b, q).available
      ensures pos in PeerOf(n, q).pendingWant ==> pos in PeerOf(b, q).pendingWant
    {
    }
  }

  lemma ServeKeeps(caps: Caps, size: nat, b: Bucket, p: Peer, gossip: bool, accepts: bool)
    requires Inv(caps, size, b)
    ensures Inv(caps, size, Serve(caps, b, p, gossip, accepts))
  {
    if accepts {
      ClaimKeeps(caps, size, b, p, gossip);
      ForgetKeeps(caps, size, Claim(b, p, Claimable(caps, b, p, gossip)), p);
    } else {
      ForgetKeeps(caps, size, b, p);
    }
  }

  lemma AskKeeps(caps: Caps, size: nat, b: Bucket, p: Peer)
    requires Inv(caps, size, b)
    ensures Inv(caps, size, Ask(caps, b, p, size))
  {
    var n := Ask(caps, b, p, size);
    forall pos: nat ensures Count(n.sendCount, pos) == |ClaimsOf(n, pos)| {
      assert ClaimsOf(n, pos) == ClaimsOf(b, pos);
    }
  }

  lemma {:induction false} PromoteFacts(b: Bucket, positions: seq<nat>)
    ensures var (n, promoted) := Promote(b, positions);
            && n == b.(validating := n.validating, validated := n.validated)
            && n.validating == b.validating - Positions(positions)
            && n.validated == b.validated + (b.validating * Positions(positions))
            && Positions(promoted) == b.validating * Positions(positions)
            && (forall i, j :: 0 <= i < j < |promoted| ==> promoted[i] != promoted[j])
  {
    if positions != [] {
      var front := positions[..|positions| - 1];
      PromoteFacts(b, front);
      var (n, promoted) := Promote(b, front);
      var pos := positions[|positions| - 1];
      assert Positions(positions) == Positions(front) + {pos};
      if pos in n.validating {
        assert Positions(promoted + [pos]) == Positions(promoted) + {pos};
        assert pos !in Positions(promoted);
      }
    }
  }

  lemma PromoteKeeps(caps: Caps, size: nat, b: Bucket, positions: seq<nat>)
    requires Inv(caps, size, b)
    ensures Inv(caps, size, Promote(b, positions).0)
  {
    PromoteFacts(b, positions);
    SameClaims(caps, b, Promote(b, positions).0);
  }

  lemma {:induction false} AskAllFacts(caps: Caps, size: nat, b: Bucket, order: seq<Peer>)
    ensures var n := AskAll(caps, b, order, size);
            && n == b.(requestCount := n.requestCount, peers := n.peers)
            && (forall p: Peer :: PeerOf(n, p) == PeerOf(b, p))
            && (Inv(caps, size, b) ==> Inv(caps, size, n))
    ensures forall p :: WantsOf(caps, b, order, p, size) <= PeerOf(b, p).available - b.held.Keys
  {
    if order != [] {
      AskAllFacts(caps, size, b, order[..|order| - 1]);
      if Inv(caps, size, b) {
        AskKeeps(caps, size, AskAll(caps, b, order[..|order| - 1], size), order[|order| - 1]);
      }
    }
  }

  // How many of the peers advertise a position.
  function Advertisers(b: Bucket, order: seq<Peer>, pos: nat): nat {
    if order == [] then 0
    else Advertisers(b, order[..|order| - 1], pos) + if pos in PeerOf(b, order[|order| - 1]).available then 1 else 0
  }

  /** The want selection asks for a missing position as often as peers advertise it and the request
      budget allows, and for no other position. */
  lemma {:induction false} AskAllExact(caps: Caps, size: nat, b: Bucket, order: seq<Peer>, pos: nat)
    requires Count(b.requestCount, pos) <= caps.maxIWant
    ensures var asked := Count(b.requestCount, pos) + Advertisers(b, order, pos);
            Count(AskAll(caps, b, order, size).requestCount, pos) ==
              if pos >= size || pos in b.held then Count(b.requestCount, pos)
              else if asked <= caps.maxIWant then asked else caps.maxIWant
  {
    if order != [] {
      AskAllExact(caps, size, b, order[..|order| - 1], pos);
      AskAllFacts(caps, size, b, order[..|order| - 1]);
    }
  }

  lemma ServeFacts(caps: Caps, b: Bucket, p: Peer, gossip: bool, accepts: bool)
    ensures var n := Serve(caps, b, p, gossip, accepts);
            && n == b.(sendCount := n.sendCount, peers := n.peers, claims := n.claims)
            && PeerOf(n, p).pendingWant == {}
            && PeerOf(n, p).available == PeerOf(b, p).available + ServedPositions(caps, b, p, gossip, accepts)
            && (forall q: Peer :: q != p ==> PeerOf(n, q) == PeerOf(b, q))
  {
  }

  lemma {:induction false} ServeAllFacts(caps: Caps, b: Bucket, gossips: set<Peer>, accepts: set<Peer>, order: seq<Peer>)
    ensures var n := ServeAll(caps, b, gossips, accepts, order);
            && n == b.(sendCount := n.sendCount, peers := n.peers, claims := n.claims)
            && (forall p <- order :: PeerOf(n, p).pendingWant == {})
            && (forall p: Peer :: p !in order ==> PeerOf(n, p) == PeerOf(b, p))
  {
    if order != [] {
      var front, p := order[..|order| - 1], order[|order| - 1];
      ServeAllFacts(caps, b, gossips, accepts, front);
      ServeFacts(caps, ServeAll(caps, b, gossips, accepts, front), p, p in gossips, p in accepts);
      assert forall q <- order :: q in front || q == p;
    }
  }

  lemma {:induction false} ServeAllKeeps(
      caps: Caps, size: nat, b: Bucket, gossips: set<Peer>, accepts: set<Peer>, order: seq<Peer>)
    requires Inv(caps, size, b)
    ensures Inv(caps, size, ServeAll(caps, b, gossips, accepts, order))
  {
    if order != [] {
      var front, p := order[..|order| - 1], order[|order| - 1];
      ServeAllKeeps(caps, size, b, gossips, accepts, front);
      ServeKeeps(caps, size, ServeAll(caps, b, gossips, accepts, front), p, p in gossips, p in accepts);
    }
  }

  // Serving others neither forgets what a peer got nor lowers a forward count.
  lemma ServeGrows(caps: Caps, b: Bucket, p: Peer, gossip: bool, accepts: bool, q: Peer, pos: nat)
    ensures var n := Serve(caps, b, p, gossip, accepts);
            && PeerOf(b, q).available <= PeerOf(n, q).available
            && Count(b.sendCount, pos) <= Count(n.sendCount, pos) && n.validated == b.validated
  {
  }

  /** A mesh peer that takes partial messages gets, in its turn, every validated position it lacks;
      only positions whose forward budget is used up are held back. */
  lemma {:induction false} MeshPeerServed(
      caps: Caps, b: Bucket, gossips: set<Peer>, accepts: set<Peer>, order: seq<Peer>, p: Peer, pos: nat)
    requires p in order && p in accepts && p !in gossips && pos in b.validated
    ensures var n := ServeAll(caps, b, gossips, accepts, order);
            pos in PeerOf(n, p).available || Count(n.sendCount, pos) >= caps.maxPeers
  {
    var front, last := order[..|order| - 1], order[|order| - 1];
    var m := ServeAll(caps, b, gossips, accepts, front);
    ServeAllFacts(caps, b, gossips, accepts, front);
    ServeGrows(caps, m, last, last in gossips, last in accepts, p, pos);
    if last != p {
      MeshPeerServed(caps, b, gossips, accepts, front, p, pos);
    } else if Count(m.sendCount, pos) < caps.maxPeers {
      assert pos in PeerOf(m, p).available || pos in Claimable(caps, m, p, false);
    }
  }

  /** What a whole tick does to the belief about one peer: exactly what its turn claimed is added. */
  lemma {:induction false} ServeAllBelief(
      caps: Caps, b: Bucket, gossips: set<Peer>, accepts: set<Peer>, order: seq<Peer>, i: nat)
    requires i < |order|
    requires forall j, k :: 0 <= j < k < |order| ==> order[j] != order[k]
    ensures PeerOf(ServeAll(caps, b, gossips, accepts, order), order[i]).available ==
            PeerOf(b, order[i]).available +
            ServedPositions(caps, ServeAll(caps, b, gossips, accepts, order[..i]), order[i], order[i] in gossips, order[i] in accepts)
  {
    var last := |order| - 1;
    var front := ServeAll(caps, b, gossips, accepts, order[..last]);
    ServeFacts(caps, front, order[last], order[last] in gossips, order[last] in accepts);
    if i < last {
      ServeAllBelief(caps, b, gossips, accepts, order[..last], i);
      assert order[..last][..i] == order[..i];
    } else {
      ServeAllFacts(caps, b, gossips, accepts, order[..last]);
      assert PeerOf(front, order[last]) == PeerOf(b, order[last]);
    }
  }

  /** A claim is never repeated and never wasted: nothing is claimed for a peer that was claimed for
      it before, that it sent us, or that it advertised; and only validated positions are claimed. */
  lemma ClaimIsNew(caps: Caps, size: nat, b: Bucket, p: Peer, gossip: bool, accepts: bool, pos: nat)
    requires Inv(caps, size, b) && pos in ServedPositions(caps, b, p, gossip, accepts)
    ensures (p, pos) !in b.claims && (p, pos) !in b.heard
    ensures pos in b.validated && pos < size
    ensures |ClaimsOf(b, pos)| < caps.maxPeers
  {
    assert pos !in PeerOf(b, p).available;
  }
}
