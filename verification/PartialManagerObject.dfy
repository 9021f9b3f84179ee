/** The manager of node/partial.go as it is updated in place: the map of group objects, the floor,
    and its methods, each proved against the operation of PartialManager it performs. */
module PartialManagerObject {
  import opened PartialBucket
  import opened PartialManager
  import opened PartialBucketObject
  import PartialSafety
  import opened PartialGroupObject

  // The options of the transport; the tick interval is in milliseconds.
  datatype Options = Options(interval: int, maxPeers: int, maxIWant: int, disableGossip: bool, sizeOf: Key -> int)

  class PartialNode {
    const cfg: Config
    const interval: nat
    var groups: map<Key, VoteGroup>
    var floor: map<Kind, nat>

    ghost function Buckets(): set<VoteBucket>
      reads this`groups, groups.Values
    {
      set k, d | k in groups && d in groups[k].buckets :: groups[k].buckets[d]
    }

    // No two keys share a group; each group has its own buckets.
    ghost predicate Valid()
      reads this`groups, groups.Values
    {
      && (forall k <- groups :: groups[k].Valid())
      && (forall k <- groups, j <- groups :: groups[k] == groups[j] ==> k == j)
    }

    ghost function GroupViews(): map<Key, Group>
      reads this`groups, groups.Values, Buckets()
    {
      map k | k in groups :: groups[k].View()
    }

    // The state, with what the verifiers and the arrival sink hold of it.
    ghost function View(pending: seq<Item>, fired: seq<Arrival>): Manager
      reads this`groups, this`floor, groups.Values, Buckets()
    {
      Manager(GroupViews(), floor, pending, fired)
    }

    // An option left at zero takes its default: a 20 ms tick, twice the mesh degree for the forward
    // cap, ten requests.
    constructor (o: Options, degree: nat)
      ensures Valid() && View([], []) == NewManager()
      ensures cfg.disableGossip == o.disableGossip && cfg.sizeOf == o.sizeOf
      ensures interval == if o.interval > 0 then o.interval else 20
      ensures cfg.caps.maxPeers == if o.maxPeers > 0 then o.maxPeers else 2 * degree
      ensures cfg.caps.maxIWant == if o.maxIWant > 0 then o.maxIWant else 10
    {
      cfg := Config(Caps(if o.maxPeers > 0 then o.maxPeers else 2 * degree, if o.maxIWant > 0 then o.maxIWant else 10),
                    o.disableGossip, o.sizeOf);
      interval := if o.interval > 0 then o.interval else 20;
      groups, floor := map[], map[];
    }

    function Live(key: Key): VoteGroup
      requires key in groups
      reads this`groups
    {
      groups[key]
    }

    // Only one group changed.
    twostate lemma GroupMoved(key: Key)
      requires old(Valid()) && key in groups && groups == old(groups)
      requires forall k <- groups :: k != key ==> groups[k].View() == old(groups[k].View())
      ensures GroupViews() == old(GroupViews())[key := groups[key].View()]
    {
    }

    lemma BucketsOf(key: Key)
      requires key in groups
      ensures groups[key].buckets.Values <= Buckets()
    {
      forall b <- groups[key].buckets.Values ensures b in Buckets() {
        var d :| d in groups[key].buckets && groups[key].buckets[d] == b;
      }
    }

    // getOrCreateGroup
    method Resolve(key: Key) returns (ok: bool)
      requires Valid()
      modifies this`groups
      ensures Valid() && ok == Sizable(cfg, old(View([], [])), key) && ok == (key in groups)
      ensures key in old(groups) || !ok ==> groups == old(groups)
      ensures ok && key !in old(groups) ==> fresh(groups[key]) && groups[key].buckets == map[]
      ensures ok ==> GroupViews() == old(GroupViews())[key := GroupOf(cfg, old(View([], [])), key)]
    {
      if key in groups { return true; }
      var size := cfg.sizeOf(key);
      if size <= 0 { return false; }
      var g := new VoteGroup(size);
      groups := groups[key := g];
      GroupAdded(key);
      return true;
    }

    twostate lemma GroupAdded(key: Key)
      requires old(Valid()) && key in groups && key !in old(groups) && groups == old(groups)[key := groups[key]]
      requires forall k <- old(groups) :: groups[k].View() == old(groups[k].View())
      ensures GroupViews() == old(GroupViews())[key := groups[key].View()]
    {
    }

    // One group's share of each operation.
    method PublishIn(key: Key, pos: nat, sig: Sig, d: Data)
      requires Valid() && key in groups
      modifies Live(key)`buckets, Live(key).buckets.Values
      ensures Valid() && GroupViews() == old(GroupViews())[key := PublishInto(old(GroupViews())[key], pos, sig, d)]
    {
      groups[key].PublishLocal(pos, sig, d);
      GroupMoved(key);
    }

    method HearIn(key: Key, from: Peer, mds: seq<Metadata>)
      requires Valid() && key in groups
      modifies Live(key)`buckets, Live(key).buckets.Values
      ensures Valid() && GroupViews() == old(GroupViews())[key := HearAll(old(GroupViews())[key], from, mds)]
      ensures fresh(groups[key].buckets.Values - old(groups[key].buckets.Values))
    {
      groups[key].HearMetadatas(from, mds);
      GroupMoved(key);
    }

    method TakeIn(key: Key, from: Peer, batches: seq<Batch>) returns (work: seq<Work>, outcome: Outcome)
      requires Valid() && key in groups
      modifies Live(key)`buckets, Live(key).buckets.Values
      ensures Valid() && GroupViews() == old(GroupViews())[key := TakeAll(old(GroupViews())[key], from, batches).group]
      ensures work == TakeAll(old(GroupViews())[key], from, batches).work
      ensures outcome == TakeAll(old(GroupViews())[key], from, batches).outcome
    {
      work, outcome := groups[key].TakeBatches(from, batches);
      GroupMoved(key);
    }

    method ConfirmIn(key: Key, d: Data, positions: seq<nat>) returns (promoted: seq<nat>)
      requires Valid() && key in groups && d in groups[key].buckets
      modifies groups[key].buckets.Values
      ensures Valid()
      ensures d in old(GroupViews())[key].buckets
      ensures GroupViews() == old(GroupViews())[key := Confirmed(old(GroupViews())[key], d, positions)]
      ensures promoted == Promote(old(GroupViews())[key].buckets[d], positions).1
    {
      promoted := groups[key].Confirm(d, positions);
      GroupMoved(key);
    }

    method TickIn(key: Key, flags: PeerStates, accepts: set<Peer>, stopAfter: nat)
        returns (outs: seq<Out>, rest: PeerStates, ghost c: Choice)
      requires Valid() && key in groups && LivesWell(groups[key].size, groups[key].View().buckets)
      modifies groups[key].buckets.Values
      ensures Valid() && TickedOk(cfg.caps, old(GroupViews())[key], flags, accepts, c, GroupViews()[key], outs, rest)
      ensures GroupViews() == old(GroupViews())[key := GroupViews()[key]]
      ensures stopAfter == 0 || |outs| < stopAfter ==> Lists(c.turns, flags.Keys)
    {
      outs, rest, c := groups[key].Tick(cfg.caps, flags, accepts, stopAfter);
      GroupMoved(key);
    }

    // getOrCreateGroup and publish, or hear and take, for one group.
    method PublishShare(key: Key, pos: nat, sig: Sig, d: Data)
      requires Valid() && (key in groups || cfg.sizeOf(key) > 0)
      modifies this`groups, groups.Values, Buckets()
      ensures Valid()
      ensures GroupViews() == old(GroupViews())[key := PublishInto(old(GroupOf(cfg, View([], []), key)), pos, sig, d)]
    {
      ghost var m := View([], []);
      ghost var g := GroupOf(cfg, m, key);
      if key in groups { BucketsOf(key); }
      var ok := Resolve(key);
      Overwrite(m.groups, key, g, PublishInto(g, pos, sig, d));
      PublishIn(key, pos, sig, d);
    }

    method ReceiveShare(key: Key, from: Peer, mds: seq<Metadata>, batches: seq<Batch>)
        returns (ok: bool, work: seq<Work>, outcome: Outcome)
      requires Valid()
      modifies this`groups, groups.Values, Buckets()
      ensures Valid() && ok == Sizable(cfg, old(View([], [])), key)
      ensures !ok ==> GroupViews() == old(GroupViews())
      ensures var t := TakeAll(HearAll(old(GroupOf(cfg, View([], []), key)), from, mds), from, batches);
              ok ==> work == t.work && outcome == t.outcome && GroupViews() == old(GroupViews())[key := t.group]
    {
      ghost var g := GroupOf(cfg, View([], []), key);
      ghost var was := GroupViews();
      work, outcome := [], Fine;
      if key in groups { BucketsOf(key); }
      ok := Resolve(key);
      if ok {
        work, outcome := HearAndTake(key, from, mds, batches, was, g);
      }
    }

    method HearAndTake(key: Key, from: Peer, mds: seq<Metadata>, batches: seq<Batch>, ghost was: map<Key, Group>, ghost g: Group)
        returns (work: seq<Work>, outcome: Outcome)
      requires Valid() && key in groups && GroupViews() == was[key := g]
      modifies Live(key)`buckets, Live(key).buckets.Values
      ensures Valid()
      ensures var t := TakeAll(HearAll(g, from, mds), from, batches);
              work == t.work && outcome == t.outcome && GroupViews() == was[key := t.group]
    {
      ghost var heard := HearAll(g, from, mds);
      Overwrite(was, key, g, heard);
      Overwrite(was, key, heard, TakeAll(heard, from, batches).group);
      HearIn(key, from, mds);
      work, outcome := TakeIn(key, from, batches);
    }

    // ---------------------------------------------------------------- the manager's methods

    method PublishLocal(key: Key, pos: nat, sig: Sig, d: Data, ghost pending: seq<Item>, ghost fired: seq<Arrival>)
      requires Valid() && (key in groups || cfg.sizeOf(key) > 0)
      modifies this`groups, groups.Values, Buckets()
      ensures Valid() && View(pending, fired) == Publish(cfg, old(View(pending, fired)), key, pos, sig, d)
    {
      ghost var m := View(pending, fired);
      PublishShare(key, pos, sig, d);
      assert GroupViews() == Publish(cfg, m, key, pos, sig, d).groups;
    }

    // onIncomingRPC: submitted goes to the verifier, and a sender of metadata is marked a gossip peer.
    method OnIncomingRPC(from: Peer, rpc: Rpc, flags: PeerStates, ghost pending: seq<Item>, ghost fired: seq<Arrival>)
        returns (submitted: seq<Item>, outcome: Outcome, marked: PeerStates)
      requires Valid()
      modifies this`groups, groups.Values, Buckets()
      ensures Valid() && (View(pending + submitted, fired), outcome) == Receive(cfg, old(View(pending, fired)), from, rpc)
      ensures marked == FlagsAfter(cfg, old(View(pending, fired)), flags, from, rpc)
    {
      var noted := MarkSender(flags, from, if rpc.metadatas.Parsed? then rpc.metadatas.items else []);
      var letIn: bool;
      letIn, submitted, outcome := ReceiveRpc(from, rpc, pending, fired);
      marked := if letIn then noted else flags;
    }

    method ReceiveRpc(from: Peer, rpc: Rpc, ghost pending: seq<Item>, ghost fired: seq<Arrival>)
        returns (letIn: bool, submitted: seq<Item>, outcome: Outcome)
      requires Valid()
      modifies this`groups, groups.Values, Buckets()
      ensures letIn == !Early(cfg, old(View(pending, fired)), rpc).0
      ensures Valid() && (View(pending + submitted, fired), outcome) == Receive(cfg, old(View(pending, fired)), from, rpc)
    {
      assert pending + [] == pending;
      if !rpc.topic.PartialTopic? { return false, [], Failed(NotPartial); }
      if rpc.metadatas.Garbled? { return false, [], Failed(BadControl); }
      if rpc.batches.Garbled? { return false, [], Failed(BadData); }
      var key := KeyOf(rpc);
      if key.kind in floor && key.group <= floor[key.kind] { return false, [], Fine; }
      if rpc.metadatas.items == [] && rpc.batches.items == [] { return false, [], Fine; }
      var work: seq<Work>;
      letIn, work, outcome := ReceiveShare(key, from, rpc.metadatas.items, rpc.batches.items);
      if !letIn { return false, [], Failed(NoCommittee); }
      submitted := Items(key, work);
    }

    method MarkSender(flags: PeerStates, from: Peer, mds: seq<Metadata>) returns (marked: PeerStates)
      ensures marked == if exists md <- mds :: md.available != {} || md.requests != {}
                        then flags[from := Flags(true, from in flags && flags[from].armed)] else flags
    {
      marked := flags;
      for i := 0 to |mds|
        invariant marked == if exists md <- mds[..i] :: md.available != {} || md.requests != {}
                            then flags[from := Flags(true, from in flags && flags[from].armed)] else flags
      {
        assert mds[..i + 1] == mds[..i] + [mds[i]];
        if mds[i].available != {} || mds[i].requests != {} {
          marked := marked[from := Flags(true, from in marked && marked[from].armed)];
        }
      }
      assert mds[..|mds|] == mds;
    }

    // markValidated, called back by the verifier for one item: the arrivals go to the sink.
    method MarkValidated(item: Item, ghost pending: seq<Item>, ghost fired: seq<Arrival>) returns (arrivals: seq<Arrival>)
      requires Valid()
      modifies Buckets()
      ensures Valid() && View(pending, fired + arrivals) == PartialManager.MarkValidated(old(View(pending, fired)), item)
    {
      var key, d := item.key, item.work.data;
      arrivals := [];
      assert fired + [] == fired;
      if key in groups && d in groups[key].buckets {
        BucketsOf(key);
        var promoted := ConfirmIn(key, d, item.work.positions);
        arrivals := Arrivals(key, d, promoted);
      }
    }

    // publishActions for one group, with one tick's peer states.
    method PublishActions(key: Key, flags: PeerStates, accepts: set<Peer>, stopAfter: nat,
                          ghost pending: seq<Item>, ghost fired: seq<Arrival>)
        returns (outs: seq<Out>, rest: PeerStates, ghost c: Choice)
      requires Valid() && (key in groups ==> LivesWell(groups[key].size, groups[key].View().buckets))
      modifies Buckets()
      ensures Valid() && TickOk(old(View(pending, fired)), key, flags, c)
      ensures View(pending, fired) == PartialManager.Tick(cfg, old(View(pending, fired)), key, flags, accepts, c)
      ensures outs == Emitted(cfg, old(View(pending, fired)), key, flags, accepts, c)
      ensures rest == FlagsAfterTick(old(View(pending, fired)), key, flags, c)
    {
      c := Choice(map[], [], []);
      if key !in groups || groups[key].sealed || groups[key].buckets == map[] { return [], flags, c; }
      BucketsOf(key);
      ghost var m := View(pending, fired);
      outs, rest, c := TickIn(key, flags, accepts, stopAfter);
      TickedIsTick(cfg, m, key, flags, accepts, c, GroupViews()[key], outs, rest);
    }

    method SealUpTo(kind: Kind, group: nat, ghost pending: seq<Item>, ghost fired: seq<Arrival>)
      requires Valid()
      modifies groups.Values
      ensures Valid() && View(pending, fired) == PartialManager.Seal(old(View(pending, fired)), kind, group)
    {
      ghost var was := GroupViews();
      var left := groups.Keys;
      while left != {}
        invariant left <= groups.Keys && groups == old(groups) && Valid()
        invariant GroupViews() == SealedBut(was, left, kind, group)
      {
        var k :| k in left;
        if UpTo(k, kind, group) {
          SealOne(k);
        }
        SealedOneMore(was, left, k, kind, group);
        left := left - {k};
      }
    }

    method SealOne(key: Key)
      requires Valid() && key in groups
      modifies Live(key)
      ensures Valid() && GroupViews() == old(GroupViews())[key := old(GroupViews())[key].(sealed := true)]
    {
      groups[key].SealIt();
      GroupMoved(key);
    }

    method PruneUpTo(kind: Kind, group: nat, ghost pending: seq<Item>, ghost fired: seq<Arrival>)
      requires Valid()
      modifies this
      ensures Valid() && View(pending, fired) == PartialManager.Prune(old(View(pending, fired)), kind, group)
    {
      ghost var m := View(pending, fired);
      DropUpTo(kind, group);
      RaiseFloor(kind, group);
      assert GroupViews() == PartialManager.Prune(m, kind, group).groups;
    }

    method RaiseFloor(kind: Kind, group: nat)
      requires Valid()
      modifies this`floor
      ensures Valid() && GroupViews() == old(GroupViews())
      ensures floor == if kind !in old(floor) || group > old(floor)[kind] then old(floor)[kind := group] else old(floor)
    {
      if kind !in floor || group > floor[kind] { floor := floor[kind := group]; }
    }

    method DropUpTo(kind: Kind, group: nat)
      requires Valid()
      modifies this`groups
      ensures Valid() && GroupViews() == PrunedBut(old(GroupViews()), {}, kind, group)
    {
      ghost var was := GroupViews();
      var left := groups.Keys;
      while left != {}
        invariant Valid() && left <= groups.Keys && GroupViews() == PrunedBut(was, left, kind, group)
      {
        var k :| k in left;
        PrunedOneMore(was, left, k, kind, group);
        if UpTo(k, kind, group) { DropOne(k); }
        left := left - {k};
      }
    }

    method DropOne(key: Key)
      requires Valid()
      modifies this`groups
      ensures Valid() && groups.Keys == old(groups.Keys) - {key} && GroupViews() == old(GroupViews()) - {key}
    {
      groups := groups - {key};
    }
  }

  // The groups without those outside left at or below the key.
  ghost function PrunedBut(was: map<Key, Group>, left: set<Key>, kind: Kind, group: nat): map<Key, Group> {
    map k | k in was && (k in left || !UpTo(k, kind, group)) :: was[k]
  }

  lemma PrunedOneMore(was: map<Key, Group>, left: set<Key>, key: Key, kind: Kind, group: nat)
    requires key in left
    ensures PrunedBut(was, left - {key}, kind, group) ==
            if UpTo(key, kind, group) then PrunedBut(was, left, kind, group) - {key} else PrunedBut(was, left, kind, group)
  {
  }

  // The groups with those outside left sealed as asked.
  ghost function SealedBut(was: map<Key, Group>, left: set<Key>, kind: Kind, group: nat): map<Key, Group> {
    map k | k in was :: if k !in left && UpTo(k, kind, group) then was[k].(sealed := true) else was[k]
  }

  lemma SealedOneMore(was: map<Key, Group>, left: set<Key>, key: Key, kind: Kind, group: nat)
    requires key in left && key in was
    ensures SealedBut(was, left - {key}, kind, group) ==
            if UpTo(key, kind, group)
            then SealedBut(was, left, kind, group)[key := SealedBut(was, left, kind, group)[key].(sealed := true)]
            else SealedBut(was, left, kind, group)
  {
  }

  // onEmitGossip: mark the chosen peers and arm their advertisement.
  method OnEmitGossip(cfg: Config, flags: PeerStates, chosen: seq<Peer>) returns (marked: PeerStates)
    ensures marked == EmitGossip(cfg, flags, Positions(chosen))
  {
    marked := flags;
    if cfg.disableGossip { return; }
    for i := 0 to |chosen|
      invariant marked == map p | p in flags.Keys + Positions(chosen[..i]) ::
                            if p in Positions(chosen[..i]) then Flags(true, true) else flags[p]
    {
      assert Positions(chosen[..i + 1]) == Positions(chosen[..i]) + {chosen[i]};
      marked := marked[chosen[i] := Flags(true, true)];
    }
    assert chosen[..|chosen|] == chosen;
  }

  // What PublishActions asks of a group holds in every reachable state.
  lemma InvLivesWell(cfg: Config, m: Manager, key: Key)
    requires PartialSafety.Inv(cfg, m) && key in m.groups
    ensures LivesWell(m.groups[key].size, m.groups[key].buckets)
  {
  }

  // What of a tick's result the manager's methods need.
  lemma TickedIsTick(cfg: Config, m: Manager, key: Key, flags: PeerStates, accepts: set<Peer>, c: Choice, now: Group,
                     outs: seq<Out>, rest: PeerStates)
    requires !Silent(m, key) && TickedOk(cfg.caps, m.groups[key], flags, accepts, c, now, outs, rest)
    ensures TickOk(m, key, flags, c)
    ensures PartialManager.Tick(cfg, m, key, flags, accepts, c) == m.(groups := m.groups[key := now])
    ensures outs == Emitted(cfg, m, key, flags, accepts, c) && rest == FlagsAfterTick(m, key, flags, c)
  {
  }

  lemma Overwrite<K, V>(m: map<K, V>, k: K, a: V, b: V)
    ensures m[k := a][k := b] == m[k := b] && m[k := a][k] == a
  {
  }

  function Confirmed(g: Group, d: Data, positions: seq<nat>): Group
    requires d in g.buckets
  {
    Put(g, d, Promote(g.buckets[d], positions).0)
  }
}
