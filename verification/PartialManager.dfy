/** The partial-message manager of node/partial.go: topic, group and bucket state of one node, the
    items it has handed to the verifier, and the arrivals it has fired.  One event is one locked
    section of the source; map iteration order is part of the event. */
module PartialManager {
  import opened PartialBucket

  datatype Kind = Attestation | FinalityVote
  datatype Topic = PartialTopic(kind: Kind, subnet: nat) | ClassicTopic(name: string)
  datatype Key = Key(kind: Kind, subnet: nat, group: nat)
  datatype Group = Group(size: nat, buckets: map<Data, Bucket>, sealed: bool)
  datatype Work = Work(data: Data, positions: seq<nat>)
  datatype Item = Item(key: Key, work: Work)
  datatype Arrival = Arrival(key: Key, data: Data, pos: nat)

  // pending holds the items submitted to the verifier and not called back yet, fired every arrival
  // handed to OnReceive.
  datatype Manager = Manager(
    groups: map<Key, Group>, floor: map<Kind, nat>, pending: seq<Item>, fired: seq<Arrival>)

  datatype Config = Config(caps: Caps, disableGossip: bool, sizeOf: Key -> int)

  datatype Flags = Flags(gossip: bool, armed: bool)
  type PeerStates = map<Peer, Flags>

  datatype Metadata = Metadata(data: Data, available: set<nat>, requests: set<nat>)
  datatype Batch = Batch(data: Data, positions: seq<nat>, sigs: seq<Sig>)
  datatype Part<T> = Parsed(items: seq<T>) | Garbled
  datatype Rpc = Rpc(topic: Topic, group: nat, metadatas: Part<Metadata>, batches: Part<Batch>)
  datatype Error = NotPartial | BadControl | BadData | NoCommittee | LengthMismatch | IndexTooLarge
  datatype Outcome = Fine | Failed(error: Error)

  function NewManager(): Manager { Manager(map[], map[], [], []) }

  function BucketOf(g: Group, d: Data): Bucket { if d in g.buckets then g.buckets[d] else Fresh() }

  function GroupOf(cfg: Config, m: Manager, key: Key): Group {
    if key in m.groups then m.groups[key]
    else Group(if cfg.sizeOf(key) > 0 then cfg.sizeOf(key) else 0, map[], false)
  }

  function At(m: Manager, key: Key, d: Data): Bucket {
    if key in m.groups then BucketOf(m.groups[key], d) else Fresh()
  }

  function Put(g: Group, d: Data, b: Bucket): Group { g.(buckets := g.buckets[d := b]) }

  predicate Below(m: Manager, key: Key) { key.kind in m.floor && key.group <= m.floor[key.kind] }

  // getOrCreateGroup succeeds.
  predicate Sizable(cfg: Config, m: Manager, key: Key) { key in m.groups || cfg.sizeOf(key) > 0 }

  // ---------------------------------------------------------------- publish

  function PublishInto(g: Group, pos: nat, sig: Sig, d: Data): Group {
    Put(g, d, StoreLocal(BucketOf(g, d), pos, sig))
  }

  function Publish(cfg: Config, m: Manager, key: Key, pos: nat, sig: Sig, d: Data): Manager {
    m.(groups := m.groups[key := PublishInto(GroupOf(cfg, m, key), pos, sig, d)])
  }

  // ---------------------------------------------------------------- receive

  function Hear(g: Group, from: Peer, md: Metadata): Group {
    Put(g, md.data, HearMetadata(BucketOf(g, md.data), from, md.available, md.requests, g.size))
  }

  function HearAll(g: Group, from: Peer, mds: seq<Metadata>): Group {
    if mds == [] then g else Hear(HearAll(g, from, mds[..|mds| - 1]), from, mds[|mds| - 1])
  }

  datatype Taken = Taken(group: Group, work: seq<Work>, outcome: Outcome)

  function CheckBatch(size: nat, batch: Batch): Outcome {
    if |batch.positions| != |batch.sigs| then Failed(LengthMismatch)
    else if exists pos <- batch.positions :: pos >= size then Failed(IndexTooLarge)
    else Fine
  }

  function Take(g: Group, from: Peer, batch: Batch): Taken
    requires CheckBatch(g.size, batch) == Fine
  {
    var (b, added) := AddReceived(BucketOf(g, batch.data), batch.positions, batch.sigs);
    Taken(Put(g, batch.data, MarkSent(b, from, batch.positions)),
          if added == [] then [] else [Work(batch.data, added)], Fine)
  }

  // The batches in order, up to the first malformed one.
  function TakeAll(g: Group, from: Peer, batches: seq<Batch>): Taken {
    if batches == [] then Taken(g, [], Fine)
    else
      var front, batch := TakeAll(g, from, batches[..|batches| - 1]), batches[|batches| - 1];
      if front.outcome.Failed? then front
      else if CheckBatch(front.group.size, batch).Failed? then front.(outcome := CheckBatch(front.group.size, batch))
      else
        var next := Take(front.group, from, batch);
        next.(work := front.work + next.work)
  }

  function Items(key: Key, work: seq<Work>): seq<Item> { seq(|work|, i requires 0 <= i < |work| => Item(key, work[i])) }

  function KeyOf(rpc: Rpc): Key
    requires rpc.topic.PartialTopic?
  {
    Key(rpc.topic.kind, rpc.topic.subnet, rpc.group)
  }

  // The checks made before any state is touched: an error, a silent drop, or go on.
  function Early(cfg: Config, m: Manager, rpc: Rpc): (r: (bool, Outcome)) {
    if !rpc.topic.PartialTopic? then (true, Failed(NotPartial))
    else if rpc.metadatas.Garbled? then (true, Failed(BadControl))
    else if rpc.batches.Garbled? then (true, Failed(BadData))
    else if Below(m, KeyOf(rpc)) then (true, Fine)
    else if rpc.metadatas.items == [] && rpc.batches.items == [] then (true, Fine)
    else if !Sizable(cfg, m, KeyOf(rpc)) then (true, Failed(NoCommittee))
    else (false, Fine)
  }

  function TakenFrom(cfg: Config, m: Manager, from: Peer, rpc: Rpc): Taken
    requires !Early(cfg, m, rpc).0
  {
    TakeAll(HearAll(GroupOf(cfg, m, KeyOf(rpc)), from, rpc.metadatas.items), from, rpc.batches.items)
  }

  function Receive(cfg: Config, m: Manager, from: Peer, rpc: Rpc): (Manager, Outcome) {
    if Early(cfg, m, rpc).0 then (m, Early(cfg, m, rpc).1)
    else
      var t := TakenFrom(cfg, m, from, rpc);
      (m.(groups := m.groups[KeyOf(rpc) := t.group], pending := m.pending + Items(KeyOf(rpc), t.work)), t.outcome)
  }

  // A peer that sends a non-empty bitmap is a gossip peer from now on.
  function FlagsAfter(cfg: Config, m: Manager, flags: PeerStates, from: Peer, rpc: Rpc): PeerStates {
    if !Early(cfg, m, rpc).0 && exists md <- rpc.metadatas.items :: md.available != {} || md.requests != {}
    then flags[from := Flags(true, from in flags && flags[from].armed)]
    else flags
  }

  // ---------------------------------------------------------------- heartbeat and tick

  function EmitGossip(cfg: Config, flags: PeerStates, chosen: set<Peer>): PeerStates {
    if cfg.disableGossip then flags
    else map p | p in flags.Keys + chosen :: if p in chosen then Flags(true, true) else flags[p]
  }

  function Gossips(flags: PeerStates): set<Peer> { set p | p in flags && flags[p].gossip }

  // The iteration orders of one tick, and how far the consumer let it run: for every bucket the
  // gossip peers in the order asked; the peers in the order served; for each, the bucket order.
  datatype Choice = Choice(asks: map<Data, seq<Peer>>, turns: seq<Peer>, orders: seq<seq<Data>>)

  datatype Out = Out(to: Peer, metadatas: seq<Metadata>, batches: seq<Batch>)

  ghost predicate Distinct<T(!new)>(s: seq<T>) { forall i, j :: 0 <= i < j < |s| ==> s[i] != s[j] }

  ghost predicate Lists<T(!new)>(s: seq<T>, all: set<T>) { Distinct(s) && forall x :: x in s <==> x in all }

  ghost predicate ValidChoice(g: Group, flags: PeerStates, c: Choice) {
    && (forall d <- g.buckets :: d in c.asks && Lists(c.asks[d], Gossips(flags)))
    && Distinct(c.turns) && (forall p <- c.turns :: p in flags)
    && |c.orders| == |c.turns| && (forall order <- c.orders :: Lists(order, g.buckets.Keys))
  }

  function AskOrder(asks: map<Data, seq<Peer>>, d: Data): seq<Peer> { if d in asks then asks[d] else [] }

  function Asked(caps: Caps, g: Group, asks: map<Data, seq<Peer>>): Group {
    g.(buckets := map d | d in g.buckets :: AskAll(caps, g.buckets[d], AskOrder(asks, d), g.size))
  }

  function Served(caps: Caps, g: Group, flags: PeerStates, accepts: set<Peer>, turns: seq<Peer>): Group {
    g.(buckets := map d | d in g.buckets :: ServeAll(caps, g.buckets[d], Gossips(flags), accepts, turns))
  }

  function SigsOf(b: Bucket, positions: seq<nat>): seq<Sig> {
    seq(|positions|, i requires 0 <= i < |positions| => if positions[i] in b.held then b.held[positions[i]] else "")
  }

  function EncodeBatch(b: Bucket, d: Data, positions: seq<nat>): Batch { Batch(d, positions, SigsOf(b, positions)) }

  function BatchesTo(caps: Caps, g: Group, p: Peer, gossip: bool, accepts: bool, order: seq<Data>): seq<Batch> {
    if order == [] then []
    else
      var d := order[|order| - 1];
      var served := ServedPositions(caps, BucketOf(g, d), p, gossip, accepts);
      BatchesTo(caps, g, p, gossip, accepts, order[..|order| - 1])
      + if served == {} then [] else [EncodeBatch(BucketOf(g, d), d, Sorted(served, g.size))]
  }

  // bucketMetadata: Available only when armed, Requests always, nothing when both are empty.
  function MetasTo(caps: Caps, g: Group, asks: map<Data, seq<Peer>>, p: Peer, armed: bool, order: seq<Data>): seq<Metadata> {
    if order == [] then []
    else
      var d := order[|order| - 1];
      var available := if armed then BucketOf(g, d).validated else {};
      var wants := WantsOf(caps, BucketOf(g, d), AskOrder(asks, d), p, g.size);
      MetasTo(caps, g, asks, p, armed, order[..|order| - 1])
      + if available == {} && wants == {} then [] else [Metadata(d, available, wants)]
  }

  // What a peer's turn sends, after the turns of the peers before it.
  function TurnOut(caps: Caps, g: Group, flags: PeerStates, accepts: set<Peer>, asks: map<Data, seq<Peer>>,
                   before: seq<Peer>, p: Peer, order: seq<Data>): Out
    requires p in flags
  {
    var now := Served(caps, Asked(caps, g, asks), flags, accepts, before);
    Out(p, if flags[p].gossip then MetasTo(caps, g, asks, p, flags[p].armed, order) else [],
        BatchesTo(caps, now, p, flags[p].gossip, p in accepts, order))
  }

  function OutAt(caps: Caps, g: Group, flags: PeerStates, accepts: set<Peer>, c: Choice, i: nat): Out
    requires i < |c.turns| == |c.orders|
    requires c.turns[i] in flags
  {
    TurnOut(caps, g, flags, accepts, c.asks, c.turns[..i], c.turns[i], c.orders[i])
  }

  // What the first n turns send; a turn with nothing to say is skipped.
  function Outs(caps: Caps, g: Group, flags: PeerStates, accepts: set<Peer>, c: Choice, n: nat): seq<Out>
    requires n <= |c.turns| == |c.orders|
    requires forall p <- c.turns :: p in flags
  {
    if n == 0 then []
    else
      var out := OutAt(caps, g, flags, accepts, c, n - 1);
      Outs(caps, g, flags, accepts, c, n - 1) + if out.metadatas == [] && out.batches == [] then [] else [out]
  }

  predicate Silent(m: Manager, key: Key) {
    key !in m.groups || m.groups[key].sealed || m.groups[key].buckets == map[]
  }

  function TickGroup(caps: Caps, g: Group, flags: PeerStates, accepts: set<Peer>, c: Choice): Group {
    Served(caps, Asked(caps, g, c.asks), flags, accepts, c.turns)
  }

  function Tick(cfg: Config, m: Manager, key: Key, flags: PeerStates, accepts: set<Peer>, c: Choice): Manager {
    if Silent(m, key) then m
    else m.(groups := m.groups[key := TickGroup(cfg.caps, m.groups[key], flags, accepts, c)])
  }

  ghost predicate TickOk(m: Manager, key: Key, flags: PeerStates, c: Choice) {
    Silent(m, key) || ValidChoice(m.groups[key], flags, c)
  }

  function Emitted(cfg: Config, m: Manager, key: Key, flags: PeerStates, accepts: set<Peer>, c: Choice): seq<Out>
    requires TickOk(m, key, flags, c)
  {
    if Silent(m, key) then [] else Outs(cfg.caps, m.groups[key], flags, accepts, c, |c.turns|)
  }

  // A served gossip peer leaves the peer states.
  function FlagsAfterTick(m: Manager, key: Key, flags: PeerStates, c: Choice): PeerStates {
    if Silent(m, key) then flags
    else map p | p in flags && !(flags[p].gossip && p in c.turns) :: flags[p]
  }

  // ---------------------------------------------------------------- verdict, seal, prune

  function Arrivals(key: Key, d: Data, promoted: seq<nat>): seq<Arrival> {
    seq(|promoted|, i requires 0 <= i < |promoted| => Arrival(key, d, promoted[i]))
  }

  function MarkValidated(m: Manager, item: Item): Manager {
    var (key, d) := (item.key, item.work.data);
    if key !in m.groups || d !in m.groups[key].buckets then m
    else
      var (b, promoted) := Promote(m.groups[key].buckets[d], item.work.positions);
      m.(groups := m.groups[key := Put(m.groups[key], d, b)], fired := m.fired + Arrivals(key, d, promoted))
  }

  // The verifier calls back the i-th pending item.
  function CallBack(m: Manager, i: nat): Manager
    requires i < |m.pending|
  {
    MarkValidated(m.(pending := m.pending[..i] + m.pending[i + 1..]), m.pending[i])
  }

  predicate UpTo(key: Key, kind: Kind, group: nat) { key.kind == kind && key.group <= group }

  function Seal(m: Manager, kind: Kind, group: nat): Manager {
    m.(groups := map key | key in m.groups ::
         if UpTo(key, kind, group) then m.groups[key].(sealed := true) else m.groups[key])
  }

  function Prune(m: Manager, kind: Kind, group: nat): Manager {
    m.(floor := if kind !in m.floor || group > m.floor[kind] then m.floor[kind := group] else m.floor,
       groups := map key | key in m.groups && !UpTo(key, kind, group) :: m.groups[key])
  }
}
