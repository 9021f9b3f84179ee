/** The partial-message manager composed with its batch verifiers (node/partial.go and
    node/verifier.go): one verifier per kind's class, which other topics of the class may share. */
module PartialVerified {
  import opened PartialBucket
  import opened PartialManager
  import opened PartialSafety
  import opened PartialEffects
  import V = Verifier

  datatype Option<T> = None | Some(value: T)

  datatype PerKind<T> = PerKind(attestation: T, finality: T)

  function Get<T>(s: PerKind<T>, k: Kind): T { if k == Attestation then s.attestation else s.finality }

  function Set<T>(s: PerKind<T>, k: Kind, x: T): PerKind<T> {
    if k == Attestation then s.(attestation := x) else s.(finality := x)
  }

  // handed is the history of what each verifier was submitted: the manager's item, or None for
  // another topic's.
  datatype Node = Node(m: Manager, servers: PerKind<V.State>, handed: PerKind<seq<Option<Item>>>)

  datatype NodeEvent =
    | OfManager(event: Event)
    | OtherTopic(kind: Kind, item: V.Item)
    | OfServer(kind: Kind, step: V.Event)

  // The verifier's item: one attestation per new position.
  function ServerItem(item: Item): V.Item {
    V.Item(item.key.group, if item.key.kind == Attestation then "beacon_attestation" else "finality_vote", |item.work.positions|)
  }

  // The items an event adds to the pending ones, all of one kind.
  function NewItems(m: Manager, n: Manager): seq<Item> {
    if |m.pending| <= |n.pending| then n.pending[|m.pending|..] else []
  }

  function SubmitAll(vc: V.Config, s: V.State, items: seq<Item>): V.State {
    if items == [] then s
    else V.Next(vc, SubmitAll(vc, s, items[..|items| - 1]), V.Submit(ServerItem(items[|items| - 1])))
  }

  function Given(items: seq<Item>): seq<Option<Item>> { seq(|items|, i requires 0 <= i < |items| => Some(items[i])) }

  function Hand(vc: V.Config, s: Node, k: Kind, items: seq<Item>): Node {
    s.(servers := Set(s.servers, k, SubmitAll(vc, Get(s.servers, k), items)),
       handed := Set(s.handed, k, Get(s.handed, k) + Given(items)))
  }

  // The first pending item of a kind.
  function FirstOf(pending: seq<Item>, k: Kind): nat {
    if pending == [] || pending[0].key.kind == k then 0 else 1 + FirstOf(pending[1..], k)
  }

  ghost predicate CanStep(cfg: Config, s: Node, e: NodeEvent) {
    match e
    case OfManager(event) => !event.Verdict? && Enabled(cfg, s.m, event)
    case OtherTopic(_, _) => true
    case OfServer(k, step) => !step.Submit? && V.Enabled(Get(s.servers, k), step)
  }

  ghost function Step(cfg: Config, vc: V.Config, s: Node, e: NodeEvent): Node
    requires CanStep(cfg, s, e)
  {
    match e
    case OfManager(event) =>
      var n := Next(cfg, s.m, event);
      if event.Incoming? && event.rpc.topic.PartialTopic? then
        Hand(vc, s.(m := n), event.rpc.topic.kind, NewItems(s.m, n))
      else s.(m := n)
    case OtherTopic(k, item) =>
      s.(servers := Set(s.servers, k, V.Next(vc, Get(s.servers, k), V.Submit(item))),
         handed := Set(s.handed, k, Get(s.handed, k) + [None]))
    case OfServer(k, step) =>
      var server := Get(s.servers, k);
      var done := |server.completed|;
      var i := FirstOf(s.m.pending, k);
      // A callback of one of the manager's items promotes it.
      var m := if step.Callback? && done < |Get(s.handed, k)| && Get(s.handed, k)[done].Some? && i < |s.m.pending|
               then CallBack(s.m, i) else s.m;
      s.(m := m, servers := Set(s.servers, k, V.Next(vc, server, step)))
  }

  // ---------------------------------------------------------------- the link

  function OfKind(pending: seq<Item>, k: Kind): seq<Item> {
    if pending == [] then []
    else (if pending[0].key.kind == k then [pending[0]] else []) + OfKind(pending[1..], k)
  }

  function Somes(handed: seq<Option<Item>>): seq<Item> {
    if handed == [] then []
    else Mine(handed[0]) + Somes(handed[1..])
  }

  function Mine(h: Option<Item>): seq<Item> { if h.Some? then [h.value] else [] }

  // The pending items of a kind are those its verifier has not called back, in order.
  ghost predicate LinkedTo(pending: seq<Item>, server: V.State, handed: seq<Option<Item>>, k: Kind) {
    && V.Inv(server) && |server.completed| <= |server.submitted| == |handed|
    && OfKind(pending, k) == Somes(handed[|server.completed|..])
  }

  ghost predicate Linked(s: Node, k: Kind) { LinkedTo(s.m.pending, Get(s.servers, k), Get(s.handed, k), k) }

  ghost predicate NodeInv(cfg: Config, s: Node) {
    PartialSafety.Inv(cfg, s.m) && Linked(s, Attestation) && Linked(s, FinalityVote)
  }

  function Own(item: Item, k: Kind): seq<Item> { if item.key.kind == k then [item] else [] }

  lemma OfKindCons(x: Item, rest: seq<Item>, k: Kind)
    ensures OfKind([x] + rest, k) == Own(x, k) + OfKind(rest, k)
  {
    assert ([x] + rest)[1..] == rest;
  }

  lemma {:induction false} OfKindConcat(a: seq<Item>, b: seq<Item>, k: Kind)
    ensures OfKind(a + b, k) == OfKind(a, k) + OfKind(b, k)
  {
    if a == [] {
      assert a + b == b;
    } else {
      var x, rest := a[0], a[1..];
      OfKindConcat(rest, b, k);
      OfKindCons(x, rest + b, k);
      assert a + b == [x] + (rest + b);
      Associates(Own(x, k), OfKind(rest, k), OfKind(b, k));
    }
  }

  lemma SomesCons(x: Option<Item>, rest: seq<Option<Item>>)
    ensures Somes([x] + rest) == Mine(x) + Somes(rest)
  {
    assert ([x] + rest)[1..] == rest;
  }

  lemma {:induction false} SomesConcat(a: seq<Option<Item>>, b: seq<Option<Item>>)
    ensures Somes(a + b) == Somes(a) + Somes(b)
  {
    if a == [] {
      assert a + b == b;
    } else {
      var x, rest := a[0], a[1..];
      SomesConcat(rest, b);
      SomesCons(x, rest + b);
      assert a + b == [x] + (rest + b);
      Associates(Mine(x), Somes(rest), Somes(b));
    }
  }

  lemma Associates<T>(a: seq<T>, b: seq<T>, c: seq<T>)
    ensures a + (b + c) == a + b + c
  {
  }

  lemma {:induction false} SomesGiven(items: seq<Item>)
    ensures Somes(Given(items)) == items
  {
    if items != [] {
      assert Given(items)[1..] == Given(items[1..]);
      SomesGiven(items[1..]);
    }
  }

  lemma {:induction false} OneKind(items: seq<Item>, k: Kind, j: Kind)
    requires forall item <- items :: item.key.kind == k
    ensures OfKind(items, j) == if j == k then items else []
  {
    if items != [] { OneKind(items[1..], k, j); }
  }

  lemma {:induction false} FirstOfFacts(pending: seq<Item>, k: Kind)
    requires OfKind(pending, k) != []
    ensures var i := FirstOf(pending, k);
            i < |pending| && pending[i].key.kind == k && OfKind(pending[..i], k) == []
  {
    if pending[0].key.kind != k {
      var i := FirstOf(pending, k);
      FirstOfFacts(pending[1..], k);
      assert pending[..i][1..] == pending[1..][..i - 1];
    }
  }

  lemma OfKindAround(front: seq<Item>, item: Item, back: seq<Item>, j: Kind)
    ensures OfKind(front + [item] + back, j) == OfKind(front, j) + (if item.key.kind == j then [item] else []) + OfKind(back, j)
  {
    OfKindConcat(front + [item], back, j);
    OfKindConcat(front, [item], j);
    assert OfKind([item][1..], j) == [];
  }

  lemma RemoveAround(front: seq<Item>, item: Item, back: seq<Item>, k: Kind, j: Kind)
    requires item.key.kind == k && OfKind(front, k) == []
    ensures var all := front + [item] + back;
            && OfKind(all, k) == [item] + OfKind(back, k)
            && OfKind(front + back, j) == if j == k then OfKind(back, k) else OfKind(all, j)
  {
    OfKindAround(front, item, back, k);
    OfKindAround(front, item, back, j);
    OfKindConcat(front, back, j);
  }

  lemma RemoveFirst(pending: seq<Item>, k: Kind, j: Kind)
    requires OfKind(pending, k) != []
    ensures var i := FirstOf(pending, k);
            && i < |pending| && pending[i] == OfKind(pending, k)[0]
            && OfKind(pending[..i] + pending[i + 1..], j) == if j == k then OfKind(pending, k)[1..] else OfKind(pending, j)
  {
    FirstOfFacts(pending, k);
    var i := FirstOf(pending, k);
    var front, item, back := pending[..i], pending[i], pending[i + 1..];
    RemoveAround(front, item, back, k, j);
    assert pending == front + [item] + back;
  }

  lemma {:induction false} SubmitAllFacts(vc: V.Config, s: V.State, items: seq<Item>)
    requires V.Inv(s)
    ensures var n := SubmitAll(vc, s, items);
            V.Inv(n) && n.completed == s.completed && |n.submitted| == |s.submitted| + |items|
  {
    if items != [] {
      var front := SubmitAll(vc, s, items[..|items| - 1]);
      SubmitAllFacts(vc, s, items[..|items| - 1]);
      V.StepKeepsInv(vc, front, V.Submit(ServerItem(items[|items| - 1])));
    }
  }

  // Receiving only appends to the pending items, all of the RPC's kind; the other events leave them.
  lemma PendingAfter(cfg: Config, m: Manager, e: Event)
    requires Enabled(cfg, m, e) && !e.Verdict?
    ensures var n := Next(cfg, m, e);
            && |m.pending| <= |n.pending| && n.pending == m.pending + NewItems(m, n)
            && (NewItems(m, n) != [] ==> e.Incoming? && e.rpc.topic.PartialTopic?)
            && (e.Incoming? && e.rpc.topic.PartialTopic? ==>
                  forall item <- NewItems(m, n) :: item.key.kind == e.rpc.topic.kind)
  {
    if e.Incoming? && !Early(cfg, m, e.rpc).0 {
      var t := TakenFrom(cfg, m, e.from, e.rpc);
      assert Next(cfg, m, e).pending == m.pending + Items(KeyOf(e.rpc), t.work);
    }
  }

  // ---------------------------------------------------------------- what the verifier is charged

  function ServerItems(key: Key, work: seq<Work>): seq<V.Item> {
    seq(|work|, i requires 0 <= i < |work| => ServerItem(Item(key, work[i])))
  }

  lemma ServerItemsStep(key: Key, front: seq<Work>, last: Work)
    ensures ServerItems(key, front + [last]) == ServerItems(key, front) + [ServerItem(Item(key, last))]
    ensures Items(key, front + [last]) == Items(key, front) + [Item(key, last)]
  {
  }

  lemma {:induction false} SubmitWork(vc: V.Config, s: V.State, key: Key, work: seq<Work>)
    ensures SubmitAll(vc, s, Items(key, work)).queue == s.queue + ServerItems(key, work)
    ensures work != [] ==> SubmitAll(vc, s, Items(key, work)).notify
  {
    if work == [] {
      assert ServerItems(key, work) == [] && Items(key, work) == [];
    } else {
      var front, last := work[..|work| - 1], work[|work| - 1];
      assert work == front + [last];
      SubmitWork(vc, s, key, front);
      ServerItemsStep(key, front, last);
      SubmitOneMore(vc, s, Items(key, front), Item(key, last));
    }
  }

  lemma SubmitOneMore(vc: V.Config, s: V.State, front: seq<Item>, last: Item)
    ensures var n := SubmitAll(vc, s, front + [last]);
            n.queue == SubmitAll(vc, s, front).queue + [ServerItem(last)] && n.notify
  {
    assert (front + [last])[..|front|] == front;
  }

  lemma {:induction false} ServerItemsWeigh(key: Key, work: seq<Work>)
    ensures V.Total(ServerItems(key, work)) == Weight(work)
  {
    if work != [] {
      var front, last := work[..|work| - 1], work[|work| - 1];
      assert work == front + [last];
      ServerItemsWeigh(key, front);
      ServerItemsStep(key, front, last);
      assert (ServerItems(key, front) + [ServerItem(Item(key, last))])[..|front|] == ServerItems(key, front);
    }
  }

  // What an event has put behind a verifier's queue.
  function Behind(was: V.State, now: V.State): seq<V.Item> {
    if |was.queue| <= |now.queue| then now.queue[|was.queue|..] else []
  }

  lemma HandedWork(vc: V.Config, s: V.State, key: Key, work: seq<Work>)
    requires forall w <- work :: w.positions != []
    ensures var n := SubmitAll(vc, s, Items(key, work));
            && n.queue == s.queue + Behind(s, n) && V.Total(Behind(s, n)) == Weight(work)
            && (work != [] ==> n.notify)
            && forall x <- Behind(s, n) :: x.slot == key.group && x.attestations > 0
  {
    SubmitWork(vc, s, key, work);
    ServerItemsWeigh(key, work);
    assert Behind(s, SubmitAll(vc, s, Items(key, work))) == ServerItems(key, work);
    forall x <- ServerItems(key, work) ensures x.slot == key.group && x.attestations > 0 {
      var i :| 0 <= i < |work| && x == ServerItem(Item(key, work[i]));
      assert work[i] in work;
    }
  }

  // A verifier was handed, behind what waits already, items of one group worth so many votes.
  ghost predicate Charged(was: V.State, now: V.State, group: nat, votes: nat) {
    && now.queue == was.queue + Behind(was, now) && V.Total(Behind(was, now)) == votes
    && (votes > 0 ==> now.notify)
    && forall x <- Behind(was, now) :: x.slot == group && x.attestations > 0
  }

  ghost function VotesGained(cfg: Config, m: Manager, n: Manager, key: Key): set<(Data, nat)> {
    Gained(GroupOf(cfg, m, key), GroupOf(cfg, n, key))
  }

  lemma LetInCharges(cfg: Config, vc: V.Config, server: V.State, m: Manager, from: Peer, rpc: Rpc)
    requires Shapes(cfg, m) && !Early(cfg, m, rpc).0
    ensures var n := Receive(cfg, m, from, rpc).0;
            Charged(server, SubmitAll(vc, server, NewItems(m, n)), rpc.group, |VotesGained(cfg, m, n, KeyOf(rpc))|)
  {
    var t := TakenFrom(cfg, m, from, rpc);
    SubmittedIsGained(cfg, m, from, rpc);
    NewItemsAre(cfg, m, from, rpc);
    HandedWork(vc, server, KeyOf(rpc), t.work);
    if t.work == [] { assert Weight(t.work) == 0; }
  }

  lemma DroppedCharges(cfg: Config, vc: V.Config, server: V.State, m: Manager, key: Key)
    ensures Charged(server, SubmitAll(vc, server, NewItems(m, m)), key.group, |VotesGained(cfg, m, m, key)|)
  {
    assert VotesGained(cfg, m, m, key) == {} && NewItems(m, m) == [];
    assert Behind(server, server) == [];
  }

  /** What one RPC costs: the verifier of its kind is handed, in order behind what waits already, items
      of the RPC's group whose attestations are together exactly the votes the RPC added, each item at
      least one; it is woken if there is any, and the other kind's verifier is left alone. */
  lemma ChargedForNewVotes(cfg: Config, vc: V.Config, s: Node, from: Peer, rpc: Rpc)
    requires Shapes(cfg, s.m) && rpc.topic.PartialTopic?
    ensures var (t, key) := (Step(cfg, vc, s, OfManager(Incoming(from, rpc))), KeyOf(rpc));
            && Charged(Get(s.servers, key.kind), Get(t.servers, key.kind), key.group, |VotesGained(cfg, s.m, t.m, key)|)
            && forall k :: k != key.kind ==> Get(t.servers, k) == Get(s.servers, k)
  {
    var server := Get(s.servers, rpc.topic.kind);
    if Early(cfg, s.m, rpc).0 {
      DroppedCharges(cfg, vc, server, s.m, KeyOf(rpc));
    } else {
      LetInCharges(cfg, vc, server, s.m, from, rpc);
    }
  }

  lemma NewItemsAre(cfg: Config, m: Manager, from: Peer, rpc: Rpc)
    requires !Early(cfg, m, rpc).0
    ensures var (n, t) := (Receive(cfg, m, from, rpc).0, TakenFrom(cfg, m, from, rpc));
            NewItems(m, n) == Items(KeyOf(rpc), t.work) && GroupOf(cfg, n, KeyOf(rpc)) == t.group
  {
  }

  lemma SomesAppend(handed: seq<Option<Item>>, more: seq<Option<Item>>, done: nat)
    requires done <= |handed|
    ensures Somes((handed + more)[done..]) == Somes(handed[done..]) + Somes(more)
  {
    SomesConcat(handed[done..], more);
    assert (handed + more)[done..] == handed[done..] + more;
  }

  lemma HandLinks(vc: V.Config, pending: seq<Item>, server: V.State, handed: seq<Option<Item>>, k: Kind, items: seq<Item>)
    requires LinkedTo(pending, server, handed, k) && forall item <- items :: item.key.kind == k
    ensures LinkedTo(pending + items, SubmitAll(vc, server, items), handed + Given(items), k)
  {
    OfKindConcat(pending, items, k);
    OneKind(items, k, k);
    SubmitAllFacts(vc, server, items);
    SomesGiven(items);
    SomesAppend(handed, Given(items), |server.completed|);
  }

  lemma HandKeeps(vc: V.Config, s: Node, m: Manager, k: Kind, items: seq<Item>, j: Kind)
    requires Linked(s, j) && m.pending == s.m.pending + items && forall item <- items :: item.key.kind == k
    ensures Linked(Hand(vc, s.(m := m), k, items), j)
  {
    if j == k {
      HandLinks(vc, s.m.pending, Get(s.servers, k), Get(s.handed, k), k, items);
    } else {
      OfKindConcat(s.m.pending, items, j);
      OneKind(items, k, j);
    }
  }

  lemma ManagerStepKeeps(cfg: Config, vc: V.Config, s: Node, event: Event)
    requires NodeInv(cfg, s) && CanStep(cfg, s, OfManager(event))
    ensures NodeInv(cfg, Step(cfg, vc, s, OfManager(event)))
  {
    var n := Next(cfg, s.m, event);
    StepKeepsInv(cfg, s.m, event);
    PendingAfter(cfg, s.m, event);
    if event.Incoming? && event.rpc.topic.PartialTopic? {
      HandKeeps(vc, s, n, event.rpc.topic.kind, NewItems(s.m, n), Attestation);
      HandKeeps(vc, s, n, event.rpc.topic.kind, NewItems(s.m, n), FinalityVote);
    } else {
      assert n.pending == s.m.pending;
    }
  }

  lemma OtherTopicKeeps(cfg: Config, vc: V.Config, s: Node, k: Kind, item: V.Item)
    requires NodeInv(cfg, s)
    ensures NodeInv(cfg, Step(cfg, vc, s, OtherTopic(k, item)))
  {
    var server, handed := Get(s.servers, k), Get(s.handed, k);
    assert Linked(s, k);
    V.StepKeepsInv(vc, server, V.Submit(item));
    SomesAppend(handed, [None], |server.completed|);
    assert Somes([None]) == [];
  }

  lemma ServerCallback(vc: V.Config, server: V.State)
    requires V.Inv(server) && V.Enabled(server, V.Callback)
    ensures var n := V.Next(vc, server, V.Callback);
            && V.Inv(n) && n.submitted == server.submitted
            && |n.completed| == |server.completed| + 1 <= |server.submitted|
  {
    V.StepKeepsInv(vc, server, V.Callback);
    assert |server.completed + V.InHand(server.phase) + server.queue| == |server.submitted|;
  }

  lemma SomesRest(handed: seq<Option<Item>>, done: nat)
    requires done < |handed|
    ensures Somes(handed[done..]) == Mine(handed[done]) + Somes(handed[done + 1..])
  {
    assert handed[done..][1..] == handed[done + 1..];
  }

  // The item a callback is for, if the manager's, is the first pending one of its kind.
  lemma CallbackLinks(vc: V.Config, pending: seq<Item>, server: V.State, handed: seq<Option<Item>>, k: Kind)
    requires LinkedTo(pending, server, handed, k) && V.Enabled(server, V.Callback)
    ensures |server.completed| < |handed|
    ensures var (n, i) := (V.Next(vc, server, V.Callback), FirstOf(pending, k));
            if handed[|server.completed|].None? then LinkedTo(pending, n, handed, k)
            else i < |pending| && Some(pending[i]) == handed[|server.completed|]
                 && LinkedTo(pending[..i] + pending[i + 1..], n, handed, k)
  {
    ServerCallback(vc, server);
    SomesRest(handed, |server.completed|);
    if handed[|server.completed|].Some? { RemoveFirst(pending, k, k); }
  }

  // What a callback leaves pending.
  function PendingAfterCallback(s: Node, k: Kind): seq<Item> {
    var done, i := |Get(s.servers, k).completed|, FirstOf(s.m.pending, k);
    if done < |Get(s.handed, k)| && Get(s.handed, k)[done].Some? && i < |s.m.pending|
    then s.m.pending[..i] + s.m.pending[i + 1..] else s.m.pending
  }

  lemma CallbackStep(cfg: Config, vc: V.Config, s: Node, k: Kind, j: Kind)
    requires V.Enabled(Get(s.servers, k), V.Callback)
    ensures var n := Step(cfg, vc, s, OfServer(k, V.Callback));
            && n.m.pending == PendingAfterCallback(s, k) && n.handed == s.handed
            && Get(n.servers, j) == if j == k then V.Next(vc, Get(s.servers, k), V.Callback) else Get(s.servers, j)
  {
    var i := FirstOf(s.m.pending, k);
    if i < |s.m.pending| { CallBackPending(s.m, i); }
  }

  lemma OtherLink(pending: seq<Item>, server: V.State, handed: seq<Option<Item>>, k: Kind, j: Kind)
    requires LinkedTo(pending, server, handed, j) && j != k && OfKind(pending, k) != []
    ensures var i := FirstOf(pending, k); i < |pending| && LinkedTo(pending[..i] + pending[i + 1..], server, handed, j)
  {
    RemoveFirst(pending, k, j);
  }

  lemma CallbackKeepsLink(cfg: Config, vc: V.Config, s: Node, k: Kind, j: Kind)
    requires Linked(s, k) && Linked(s, j) && V.Enabled(Get(s.servers, k), V.Callback)
    ensures Linked(Step(cfg, vc, s, OfServer(k, V.Callback)), j)
  {
    var server, handed := Get(s.servers, k), Get(s.handed, k);
    CallbackStep(cfg, vc, s, k, j);
    CallbackLinks(vc, s.m.pending, server, handed, k);
    if j != k && handed[|server.completed|].Some? {
      SomesRest(handed, |server.completed|);
      OtherLink(s.m.pending, Get(s.servers, j), Get(s.handed, j), k, j);
    }
  }

  lemma CallbackKeepsManager(cfg: Config, vc: V.Config, s: Node, k: Kind)
    requires PartialSafety.Inv(cfg, s.m) && Linked(s, k) && V.Enabled(Get(s.servers, k), V.Callback)
    ensures PartialSafety.Inv(cfg, Step(cfg, vc, s, OfServer(k, V.Callback)).m)
  {
    CallbackLinks(vc, s.m.pending, Get(s.servers, k), Get(s.handed, k), k);
    var i := FirstOf(s.m.pending, k);
    if i < |s.m.pending| { CallBackKeeps(cfg, s.m, i); }
  }

  lemma CallBackPending(m: Manager, i: nat)
    requires i < |m.pending|
    ensures CallBack(m, i).pending == m.pending[..i] + m.pending[i + 1..]
  {
  }

  lemma ServerStepKeeps(cfg: Config, vc: V.Config, s: Node, k: Kind, step: V.Event)
    requires NodeInv(cfg, s) && CanStep(cfg, s, OfServer(k, step))
    ensures NodeInv(cfg, Step(cfg, vc, s, OfServer(k, step)))
  {
    if step.Callback? {
      CallbackKeepsLink(cfg, vc, s, k, Attestation);
      CallbackKeepsLink(cfg, vc, s, k, FinalityVote);
      CallbackKeepsManager(cfg, vc, s, k);
    } else {
      V.StepKeepsInv(vc, Get(s.servers, k), step);
    }
  }

  // ---------------------------------------------------------------- whole runs

  ghost predicate IsNodeRun(cfg: Config, vc: V.Config, s: Node, es: seq<NodeEvent>)
    decreases |es|
  {
    es == [] || (CanStep(cfg, s, es[0]) && IsNodeRun(cfg, vc, Step(cfg, vc, s, es[0]), es[1..]))
  }

  ghost function NodeAfter(cfg: Config, vc: V.Config, s: Node, es: seq<NodeEvent>): Node
    requires IsNodeRun(cfg, vc, s, es)
    decreases |es|
  {
    if es == [] then s else NodeAfter(cfg, vc, Step(cfg, vc, s, es[0]), es[1..])
  }

  lemma {:induction false} NodeRunKeepsInv(cfg: Config, vc: V.Config, s: Node, es: seq<NodeEvent>)
    requires NodeInv(cfg, s) && IsNodeRun(cfg, vc, s, es)
    ensures NodeInv(cfg, NodeAfter(cfg, vc, s, es))
    decreases |es|
  {
    if es != [] {
      match es[0] {
        case OfManager(event) => ManagerStepKeeps(cfg, vc, s, event);
        case OtherTopic(k, item) => OtherTopicKeeps(cfg, vc, s, k, item);
        case OfServer(k, step) => ServerStepKeeps(cfg, vc, s, k, step);
      }
      NodeRunKeepsInv(cfg, vc, Step(cfg, vc, s, es[0]), es[1..]);
    }
  }

  function StartNode(now: int): Node {
    Node(NewManager(), PerKind(V.Init(now), V.Init(now)), PerKind([], []))
  }

  /** Manager and verifiers composed: under every interleaving, each verifier calls back the manager's
      items in the order submitted, each once, and the pending ones are exactly its backlog. */
  lemma PendingIsTheBacklog(cfg: Config, vc: V.Config, now: int, es: seq<NodeEvent>, k: Kind)
    requires IsNodeRun(cfg, vc, StartNode(now), es)
    ensures var s := NodeAfter(cfg, vc, StartNode(now), es);
            var (server, handed) := (Get(s.servers, k), Get(s.handed, k));
            && |server.completed| <= |handed| == |server.submitted|
            && OfKind(s.m.pending, k) == Somes(handed[|server.completed|..])
            && PartialSafety.Inv(cfg, s.m)
  {
    NewInv(cfg);
    NodeRunKeepsInv(cfg, vc, StartNode(now), es);
  }

  lemma {:induction false} NoneOfKind(pending: seq<Item>, key: Key, d: Data, pos: nat)
    requires OfKind(pending, key.kind) == []
    ensures Queued(pending, key, d, pos) == 0
  {
    if pending != [] {
      var front, last := pending[..|pending| - 1], pending[|pending| - 1];
      OfKindConcat(front, [last], key.kind);
      assert pending == front + [last];
      assert OfKind([last], key.kind) == if last.key.kind == key.kind then [last] else [];
      NoneOfKind(front, key, d, pos);
    }
  }

  /** Once a kind's verifier has stopped, with nothing submitted after the stop, every position held
      in a group above the floor is validated, and each one received from a peer has fired exactly
      one arrival. */
  lemma StoppedNodeHasValidatedAll(
      cfg: Config, vc: V.Config, now: int, es: seq<NodeEvent>, key: Key, d: Data, pos: nat)
    requires IsNodeRun(cfg, vc, StartNode(now), es)
    requires var server := Get(NodeAfter(cfg, vc, StartNode(now), es).servers, key.kind);
             server.phase.Exited? && !server.late
    ensures var m := NodeAfter(cfg, vc, StartNode(now), es).m;
            var b := At(m, key, d);
            !Below(m, key) && pos in b.held ==>
              pos in b.validated && Fired(m, key, d, pos) == (if pos in b.local then 0 else 1)
  {
    NewInv(cfg);
    NodeRunKeepsInv(cfg, vc, StartNode(now), es);
    var s := NodeAfter(cfg, vc, StartNode(now), es);
    var server, handed := Get(s.servers, key.kind), Get(s.handed, key.kind);
    assert Linked(s, key.kind);
    assert server.completed + [] + [] == server.submitted;
    assert handed[|server.completed|..] == [];
    NoneOfKind(s.m.pending, key, d, pos);
    if !Below(s.m, key) && pos in At(s.m, key, d).held {
      assert Queued(s.m.pending, key, d, pos) == Bit(pos in At(s.m, key, d).validating);
      assert Fired(s.m, key, d, pos) == Bit(pos in At(s.m, key, d).validated - At(s.m, key, d).local);
      assert key in s.m.groups && d in s.m.groups[key].buckets;
    }
  }
}
