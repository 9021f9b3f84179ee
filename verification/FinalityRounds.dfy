/** The life of a finality round in driver/runner.go: when the slot loop pre-joins, arms and reaps
    it, what the pre-join picks, what the vote burst and the aggregation publish, and that the slot
    clock drives the teardown machine only through its orderly runs. */
module FinalityRounds {
  import opened Arith
  import opened FinalityTeardown
  import Positions
  type Duty = Positions.Duty
  type Plan = Positions.Plan

  // ---------------------------------------------------------------- the slot loop

  datatype Kick = Prejoin(n: nat) | Arm(n: nat) | ReapRound(n: nat)

  // The rounds of a run of `slots` AC slots, k to a round.
  function Rounds(slots: nat, k: nat): nat
    requires k > 0
  {
    (slots + k - 1) / k
  }

  function BeginSlot(slots: nat, k: nat, slot: nat): seq<Kick>
    requires k > 0
  {
    (if (slot + 1) % k == 0 && (slot + 1) / k < Rounds(slots, k) then [Prejoin((slot + 1) / k)] else [])
    + (if slot % k == 0 then [Arm(slot / k)] else [])
  }

  function EndSlot(k: nat, slot: nat): seq<Kick>
    requires k > 0
  {
    if (slot + 1) % k == 0 then [ReapRound(slot / k)] else []
  }

  function SlotKicks(slots: nat, k: nat, slot: nat): seq<Kick>
    requires k > 0
  {
    BeginSlot(slots, k, slot) + EndSlot(k, slot)
  }

  // The segregated path of the slot loop: every slot pre-joins the next one's round (a no-op past the
  // plan's last), arms its own, and reaps it at its end.
  function BeginSubRound(slots: nat, slot: nat): seq<Kick> {
    (if slot + 1 < slots then [Prejoin(slot + 1)] else []) + [Arm(slot)]
  }

  function EndSubRound(slot: nat): seq<Kick> { [ReapRound(slot)] }

  /** Segregated mode is base mode with one slot to a round: the two paths kick the same rounds in the
      same order, and count the same rounds in a run. */
  lemma SubRoundsAreOneSlotRounds(slots: nat, slot: nat)
    ensures BeginSubRound(slots, slot) == BeginSlot(slots, 1, slot)
    ensures EndSubRound(slot) == EndSlot(1, slot)
    ensures Rounds(slots, 1) == slots && First(1, slot) == slot
  {
    FirstIsMultiple(1, slot);
  }

  function Concat(f: nat -> seq<Kick>, upto: nat): seq<Kick> {
    if upto == 0 then [] else Concat(f, upto - 1) + f(upto - 1)
  }

  // Bring-up warms round 0; then each slot begins and ends.
  function Kicks(slots: nat, k: nat, upto: nat): seq<Kick>
    requires k > 0
  {
    (if slots > 0 then [Prejoin(0)] else []) + Concat((slot: nat) => SlotKicks(slots, k, slot), upto)
  }

  lemma {:induction false} ConcatCounts(f: nat -> seq<Kick>, upto: nat, x: Kick, at: int)
    requires forall slot: nat :: slot < upto ==> multiset(f(slot))[x] == if slot == at then 1 else 0
    ensures multiset(Concat(f, upto))[x] == if 0 <= at < upto then 1 else 0
  {
    if upto > 0 { ConcatCounts(f, upto - 1, x, at); }
  }

  // The first slot of round n.
  function First(k: nat, n: nat): nat { if n == 0 then 0 else First(k, n - 1) + k }

  lemma {:induction false} FirstIsMultiple(k: nat, n: nat)
    ensures First(k, n) == n * k
  {
    if n > 0 {
      FirstIsMultiple(k, n - 1);
      assert n * k == (n - 1) * k + k;
    }
  }

  lemma {:induction false} FirstMonotone(k: nat, m: nat, n: nat)
    requires m < n
    ensures First(k, m) + k <= First(k, n)
  {
    if m < n - 1 { FirstMonotone(k, m, n - 1); }
  }

  lemma BoundaryIs(x: nat, n: nat, k: nat)
    requires k > 0
    ensures x % k == 0 && x / k == n <==> x == First(k, n)
  {
    FirstIsMultiple(k, n);
    if x == n * k { QuotientIs(n, k, x); }
  }

  lemma LastSlotIs(x: nat, n: nat, k: nat)
    requires k > 0
    ensures (x + 1) % k == 0 && x / k == n <==> x + 1 == First(k, n) + k
  {
    if x + 1 == First(k, n) + k {
      EndsRound(x, n, k);
    } else if (x + 1) % k == 0 {
      var q := (x + 1) / k;
      BoundaryIs(x + 1, q, k);
      EndsRound(x, q - 1, k);
    }
  }

  lemma EndsRound(x: nat, n: nat, k: nat)
    requires k > 0 && x + 1 == First(k, n) + k
    ensures (x + 1) % k == 0 && x / k == n
  {
    FirstIsMultiple(k, n);
    QuotientIs(n, k, x);
    BoundaryIs(x + 1, n + 1, k);
  }

  // Round n is armed in its first slot.
  lemma ArmsOfSlot(slots: nat, k: nat, slot: nat, n: nat)
    requires k > 0
    ensures multiset(SlotKicks(slots, k, slot))[Arm(n)] == if slot == First(k, n) then 1 else 0
  {
    BoundaryIs(slot, n, k);
  }

  // It is reaped in its last.
  lemma ReapsOfSlot(slots: nat, k: nat, slot: nat, n: nat)
    requires k > 0
    ensures multiset(SlotKicks(slots, k, slot))[ReapRound(n)] == if slot == First(k, n) + k - 1 then 1 else 0
  {
    LastSlotIs(slot, n, k);
  }

  // Its pre-join is kicked in the slot before its first.
  lemma PrejoinsOfSlot(slots: nat, k: nat, slot: nat, n: nat)
    requires k > 0
    ensures multiset(SlotKicks(slots, k, slot))[Prejoin(n)] ==
              if slot + 1 == First(k, n) && n < Rounds(slots, k) then 1 else 0
  {
    BoundaryIs(slot + 1, n, k);
  }

  lemma ArmsUpto(slots: nat, k: nat, upto: nat, n: nat)
    requires k > 0
    ensures multiset(Kicks(slots, k, upto))[Arm(n)] == if First(k, n) < upto then 1 else 0
  {
    var f, at := (slot: nat) => SlotKicks(slots, k, slot), First(k, n);
    forall slot: nat | slot < upto ensures multiset(f(slot))[Arm(n)] == if slot == at then 1 else 0 {
      ArmsOfSlot(slots, k, slot, n);
    }
    ConcatCounts(f, upto, Arm(n), at);
  }

  lemma ReapsUpto(slots: nat, k: nat, upto: nat, n: nat)
    requires k > 0
    ensures multiset(Kicks(slots, k, upto))[ReapRound(n)] == if First(k, n) + k - 1 < upto then 1 else 0
  {
    var f, at := (slot: nat) => SlotKicks(slots, k, slot), First(k, n) + k - 1;
    forall slot: nat | slot < upto ensures multiset(f(slot))[ReapRound(n)] == if slot == at then 1 else 0 {
      ReapsOfSlot(slots, k, slot, n);
    }
    ConcatCounts(f, upto, ReapRound(n), at);
  }

  lemma PrejoinsUpto(slots: nat, k: nat, upto: nat, n: nat)
    requires k > 0 && slots > 0
    ensures multiset(Kicks(slots, k, upto))[Prejoin(n)] ==
              if n == 0 || (n < Rounds(slots, k) && First(k, n) <= upto) then 1 else 0
  {
    var f := (slot: nat) => SlotKicks(slots, k, slot);
    var at := if n < Rounds(slots, k) then First(k, n) - 1 else -1;
    forall slot: nat | slot < upto ensures multiset(f(slot))[Prejoin(n)] == if slot == at then 1 else 0 {
      PrejoinsOfSlot(slots, k, slot, n);
    }
    if n > 0 { FirstMonotone(k, 0, n); }
    ConcatCounts(f, upto, Prejoin(n), at);
  }

  lemma RoundStartsInRun(slots: nat, k: nat, n: nat)
    requires k > 0
    ensures n < Rounds(slots, k) <==> First(k, n) < slots
  {
    var r := Rounds(slots, k);
    FirstIsMultiple(k, r);
    assert slots + k - 1 == r * k + (slots + k - 1) % k;
    if n < r { FirstMonotone(k, n, r); } else if r < n { FirstMonotone(k, r, n); }
  }

  /** For every run length, prefix of slots and round: the round is pre-joined once before its first
      slot (round 0 at bring-up), armed once in its first slot and reaped once at the end of its
      last, so always in that order; nothing outside the run's rounds is ever pre-joined. */
  lemma RoundLifecycle(slots: nat, k: nat, upto: nat, n: nat)
    requires k > 0 && slots > 0
    ensures multiset(Kicks(slots, k, upto))[Prejoin(n)] ==
              if n == 0 || (First(k, n) < slots && First(k, n) <= upto) then 1 else 0
    ensures multiset(Kicks(slots, k, upto))[Arm(n)] == if First(k, n) < upto then 1 else 0
    ensures multiset(Kicks(slots, k, upto))[ReapRound(n)] == if First(k, n) + k - 1 < upto then 1 else 0
  {
    RoundStartsInRun(slots, k, n);
    PrejoinsUpto(slots, k, upto, n);
    ArmsUpto(slots, k, upto, n);
    ReapsUpto(slots, k, upto, n);
  }

  // ---------------------------------------------------------------- the clock drives orderly runs

  // One teardown-machine step and the slot it happens in.
  datatype Timed = Timed(slot: int, event: Event)

  // The slot in which each step of round n may fall: the pre-join (both halves) in the slot before
  // its first, the teardown at the aggregation deadline inside the round, the reap in its last.
  predicate OnTime(k: nat, t: Timed) {
    match t.event
    case Register(n, _) => t.slot == First(k, n) - 1
    case Join(n) => t.slot == First(k, n) - 1
    case Drop(n) => First(k, n) <= t.slot < First(k, n) + k
    case Reap(n) => t.slot == First(k, n) + k - 1
  }

  // Nothing is overdue in `slot`: pre-joins of begun rounds are finished, ended rounds are reaped.
  predicate UpToDate(k: nat, s: State, slot: int) {
    && (forall n <- s.rounds :: n !in s.joined ==> slot < First(k, n))
    && (forall n <- s.live :: slot < First(k, n) + k)
  }

  predicate ClockDriven(k: nat, stable: Stable, s: State, slot: int, ts: seq<Timed>)
    decreases |ts|
  {
    ts == [] ||
    (&& slot <= ts[0].slot
     && OnTime(k, ts[0]) && UpToDate(k, s, ts[0].slot)
     && Enabled(stable, s, ts[0].event)
     && ClockDriven(k, stable, Next(stable, s, ts[0].event), ts[0].slot, ts[1..]))
  }

  function Events(ts: seq<Timed>): seq<Event> {
    if ts == [] then [] else [ts[0].event] + Events(ts[1..])
  }

  // A torn-down round has begun.
  predicate DoneHaveBegun(k: nat, s: State, slot: int) {
    forall n <- s.done :: First(k, n) <= slot
  }

  lemma StepIsOrderly(k: nat, stable: Stable, s: State, slot: int, t: Timed)
    requires k > 0 && Inv(stable, s) && slot <= t.slot && DoneHaveBegun(k, s, slot)
    requires OnTime(k, t) && UpToDate(k, s, t.slot) && Enabled(stable, s, t.event)
    ensures Orderly(s, t.event)
    ensures DoneHaveBegun(k, Next(stable, s, t.event), t.slot)
  {
    if t.event.Drop? || t.event.Reap? {
      var n := t.event.n;
      forall m | m in s.live * s.done ensures m == n {
        if m < n { FirstMonotone(k, m, n); }
        if n < m { FirstMonotone(k, n, m); }
      }
    }
  }

  lemma {:induction false} ClockDrivenIsOrderly(k: nat, stable: Stable, s: State, slot: int, ts: seq<Timed>)
    requires k > 0 && Inv(stable, s) && DoneHaveBegun(k, s, slot)
    requires ClockDriven(k, stable, s, slot, ts)
    ensures IsRun(stable, s, Events(ts)) && OrderlyRun(stable, s, Events(ts))
    decreases |ts|
  {
    if ts != [] {
      StepIsOrderly(k, stable, s, slot, ts[0]);
      StepKeepsInv(stable, s, ts[0].event);
      ClockDrivenIsOrderly(k, stable, Next(stable, s, ts[0].event), ts[0].slot, ts[1..]);
      assert Events(ts)[1..] == Events(ts[1..]);
    }
  }

  /** Any interleaving the slot clock allows, for every k >= 1 and any number of overlapping rounds:
      live rounds keep what they set up, and when the last round is reaped only the stable topics
      and peers remain. */
  lemma ClockDrivenRunsEndStable(k: nat, stable: Stable, ts: seq<Timed>)
    requires k > 0 && ClockDriven(k, stable, Init(stable), -1, ts)
    ensures IsRun(stable, Init(stable), Events(ts))
    ensures var s := After(stable, Init(stable), Events(ts));
            && (forall n <- s.joined :: n !in s.done ==>
                  n in s.rounds && s.rounds[n].topics <= s.topics && s.rounds[n].peers <= s.peers)
            && (s.live == {} ==> s.topics == stable.topics && s.peers == stable.peers)
  {
    ClockDrivenIsOrderly(k, stable, Init(stable), -1, ts);
    RunKeepsInv(stable, Init(stable), Events(ts));
    if After(stable, Init(stable), Events(ts)).live == {} {
      OrderlyRunsEndStable(stable, Events(ts));
    }
  }

  // ---------------------------------------------------------------- what a pre-join picks

  // dialTwo: at most two members in the given order, skipping the node, its stable peers and
  // whatever this pre-join picked already; fewer than two only when no other member is left.
  method DialTwo(order: seq<int>, self: int, stablePeers: set<int>, picked: set<int>)
    returns (dialed: seq<int>, nowPicked: set<int>)
    ensures |dialed| <= 2 && (forall p <- dialed :: p in order)
    ensures forall p <- dialed :: p != self && p !in stablePeers && p !in picked
    ensures forall i, j :: 0 <= i < j < |dialed| ==> dialed[i] != dialed[j]
    ensures nowPicked == picked + (set p | p in dialed)
    ensures |dialed| < 2 ==> forall p <- order :: p == self || p in stablePeers || p in nowPicked
  {
    dialed, nowPicked := [], picked;
    for i := 0 to |order|
      invariant |dialed| <= 2 && (forall p <- dialed :: p in order)
      invariant forall p <- dialed :: p != self && p !in stablePeers && p !in picked
      invariant forall i, j :: 0 <= i < j < |dialed| ==> dialed[i] != dialed[j]
      invariant nowPicked == picked + (set p | p in dialed)
      invariant |dialed| < 2 ==> forall p <- order[..i] :: p == self || p in stablePeers || p in nowPicked
    {
      if |dialed| >= 2 { break; }
      var peer := order[i];
      assert order[..i + 1] == order[..i] + [peer];
      if peer == self || peer in stablePeers || peer in nowPicked { continue; }
      nowPicked := nowPicked + {peer};
      dialed := dialed + [peer];
    }
    assert order[..|order|] == order;
  }

  predicate Distinct(s: seq<int>) { forall i, j :: 0 <= i < j < |s| ==> s[i] != s[j] }

  function SetOf(s: seq<int>): set<int> { set x | x in s }

  // The duty subnets that need fan-out: foreign, each once, in duty order.
  method ForeignSubnets(duties: seq<Duty>, own: int) returns (subnets: seq<int>)
    ensures Distinct(subnets)
    ensures forall s :: s in subnets <==> s != own && exists d <- duties :: d.subnet == s
  {
    subnets := [];
    for i := 0 to |duties|
      invariant Distinct(subnets)
      invariant forall s :: s in subnets <==> s != own && exists d <- duties[..i] :: d.subnet == s
    {
      assert duties[..i + 1] == duties[..i] + [duties[i]];
      if duties[i].subnet != own && duties[i].subnet !in subnets {
        subnets := subnets + [duties[i].subnet];
      }
    }
    assert duties[..|duties|] == duties;
  }

  // Dials for every subnet of a list in turn, sharing `picked`.
  method DialAll(subnets: seq<int>, order: int -> seq<int>, self: int, stablePeers: set<int>, picked: set<int>)
    returns (dialed: seq<int>, nowPicked: set<int>)
    ensures Distinct(dialed) && SetOf(dialed) !! stablePeers + picked + {self}
    ensures nowPicked == picked + SetOf(dialed)
    ensures forall s <- subnets :: Served(SetOf(order(s)), self, stablePeers, nowPicked)
  {
    dialed, nowPicked := [], picked;
    for i := 0 to |subnets|
      invariant PickedSoFar(dialed, self, stablePeers, picked, nowPicked)
      invariant forall s <- subnets[..i] :: Served(SetOf(order(s)), self, stablePeers, nowPicked)
    {
      ghost var before := nowPicked;
      var two: seq<int>;
      two, nowPicked := DialTwo(order(subnets[i]), self, stablePeers, nowPicked);
      PickedMore(dialed, two, self, stablePeers, picked, before, nowPicked);
      TwoServe(two, order(subnets[i]), self, stablePeers, nowPicked);
      ServedOneMore(subnets, i, order, self, stablePeers, before, nowPicked);
      dialed := dialed + two;
    }
    assert subnets[..|subnets|] == subnets;
  }

  predicate PickedSoFar(dialed: seq<int>, self: int, stablePeers: set<int>, picked: set<int>, nowPicked: set<int>) {
    Distinct(dialed) && SetOf(dialed) !! stablePeers + picked + {self} && nowPicked == picked + SetOf(dialed)
  }

  lemma PickedMore(dialed: seq<int>, two: seq<int>, self: int, stablePeers: set<int>, picked: set<int>,
                   before: set<int>, after: set<int>)
    requires PickedSoFar(dialed, self, stablePeers, picked, before)
    requires Distinct(two) && forall p <- two :: p != self && p !in stablePeers && p !in before
    requires after == before + SetOf(two)
    ensures PickedSoFar(dialed + two, self, stablePeers, picked, after)
  {
    forall p <- two ensures p !in SetOf(dialed) { assert p !in before; }
    AppendDistinct(dialed, two);
    forall p | p in SetOf(dialed + two) ensures p !in stablePeers + picked + {self} {
      if p in SetOf(two) { assert p in two; }
    }
  }

  lemma ServedOneMore(subnets: seq<int>, i: nat, order: int -> seq<int>, self: int, stablePeers: set<int>,
                      before: set<int>, after: set<int>)
    requires i < |subnets| && before <= after
    requires forall s <- subnets[..i] :: Served(SetOf(order(s)), self, stablePeers, before)
    requires Served(SetOf(order(subnets[i])), self, stablePeers, after)
    ensures forall s <- subnets[..i + 1] :: Served(SetOf(order(s)), self, stablePeers, after)
  {
    assert subnets[..i + 1] == subnets[..i] + [subnets[i]];
    forall s | s in subnets[..i] ensures Served(SetOf(order(s)), self, stablePeers, after) {
      StillServed(SetOf(order(s)), self, stablePeers, before, after);
    }
  }

  lemma AppendDistinct(a: seq<int>, b: seq<int>)
    requires Distinct(a) && Distinct(b) && forall p <- b :: p !in SetOf(a)
    ensures Distinct(a + b) && SetOf(a + b) == SetOf(a) + SetOf(b)
  {
    forall i, j | 0 <= i < j < |a + b| ensures (a + b)[i] != (a + b)[j] {
      if i < |a| <= j { assert a[i] in a && b[j - |a|] in b; }
    }
  }

  // A subnet has two picked members, or no member is left to pick.
  predicate Served(members: set<int>, self: int, stablePeers: set<int>, picked: set<int>) {
    |members * picked| >= 2 || members <= stablePeers + picked + {self}
  }

  lemma StillServed(members: set<int>, self: int, stablePeers: set<int>, before: set<int>, after: set<int>)
    requires Served(members, self, stablePeers, before) && before <= after
    ensures Served(members, self, stablePeers, after)
  {
    assert members * after == members * before + (members * after - members * before);
  }

  lemma TwoServe(two: seq<int>, order: seq<int>, self: int, stablePeers: set<int>, picked: set<int>)
    requires |two| <= 2 && Distinct(two) && SetOf(two) <= picked && forall p <- two :: p in order
    requires |two| < 2 ==> forall p <- order :: p == self || p in stablePeers || p in picked
    ensures Served(SetOf(order), self, stablePeers, picked)
  {
    if |two| == 2 {
      var pair, both := {two[0], two[1]}, SetOf(order) * picked;
      assert two[0] in two && two[1] in two && pair <= both;
      assert |pair| == 2;
      assert both == pair + (both - pair);
    } else {
      forall p | p in SetOf(order) ensures p in stablePeers + picked + {self} { assert p in order; }
    }
  }

  datatype PrejoinPlan = PrejoinPlan(dutySubnets: seq<int>, voteDialed: seq<int>,
                                     aggregateSubscribed: seq<int>, aggregateDialed: seq<int>)

  /** The pre-join's choices: it never lists the node's own topic, itself or a stable peer, never one
      peer twice, and every foreign duty subnet and every aggregated subnet ends with two picked
      members or with none left to pick.  So its round may be registered in any state. */
  method PlanPrejoin(duties: seq<Duty>, aggSubnets: seq<int>, own: int, order: int -> seq<int>,
                     self: int, stablePeers: set<int>)
    returns (plan: PrejoinPlan)
    ensures Distinct(plan.dutySubnets)
    ensures forall s :: s in plan.dutySubnets <==> s != own && exists d <- duties :: d.subnet == s
    ensures forall s :: s in plan.aggregateSubscribed <==> s in aggSubnets && s != own
    ensures Distinct(plan.voteDialed) && Distinct(plan.aggregateDialed)
    ensures SetOf(plan.voteDialed) !! SetOf(plan.aggregateDialed)
    ensures SetOf(plan.voteDialed) + SetOf(plan.aggregateDialed) !! stablePeers + {self}
    ensures forall s :: s in plan.dutySubnets || s in aggSubnets ==>
              Served(SetOf(order(s)), self, stablePeers, SetOf(plan.voteDialed) + SetOf(plan.aggregateDialed))
    ensures forall st: State, n: nat :: n !in st.rounds ==>
              Enabled(Stable({own}, stablePeers), st,
                      Register(n, Round(SetOf(plan.aggregateSubscribed),
                                        SetOf(plan.voteDialed) + SetOf(plan.aggregateDialed))))
  {
    var dutySubnets := ForeignSubnets(duties, own);
    var voteDialed, afterVotes := DialAll(dutySubnets, order, self, stablePeers, {});
    var aggregateDialed, afterAll := DialAll(aggSubnets, order, self, stablePeers, afterVotes);
    forall s | s in dutySubnets ensures Served(SetOf(order(s)), self, stablePeers, afterAll) {
      StillServed(SetOf(order(s)), self, stablePeers, afterVotes, afterAll);
    }
    var aggregateSubscribed := [];
    for i := 0 to |aggSubnets|
      invariant forall s :: s in aggregateSubscribed <==> s in aggSubnets[..i] && s != own
    {
      assert aggSubnets[..i + 1] == aggSubnets[..i] + [aggSubnets[i]];
      if aggSubnets[i] != own { aggregateSubscribed := aggregateSubscribed + [aggSubnets[i]]; }
    }
    assert aggSubnets[..|aggSubnets|] == aggSubnets;
    assert afterAll == SetOf(voteDialed) + SetOf(aggregateDialed);
    plan := PrejoinPlan(dutySubnets, voteDialed, aggregateSubscribed, aggregateDialed);
  }

  // ---------------------------------------------------------------- the vote burst

  function PositionsOn(duties: seq<Duty>, subnet: int): seq<int> {
    if duties == [] then []
    else PositionsOn(duties[..|duties| - 1], subnet)
         + if duties[|duties| - 1].subnet == subnet then [duties[|duties| - 1].position] else []
  }

  /** The partial burst sends every duty exactly once: own-subnet positions to the local manager, the
      others grouped into one fan-out batch per foreign subnet, both in duty order. */
  method SplitVotes(duties: seq<Duty>, own: int) returns (local: seq<int>, fanout: map<int, seq<int>>)
    ensures local == PositionsOn(duties, own)
    ensures own !in fanout
    ensures forall s :: s in fanout <==> s != own && exists d <- duties :: d.subnet == s
    ensures forall s <- fanout :: fanout[s] == PositionsOn(duties, s)
  {
    local, fanout := [], map[];
    for i := 0 to |duties|
      invariant local == PositionsOn(duties[..i], own)
      invariant own !in fanout
      invariant forall s :: s in fanout <==> s != own && exists d <- duties[..i] :: d.subnet == s
      invariant forall s <- fanout :: fanout[s] == PositionsOn(duties[..i], s)
    {
      var d := duties[i];
      assert duties[..i + 1] == duties[..i] + [d];
      assert duties[..i + 1][..i] == duties[..i];
      if d.subnet == own {
        local := local + [d.position];
      } else {
        if d.subnet !in fanout { NoPositions(duties[..i], d.subnet); }
        fanout := fanout[d.subnet := (if d.subnet in fanout then fanout[d.subnet] else []) + [d.position]];
      }
    }
    assert duties[..|duties|] == duties;
  }

  lemma {:induction false} NoPositions(duties: seq<Duty>, subnet: int)
    requires forall d <- duties :: d.subnet != subnet
    ensures PositionsOn(duties, subnet) == []
  {
    if duties != [] { NoPositions(duties[..|duties| - 1], subnet); }
  }
}
