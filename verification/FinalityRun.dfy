/** A whole run of one node's finality chain in driver/runner.go: the slot loop pre-joins, arms and
    reaps rounds, each round's vote and aggregation timers fire at their instants, and the node
    closes a drain window after its last slot.  The log holds everything it sends. */
module FinalityRun {
  import opened Arith
  import opened Positions
  import FR = FinalityRounds
  import FA = FinalityAggregates
  type Published = FA.Published

  // The run of one node: its plan and number, its own finality subnet, the transport, and the
  // timing in one unit (slot length, vote offset, aggregation percentage, time from the end of the
  // last slot to the close).
  datatype Setup = Setup(p: Plan, node: nat, own: int, partial: bool,
                         slotDur: nat, voteOffset: nat, fraction: nat, drain: nat)

  datatype Timer = Unset | Armed(due: nat) | Fired | Stopped

  // The finality state of one round; order is the iteration order its fan-out map had.
  datatype Final = Final(duties: seq<Duty>, aggSubnets: seq<nat>, vote: Timer, aggregate: Timer,
                         voteOnce: bool, aggregateOnce: bool, order: seq<int>)

  // One thing sent for a vote: a message of the classic transport, a vote given to the local
  // manager, or one fan-out batch.
  datatype Cast =
    | Message(round: nat, subnet: int, val: int)
    | Local(round: nat, subnet: int, position: int)
    | Fanout(round: nat, subnet: int, positions: seq<int>)

  // `rounds` holds every round registered, `live` the keys of the finals map, `pending` the
  // pre-joins kicked and not finished.
  datatype Runner = Runner(now: nat, begun: nat, ended: nat, pending: set<nat>, rounds: map<nat, Final>,
                           live: set<nat>, votes: seq<Cast>, aggregates: seq<Published>, closed: bool)

  datatype Event =
    | Begin | Register(n: nat) | EndSlot | FireVote(n: nat, order: seq<int>) | FireAggregate(n: nat)
    | Pass(to: nat) | Close

  // ---------------------------------------------------------------- instants

  function Slots(c: Setup): nat { |c.p.slots| }

  function K(c: Setup): nat { if Segregated(c.p) then 1 else c.p.k }

  // The start of a slot, and of a round.
  function SlotStart(c: Setup, slot: nat): nat { FR.First(c.slotDur, slot) }

  function RoundStart(c: Setup, n: nat): nat { SlotStart(c, FR.First(K(c), n)) }

  function AggOffset(c: Setup): nat { c.fraction * K(c) * c.slotDur / 100 }

  function VoteDue(c: Setup, n: nat): nat { RoundStart(c, n) + c.voteOffset }

  function AggDue(c: Setup, n: nat): nat { RoundStart(c, n) + AggOffset(c) }

  function CloseAt(c: Setup): nat { SlotStart(c, Slots(c)) + c.drain }

  // What the configuration enforces: a positive slot, 0 < fraction < 100, votes before the deadline.
  predicate Ok(c: Setup) {
    && WellFormed(c.p) && c.p.k > 0 && FA.Indexed(c.p)
    && c.slotDur > 0 && 0 < c.fraction < 100 && c.voteOffset < AggOffset(c)
  }

  // The rounds of the run: those that start within it.
  predicate InRun(c: Setup, n: nat) { FR.First(K(c), n) < Slots(c) }

  lemma {:induction false} FirstAdds(d: nat, a: nat, b: nat)
    ensures FR.First(d, a + b) == FR.First(d, a) + FR.First(d, b)
  {
    if b > 0 { FirstAdds(d, a, b - 1); }
  }

  // A round ends one round length after it starts, and both its timers are due before that.
  lemma DueInsideRound(c: Setup, n: nat)
    requires Ok(c)
    ensures VoteDue(c, n) < AggDue(c, n) < SlotStart(c, FR.First(K(c), n) + K(c))
  {
    var k, d := K(c), c.slotDur;
    FirstAdds(d, FR.First(k, n), k);
    FR.FirstIsMultiple(d, k);
    ShareIsLess(c.fraction, k * d);
    assert c.fraction * k * d == c.fraction * (k * d);
    assert 0 < k * d;
  }

  lemma ShareIsLess(f: nat, x: nat)
    requires f < 100 && x > 0
    ensures f * x / 100 < x
  {
    MulMono(f, 99, x);
    assert f * x <= 99 * x < 100 * x;
  }

  // ---------------------------------------------------------------- what is sent

  function Messages(n: nat, duties: seq<Duty>): seq<Cast> {
    seq(|duties|, i requires 0 <= i < |duties| => Message(n, duties[i].subnet, duties[i].val))
  }

  function Locals(n: nat, own: int, positions: seq<int>): seq<Cast> {
    seq(|positions|, i requires 0 <= i < |positions| => Local(n, own, positions[i]))
  }

  function Fanouts(n: nat, duties: seq<Duty>, order: seq<int>): seq<Cast> {
    seq(|order|, i requires 0 <= i < |order| => Fanout(n, order[i], FR.PositionsOn(duties, order[i])))
  }

  // The vote burst of one round.
  function Burst(c: Setup, n: nat, duties: seq<Duty>, order: seq<int>): seq<Cast> {
    if c.partial then Locals(n, c.own, FR.PositionsOn(duties, c.own)) + Fanouts(n, duties, order)
    else Messages(n, duties)
  }

  // Some iteration order of the fan-out map: every foreign duty subnet once.
  ghost predicate ListsForeign(order: seq<int>, duties: seq<Duty>, own: int) {
    FR.Distinct(order) && forall s :: s in order <==> s != own && exists d <- duties :: d.subnet == s
  }

  function AggregateBurst(n: nat, node: nat, subnets: seq<nat>): seq<Published> {
    seq(|subnets|, i requires 0 <= i < |subnets| => (n, subnets[i], node))
  }

  // ---------------------------------------------------------------- the step relation

  function Start(c: Setup): Runner {
    Runner(0, 0, 0, if Slots(c) > 0 then {0} else {}, map[], {}, [], [], false)
  }

  function Kicked(c: Setup, slot: nat): seq<FR.Kick>
    requires c.p.k > 0
  {
    FR.BeginSlot(Slots(c), K(c), slot)
  }

  function NewFinal(c: Setup, n: nat): Final
    requires WellFormed(c.p) && c.p.k > 0
  {
    Final(Duties(c.p, c.node, n, c.p.v), FA.Aggregated(c.p, c.node, n), Unset, Unset, false, false, [])
  }

  function Arm(c: Setup, f: Final, now: nat): Final {
    f.(vote := Armed(now + c.voteOffset),
       aggregate := if f.aggSubnets != [] then Armed(now + AggOffset(c)) else Unset)
  }

  function Stop(t: Timer): Timer { if t.Armed? then Stopped else t }

  predicate Due(t: Timer, now: nat) { t.Armed? && t.due <= now }

  ghost predicate Enabled(c: Setup, s: Runner, e: Event) {
    !s.closed &&
    match e
    case Begin => s.begun < Slots(c) && s.now == SlotStart(c, s.begun) && s.pending == {}
    case Register(n) => n in s.pending
    case EndSlot => s.ended < s.begun && s.now == SlotStart(c, s.ended + 1)
    case FireVote(n, order) =>
      n in s.rounds && Due(s.rounds[n].vote, s.now) && ListsForeign(order, s.rounds[n].duties, c.own)
    case FireAggregate(n) => n in s.rounds && Due(s.rounds[n].aggregate, s.now)
    case Pass(to) =>
      && s.now < to <= CloseAt(c)
      && (s.begun < Slots(c) ==> to <= SlotStart(c, s.begun))
      && (s.ended < s.begun ==> to <= SlotStart(c, s.ended + 1))
      && (forall n <- s.rounds ::
            && (s.rounds[n].vote.Armed? ==> to <= s.rounds[n].vote.due)
            && (s.rounds[n].aggregate.Armed? ==> to <= s.rounds[n].aggregate.due))
    case Close => s.begun == Slots(c) && s.now == CloseAt(c)
  }

  ghost function Next(c: Setup, s: Runner, e: Event): Runner
    requires WellFormed(c.p) && c.p.k > 0 && Enabled(c, s, e)
  {
    match e
    case Begin =>
      s.(begun := s.begun + 1,
         pending := (set kick <- Kicked(c, s.begun) | kick.Prejoin? :: kick.n),
         rounds := map n | n in s.rounds ::
           if n in s.live && FR.Arm(n) in Kicked(c, s.begun) then Arm(c, s.rounds[n], s.now) else s.rounds[n])
    case Register(n) =>
      s.(pending := s.pending - {n}, rounds := s.rounds[n := NewFinal(c, n)], live := s.live + {n})
    case EndSlot =>
      var reaped := FR.EndSlot(K(c), s.ended);
      s.(ended := s.ended + 1,
         live := (set n <- s.live | FR.ReapRound(n) !in reaped),
         rounds := map n | n in s.rounds ::
           if n in s.live && FR.ReapRound(n) in reaped
           then s.rounds[n].(vote := Stop(s.rounds[n].vote), aggregate := Stop(s.rounds[n].aggregate))
           else s.rounds[n])
    case FireVote(n, order) =>
      var f := s.rounds[n];
      s.(rounds := s.rounds[n := f.(vote := Fired, voteOnce := true, order := if f.voteOnce then f.order else order)],
         votes := s.votes + if f.voteOnce then [] else Burst(c, n, f.duties, order))
    case FireAggregate(n) =>
      var f := s.rounds[n];
      s.(rounds := s.rounds[n := f.(aggregate := Fired, aggregateOnce := true)],
         aggregates := s.aggregates + if f.aggregateOnce then [] else AggregateBurst(n, c.node, f.aggSubnets))
    case Pass(to) => s.(now := to)
    case Close => s.(closed := true)
  }

  ghost predicate IsRun(c: Setup, s: Runner, es: seq<Event>)
    requires WellFormed(c.p) && c.p.k > 0
    decreases |es|
  {
    es == [] || (Enabled(c, s, es[0]) && IsRun(c, Next(c, s, es[0]), es[1..]))
  }

  ghost function After(c: Setup, s: Runner, es: seq<Event>): Runner
    requires WellFormed(c.p) && c.p.k > 0 && IsRun(c, s, es)
    decreases |es|
  {
    if es == [] then s else After(c, Next(c, s, es[0]), es[1..])
  }

  // ---------------------------------------------------------------- what every step keeps

  function VotesIn(log: seq<Cast>, n: nat): seq<Cast> {
    if log == [] then []
    else VotesIn(log[..|log| - 1], n) + if log[|log| - 1].round == n then [log[|log| - 1]] else []
  }

  function AggregatesIn(log: seq<Published>, n: nat): seq<Published> {
    if log == [] then []
    else AggregatesIn(log[..|log| - 1], n) + if log[|log| - 1].0 == n then [log[|log| - 1]] else []
  }

  // Nothing is overdue.
  ghost predicate OnClock(c: Setup, s: Runner) {
    && s.ended <= s.begun <= Slots(c) && s.now <= CloseAt(c)
    && (s.begun < Slots(c) ==> s.now <= SlotStart(c, s.begun))
    && (s.ended < s.begun ==> s.now <= SlotStart(c, s.ended + 1))
    && (s.closed ==> s.begun == Slots(c) && s.now == CloseAt(c))
  }

  // A round of the run is pre-joined by the slot before its first, and live until its last ends.
  ghost predicate Registered(c: Setup, s: Runner) {
    && s.pending !! s.rounds.Keys
    && (forall n: nat :: n in s.pending || n in s.rounds <==> InRun(c, n) && FR.First(K(c), n) <= s.begun)
    && (forall n <- s.pending :: s.begun <= FR.First(K(c), n))
    && (forall n: nat :: n in s.live <==> n in s.rounds && s.ended < FR.First(K(c), n) + K(c))
  }

  // An armed timer is due at its instant, and has fired once that is past; its once says so.
  predicate TimerOk(t: Timer, once: bool, armed: bool, due: nat, now: nat) {
    if !armed then t == Unset && !once
    else (t == Armed(due) && !once && now <= due) || (t == Fired && once && due <= now)
  }

  ghost predicate RoundOk(c: Setup, begun: nat, now: nat, n: nat, f: Final)
    requires WellFormed(c.p) && c.p.k > 0
  {
    && f.duties == Duties(c.p, c.node, n, c.p.v) && f.aggSubnets == FA.Aggregated(c.p, c.node, n)
    && TimerOk(f.vote, f.voteOnce, FR.First(K(c), n) < begun, VoteDue(c, n), now)
    && TimerOk(f.aggregate, f.aggregateOnce, FR.First(K(c), n) < begun && f.aggSubnets != [], AggDue(c, n), now)
    && (f.voteOnce ==> ListsForeign(f.order, f.duties, c.own))
  }

  ghost predicate RoundsOk(c: Setup, begun: nat, now: nat, rounds: map<nat, Final>)
    requires WellFormed(c.p) && c.p.k > 0
  {
    forall n <- rounds :: RoundOk(c, begun, now, n, rounds[n])
  }

  ghost predicate VotesLogged(c: Setup, rounds: map<nat, Final>, votes: seq<Cast>) {
    forall n: nat {:trigger VotesIn(votes, n)} ::
      VotesIn(votes, n) == if n in rounds && rounds[n].voteOnce then Burst(c, n, rounds[n].duties, rounds[n].order) else []
  }

  ghost predicate AggregatesLogged(c: Setup, rounds: map<nat, Final>, aggregates: seq<Published>) {
    forall n: nat {:trigger AggregatesIn(aggregates, n)} ::
      AggregatesIn(aggregates, n) ==
        if n in rounds && rounds[n].aggregateOnce then AggregateBurst(n, c.node, rounds[n].aggSubnets) else []
  }

  ghost predicate LogsOk(c: Setup, s: Runner) {
    VotesLogged(c, s.rounds, s.votes) && AggregatesLogged(c, s.rounds, s.aggregates)
  }

  ghost predicate Inv(c: Setup, s: Runner)
    requires WellFormed(c.p) && c.p.k > 0
  {
    OnClock(c, s) && Registered(c, s) && RoundsOk(c, s.begun, s.now, s.rounds) && LogsOk(c, s)
  }

  // ---------------------------------------------------------------- the logs, round by round

  lemma {:induction false} VotesInConcat(a: seq<Cast>, b: seq<Cast>, n: nat)
    ensures VotesIn(a + b, n) == VotesIn(a, n) + VotesIn(b, n)
  {
    if b == [] {
      assert a + b == a;
    } else {
      assert (a + b)[..|a + b| - 1] == a + b[..|b| - 1];
      VotesInConcat(a, b[..|b| - 1], n);
    }
  }

  lemma {:induction false} VotesOfOneRound(b: seq<Cast>, m: nat, n: nat)
    requires forall w <- b :: w.round == m
    ensures VotesIn(b, n) == if n == m then b else []
  {
    if b != [] {
      VotesOfOneRound(b[..|b| - 1], m, n);
      assert b == b[..|b| - 1] + [b[|b| - 1]];
    }
  }

  lemma {:induction false} AggregatesInConcat(a: seq<Published>, b: seq<Published>, n: nat)
    ensures AggregatesIn(a + b, n) == AggregatesIn(a, n) + AggregatesIn(b, n)
  {
    if b == [] {
      assert a + b == a;
    } else {
      assert (a + b)[..|a + b| - 1] == a + b[..|b| - 1];
      AggregatesInConcat(a, b[..|b| - 1], n);
    }
  }

  lemma {:induction false} AggregatesOfOneRound(b: seq<Published>, m: nat, n: nat)
    requires forall x <- b :: x.0 == m
    ensures AggregatesIn(b, n) == if n == m then b else []
  {
    if b != [] {
      AggregatesOfOneRound(b[..|b| - 1], m, n);
      assert b == b[..|b| - 1] + [b[|b| - 1]];
    }
  }

  lemma BurstRound(c: Setup, m: nat, duties: seq<Duty>, order: seq<int>)
    ensures forall w <- Burst(c, m, duties, order) :: w.round == m
  {
  }

  // ---------------------------------------------------------------- every step

  lemma StartInv(c: Setup)
    requires Ok(c)
    ensures Inv(c, Start(c))
  {
    forall n: nat ensures n > 0 ==> FR.First(K(c), n) > 0 { if n > 0 { FR.FirstMonotone(K(c), 0, n); } }
  }

  // Begin and end kicks by round.
  lemma KickedWhen(c: Setup, slot: nat, n: nat)
    requires Ok(c)
    ensures FR.Arm(n) in Kicked(c, slot) <==> slot == FR.First(K(c), n)
    ensures FR.Prejoin(n) in Kicked(c, slot) <==> slot + 1 == FR.First(K(c), n) && InRun(c, n)
    ensures FR.ReapRound(n) in FR.EndSlot(K(c), slot) <==> slot + 1 == FR.First(K(c), n) + K(c)
  {
    FR.BoundaryIs(slot, n, K(c));
    FR.BoundaryIs(slot + 1, n, K(c));
    FR.LastSlotIs(slot, n, K(c));
    FR.RoundStartsInRun(Slots(c), K(c), n);
  }

  lemma SlotStartsGrow(c: Setup, a: nat, b: nat)
    requires a <= b
    ensures SlotStart(c, a) <= SlotStart(c, b)
    ensures a < b ==> SlotStart(c, a) + c.slotDur <= SlotStart(c, b)
  {
    if a < b { FR.FirstMonotone(c.slotDur, a, b); }
  }

  lemma BeginKeepsClock(c: Setup, s: Runner)
    requires Ok(c) && OnClock(c, s) && Enabled(c, s, Begin)
    ensures OnClock(c, Next(c, s, Begin))
  {
    SlotStartsGrow(c, s.begun, s.begun + 1);
  }

  lemma BeginKeepsRegistered(c: Setup, s: Runner)
    requires Ok(c) && Registered(c, s) && Enabled(c, s, Begin)
    ensures Registered(c, Next(c, s, Begin))
  {
    var t := Next(c, s, Begin);
    forall n: nat
      ensures n in t.pending <==> FR.First(K(c), n) == s.begun + 1 && InRun(c, n)
    {
      KickedWhen(c, s.begun, n);
      if n in t.pending {
        var kick :| kick in Kicked(c, s.begun) && kick.Prejoin? && kick.n == n;
        assert kick == FR.Prejoin(n);
      }
    }
  }

  lemma BeginKeepsRound(c: Setup, s: Runner, n: nat)
    requires Ok(c) && Registered(c, s) && Enabled(c, s, Begin) && n in s.rounds
    requires s.ended <= s.begun && RoundOk(c, s.begun, s.now, n, s.rounds[n])
    ensures RoundOk(c, s.begun + 1, s.now, n, Next(c, s, Begin).rounds[n])
  {
    KickedWhen(c, s.begun, n);
    assert Next(c, s, Begin).rounds[n] == if FR.First(K(c), n) == s.begun then Arm(c, s.rounds[n], s.now) else s.rounds[n];
  }

  lemma BeginKeepsInv(c: Setup, s: Runner)
    requires Ok(c) && Inv(c, s) && Enabled(c, s, Begin)
    ensures Inv(c, Next(c, s, Begin))
  {
    var t := Next(c, s, Begin);
    BeginKeepsClock(c, s);
    BeginKeepsRegistered(c, s);
    forall n <- t.rounds ensures RoundOk(c, t.begun, t.now, n, t.rounds[n]) { BeginKeepsRound(c, s, n); }
    forall n: nat ensures n in s.rounds ==> t.rounds[n].voteOnce == s.rounds[n].voteOnce { }
    assert LogsOk(c, t);
  }

  lemma RegisterKeepsInv(c: Setup, s: Runner, n: nat)
    requires Ok(c) && Inv(c, s) && Enabled(c, s, Register(n))
    ensures Inv(c, Next(c, s, Register(n)))
  {
    var t := Next(c, s, Register(n));
    forall m <- t.rounds ensures RoundOk(c, t.begun, t.now, m, t.rounds[m]) { if m != n { assert RoundOk(c, s.begun, s.now, m, s.rounds[m]); } }
    assert LogsOk(c, t);
  }

  // A reaped round's timers have fired: both were due before its end.
  lemma EndKeepsRound(c: Setup, s: Runner, n: nat)
    requires Ok(c) && Enabled(c, s, EndSlot) && n in s.rounds && RoundOk(c, s.begun, s.now, n, s.rounds[n])
    ensures Next(c, s, EndSlot).rounds[n] == s.rounds[n]
  {
    KickedWhen(c, s.ended, n);
    DueInsideRound(c, n);
  }

  lemma EndKeepsRegistered(c: Setup, s: Runner)
    requires Ok(c) && Registered(c, s) && Enabled(c, s, EndSlot)
    ensures Registered(c, Next(c, s, EndSlot))
  {
    forall n: nat { KickedWhen(c, s.ended, n); }
  }

  lemma EndKeepsInv(c: Setup, s: Runner)
    requires Ok(c) && Inv(c, s) && Enabled(c, s, EndSlot)
    ensures Inv(c, Next(c, s, EndSlot))
  {
    var t := Next(c, s, EndSlot);
    SlotStartsGrow(c, s.ended + 1, s.ended + 2);
    EndKeepsRegistered(c, s);
    forall n <- t.rounds ensures RoundOk(c, t.begun, t.now, n, t.rounds[n]) { EndKeepsRound(c, s, n); }
    forall n: nat ensures n in s.rounds ==> t.rounds[n].voteOnce == s.rounds[n].voteOnce { }
    assert LogsOk(c, t);
  }

  lemma BurstLogged(c: Setup, rounds: map<nat, Final>, votes: seq<Cast>, n: nat, f: Final)
    requires VotesLogged(c, rounds, votes) && n in rounds && !rounds[n].voteOnce && f.voteOnce
    ensures VotesLogged(c, rounds[n := f], votes + Burst(c, n, f.duties, f.order))
  {
    var burst := Burst(c, n, f.duties, f.order);
    BurstRound(c, n, f.duties, f.order);
    forall m: nat
      ensures VotesIn(votes + burst, m) == VotesIn(votes, m) + if m == n then burst else []
    {
      VotesInConcat(votes, burst, m);
      VotesOfOneRound(burst, n, m);
    }
    assert VotesIn(votes, n) == [];
  }

  // A firing changes one round.
  lemma OtherRoundsOk(c: Setup, s: Runner, n: nat, f: Final)
    requires Ok(c) && RoundsOk(c, s.begun, s.now, s.rounds)
    requires n in s.rounds && RoundOk(c, s.begun, s.now, n, f)
    ensures RoundsOk(c, s.begun, s.now, s.rounds[n := f])
  {
  }

  lemma FireVoteKeepsInv(c: Setup, s: Runner, n: nat, order: seq<int>)
    requires Ok(c) && Inv(c, s) && Enabled(c, s, FireVote(n, order))
    ensures Inv(c, Next(c, s, FireVote(n, order)))
  {
    var f, t := s.rounds[n], Next(c, s, FireVote(n, order));
    assert RoundOk(c, s.begun, s.now, n, f);
    BurstLogged(c, s.rounds, s.votes, n, t.rounds[n]);
    OtherRoundsOk(c, s, n, t.rounds[n]);
    assert AggregatesLogged(c, t.rounds, t.aggregates);
  }

  lemma AggregatesBurstLogged(c: Setup, rounds: map<nat, Final>, aggregates: seq<Published>, n: nat, f: Final)
    requires AggregatesLogged(c, rounds, aggregates) && n in rounds && !rounds[n].aggregateOnce && f.aggregateOnce
    ensures AggregatesLogged(c, rounds[n := f], aggregates + AggregateBurst(n, c.node, f.aggSubnets))
  {
    var burst := AggregateBurst(n, c.node, f.aggSubnets);
    forall m: nat
      ensures AggregatesIn(aggregates + burst, m) == AggregatesIn(aggregates, m) + if m == n then burst else []
    {
      AggregatesInConcat(aggregates, burst, m);
      AggregatesOfOneRound(burst, n, m);
    }
    assert AggregatesIn(aggregates, n) == [];
  }

  lemma FireAggregateKeepsInv(c: Setup, s: Runner, n: nat)
    requires Ok(c) && Inv(c, s) && Enabled(c, s, FireAggregate(n))
    ensures Inv(c, Next(c, s, FireAggregate(n)))
  {
    var f, t := s.rounds[n], Next(c, s, FireAggregate(n));
    assert RoundOk(c, s.begun, s.now, n, f);
    AggregatesBurstLogged(c, s.rounds, s.aggregates, n, t.rounds[n]);
    OtherRoundsOk(c, s, n, t.rounds[n]);
    assert VotesLogged(c, t.rounds, t.votes);
  }

  lemma PassKeepsInv(c: Setup, s: Runner, to: nat)
    requires Ok(c) && Inv(c, s) && Enabled(c, s, Pass(to))
    ensures Inv(c, Next(c, s, Pass(to)))
  {
    var t := Next(c, s, Pass(to));
    forall n <- t.rounds ensures RoundOk(c, t.begun, t.now, n, t.rounds[n]) { assert RoundOk(c, s.begun, s.now, n, s.rounds[n]); }
    assert LogsOk(c, t);
  }

  lemma CloseKeepsInv(c: Setup, s: Runner)
    requires Ok(c) && Inv(c, s) && Enabled(c, s, Close)
    ensures Inv(c, Next(c, s, Close))
  {
    var t := Next(c, s, Close);
    forall n <- t.rounds ensures RoundOk(c, t.begun, t.now, n, t.rounds[n]) { assert RoundOk(c, s.begun, s.now, n, s.rounds[n]); }
    assert LogsOk(c, t);
  }

  lemma StepKeepsInv(c: Setup, s: Runner, e: Event)
    requires Ok(c) && Inv(c, s) && Enabled(c, s, e)
    ensures Inv(c, Next(c, s, e))
  {
    match e
    case Begin => BeginKeepsInv(c, s);
    case Register(n) => RegisterKeepsInv(c, s, n);
    case EndSlot => EndKeepsInv(c, s);
    case FireVote(n, order) => FireVoteKeepsInv(c, s, n, order);
    case FireAggregate(n) => FireAggregateKeepsInv(c, s, n);
    case Pass(to) => PassKeepsInv(c, s, to);
    case Close => CloseKeepsInv(c, s);
  }

  lemma {:induction false} RunKeepsInv(c: Setup, s: Runner, es: seq<Event>)
    requires Ok(c) && Inv(c, s) && IsRun(c, s, es)
    ensures Inv(c, After(c, s, es))
    decreases |es|
  {
    if es != [] {
      StepKeepsInv(c, s, es[0]);
      RunKeepsInv(c, Next(c, s, es[0]), es[1..]);
    }
  }

  /** Timers fire at their instants, on every run and in both modes: the vote burst of round n exactly
      the vote offset after the round's start, its aggregates exactly the configured share of the round
      after it. */
  lemma TimersFireAtTheirInstants(c: Setup, es: seq<Event>, e: Event)
    requires Ok(c) && IsRun(c, Start(c), es) && (e.FireVote? || e.FireAggregate?)
    requires Enabled(c, After(c, Start(c), es), e)
    ensures var (s, k) := (After(c, Start(c), es), if |c.p.roundOf| > 0 then 1 else c.p.k);
            && (e.FireVote? ==> s.now == e.n * k * c.slotDur + c.voteOffset && !s.rounds[e.n].voteOnce)
            && (e.FireAggregate? ==> s.now == e.n * k * c.slotDur + c.fraction * k * c.slotDur / 100 && !s.rounds[e.n].aggregateOnce)
  {
    StartInv(c);
    RunKeepsInv(c, Start(c), es);
    var s := After(c, Start(c), es);
    assert RoundOk(c, s.begun, s.now, e.n, s.rounds[e.n]);
    FR.FirstIsMultiple(K(c), e.n);
    FR.FirstIsMultiple(c.slotDur, FR.First(K(c), e.n));
  }
}
