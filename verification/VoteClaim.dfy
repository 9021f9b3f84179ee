/** One slot's vote claim in driver/runner.go with the rule of driver/coupling.go: block, custody
    columns, payload and deadlines race for at most one gated vote, one sync vote and one burst of
    payload-timeliness votes.  Each handler is one atomic step at a time instant. */
module VoteClaim {

  // attest stands for either column-gated vote, the attestation or the AC vote; epbs starts the
  // column gate open.  Time 0 is Go's zero time.
  datatype Config = Config(attest: bool, sync: bool, epbs: bool, ptc: bool,
                           prep: nat, deadline: nat, custody: set<int>)

  datatype Event =
    | Block(now: nat, origin: int)             // a received block, or the proposer's own consensus block
    | OwnBlock(now: nat, origin: int)          // the tail of publishBlock: custody marked, block seen
    | Column(now: nat, col: int)
    | Payload(now: nat)
    | OwnPayload(now: nat)                     // the tail of publishExecutionPayload
    | Deadline(now: nat)
    | PTCDue(now: nat)

  // A published vote: when, whether for the slot's block, and the block's origin (-1: prior head).
  datatype Vote = Vote(at: int, block: bool, origin: int)
  datatype PTCVote = PTCVote(at: int, present: bool)

  // blockSeen*, payloadSeen; haveColumn, columnsComplete*; a vote's claim and what it published.
  datatype Seen = Seen(block: bool, at: nat, origin: int, payload: bool)
  datatype Gate = Gate(have: set<int>, complete: bool, completeAt: nat)
  datatype Claim = Claim(voted: bool, forBlock: bool, out: seq<Vote>)
  datatype PTC = PTC(done: bool, out: seq<PTCVote>)
  datatype Slot = Slot(seen: Seen, gate: Gate, gated: Claim, sync: Claim, ptc: PTC)

  function Setup(c: Config): Slot {
    Slot(Seen(false, 0, 0, false), Gate({}, c.custody == {} || c.epbs, 0),
         Claim(false, false, []), Claim(false, false, []), PTC(false, []))
  }

  function Later(a: nat, b: nat): nat { if b > a then b else a }

  // Emit at min(processed + prep, deadline), for the block iff that is processed + prep.
  function EmitDecision(seen: bool, processed: nat, deadline: nat, prep: nat): (nat, bool) {
    if seen && processed + prep <= deadline then (processed + prep, true) else (deadline, false)
  }

  // A claim made early is emitted when its instant comes, or at once when that has passed.
  function EmitTime(now: nat, emitAt: nat): nat { if emitAt > now then emitAt else now }

  // The early claim both votes share, with the readiness each feeds it.
  function EarlyClaim(c: Config, claim: Claim, ready: bool, processed: nat, now: nat, origin: int): Claim {
    if claim.voted then claim
    else
      var (emitAt, block) := EmitDecision(ready, processed, c.deadline, c.prep);
      if !block then claim else Claim(true, true, claim.out + [Vote(EmitTime(now, emitAt), true, origin)])
  }

  function TryEarlyEmit(c: Config, seen: Seen, gate: Gate, claim: Claim, now: nat): Claim {
    if !c.attest then claim
    else EarlyClaim(c, claim, seen.block && gate.complete, Later(seen.at, gate.completeAt), now, seen.origin)
  }

  function TrySyncEmit(c: Config, seen: Seen, claim: Claim, now: nat): Claim {
    if !c.sync then claim else EarlyClaim(c, claim, seen.block, seen.at, now, seen.origin)
  }

  function DeadlineClaim(on: bool, claim: Claim, now: nat): Claim {
    if !on || claim.voted then claim else Claim(true, false, claim.out + [Vote(now, false, -1)])
  }

  function NextSeen(seen: Seen, e: Event): Seen {
    match e
    case Block(now, origin) => if seen.block then seen else Seen(true, now, origin, seen.payload)
    case OwnBlock(now, origin) => if seen.block then seen else Seen(true, now, origin, seen.payload)
    case Payload(_) => seen.(payload := true)
    case OwnPayload(_) => seen.(payload := true)
    case _ => seen
  }

  function NextGate(c: Config, gate: Gate, e: Event): Gate {
    match e
    case OwnBlock(now, _) => if gate.complete then gate else Gate(gate.have, true, now)
    case Column(now, col) =>
      if col in gate.have then gate
      else
        var have := gate.have + {col};
        if gate.complete || |have| != |c.custody| then Gate(have, gate.complete, gate.completeAt)
        else Gate(have, true, now)
    case OwnPayload(_) => gate.(have := gate.have + c.custody)
    case _ => gate
  }

  // The gated claim is attempted on every block event and when a column completes the gate.
  function NextGated(c: Config, seen: Seen, gate: Gate, wasComplete: bool, claim: Claim, e: Event): Claim {
    match e
    case Block(now, _) => TryEarlyEmit(c, seen, gate, claim, now)
    case OwnBlock(now, _) => TryEarlyEmit(c, seen, gate, claim, now)
    case Column(now, _) => if gate.complete && !wasComplete then TryEarlyEmit(c, seen, gate, claim, now) else claim
    case Deadline(now) => DeadlineClaim(c.attest, claim, now)
    case _ => claim
  }

  function NextSync(c: Config, seen: Seen, claim: Claim, e: Event): Claim {
    match e
    case Block(now, _) => TrySyncEmit(c, seen, claim, now)
    case OwnBlock(now, _) => TrySyncEmit(c, seen, claim, now)
    case Deadline(now) => DeadlineClaim(c.sync, claim, now)
    case _ => claim
  }

  function NextPTC(c: Config, seen: Seen, gate: Gate, ptc: PTC, e: Event): PTC {
    if !e.PTCDue? || !c.ptc || ptc.done then ptc
    else if !seen.block then PTC(true, ptc.out)
    else PTC(true, ptc.out + [PTCVote(e.now, seen.payload && |gate.have| == |c.custody|)])
  }

  function Step(c: Config, s: Slot, e: Event): Slot {
    var seen, gate := NextSeen(s.seen, e), NextGate(c, s.gate, e);
    Slot(seen, gate, NextGated(c, seen, gate, s.gate.complete, s.gated, e),
         NextSync(c, seen, s.sync, e), NextPTC(c, seen, gate, s.ptc, e))
  }

  function After(c: Config, es: seq<Event>): Slot {
    if es == [] then Setup(c) else Step(c, After(c, es[..|es| - 1]), es[|es| - 1])
  }

  function Last(es: seq<Event>): Event
    requires es != []
  {
    es[|es| - 1]
  }

  function Front(es: seq<Event>): seq<Event>
    requires es != []
  {
    es[..|es| - 1]
  }

  // ---------------------------------------------------------------- the pure rule

  predicate IsBlock(e: Event) { e.Block? || e.OwnBlock? }

  predicate BlockBy(es: seq<Event>, t: int) {
    exists i :: 0 <= i < |es| && IsBlock(es[i]) && es[i].now <= t
  }

  predicate ColumnBy(es: seq<Event>, col: int, t: int) {
    exists i :: 0 <= i < |es| && es[i].Column? && es[i].col == col && es[i].now <= t
  }

  predicate OwnBlockBy(es: seq<Event>, t: int) {
    exists i :: 0 <= i < |es| && es[i].OwnBlock? && es[i].now <= t
  }

  // Every custody column is in by t: there is none to wait for, the node made them, or they came.
  predicate CustodyBy(c: Config, es: seq<Event>, t: int) {
    c.epbs || c.custody == {} || OwnBlockBy(es, t) || forall col <- c.custody :: ColumnBy(es, col, t)
  }

  // The declarative rule: block and custody are both in by t.
  predicate ReadyBy(c: Config, es: seq<Event>, t: int) {
    BlockBy(es, t) && CustodyBy(c, es, t)
  }

  predicate InOrder(es: seq<Event>) {
    forall i, j :: 0 <= i < j < |es| ==> es[i].now <= es[j].now
  }

  // The node is subscribed to its custody columns only.
  predicate CustodyOnly(c: Config, es: seq<Event>) {
    forall e <- es :: e.Column? ==> e.col in c.custody
  }

  predicate NoDeadline(es: seq<Event>) { forall e <- es :: !e.Deadline? }

  // The legacy block carries the columns; the payload of a two-phase send exists under ePBS alone.
  predicate Legal(c: Config, es: seq<Event>) {
    InOrder(es) && CustodyOnly(c, es) && forall e <- es :: e.OwnPayload? ==> c.epbs
  }

  // ---------------------------------------------------------------- what the state records

  lemma LegalFront(c: Config, es: seq<Event>)
    requires es != [] && Legal(c, es)
    ensures Legal(c, Front(es))
    ensures NoDeadline(es) ==> NoDeadline(Front(es))
    ensures forall i :: 0 <= i < |es| - 1 ==> Front(es)[i] == es[i] && es[i].now <= Last(es).now
  {
    forall e | e in Front(es) ensures e in es { }
  }

  lemma BlockSnoc(es: seq<Event>, t: int)
    requires es != []
    ensures BlockBy(es, t) <==> (BlockBy(Front(es), t) || (IsBlock(Last(es)) && Last(es).now <= t))
  {
    if BlockBy(Front(es), t) {
      var i :| 0 <= i < |Front(es)| && IsBlock(Front(es)[i]) && Front(es)[i].now <= t;
      assert es[i] == Front(es)[i];
    }
    if BlockBy(es, t) {
      var i :| 0 <= i < |es| && IsBlock(es[i]) && es[i].now <= t;
      assert i < |es| - 1 ==> Front(es)[i] == es[i];
    }
  }

  lemma OwnBlockSnoc(es: seq<Event>, t: int)
    requires es != []
    ensures OwnBlockBy(es, t) <==> (OwnBlockBy(Front(es), t) || (Last(es).OwnBlock? && Last(es).now <= t))
  {
    if OwnBlockBy(Front(es), t) {
      var i :| 0 <= i < |Front(es)| && Front(es)[i].OwnBlock? && Front(es)[i].now <= t;
      assert es[i] == Front(es)[i];
    }
    if OwnBlockBy(es, t) {
      var i :| 0 <= i < |es| && es[i].OwnBlock? && es[i].now <= t;
      assert i < |es| - 1 ==> Front(es)[i] == es[i];
    }
  }

  lemma ColumnSnoc(es: seq<Event>, col: int, t: int)
    requires es != []
    ensures ColumnBy(es, col, t) <==>
              (ColumnBy(Front(es), col, t) || (Last(es).Column? && Last(es).col == col && Last(es).now <= t))
  {
    if ColumnBy(Front(es), col, t) {
      var i :| 0 <= i < |Front(es)| && Front(es)[i].Column? && Front(es)[i].col == col && Front(es)[i].now <= t;
      assert es[i] == Front(es)[i];
    }
    if ColumnBy(es, col, t) {
      var i :| 0 <= i < |es| && es[i].Column? && es[i].col == col && es[i].now <= t;
      assert i < |es| - 1 ==> Front(es)[i] == es[i];
    }
  }

  // What is recorded happened no later than the last event.
  lemma {:induction false} RecordsArePast(c: Config, es: seq<Event>)
    requires es != [] && Legal(c, es)
    ensures After(c, es).seen.block ==> After(c, es).seen.at <= Last(es).now
    ensures After(c, es).gate.complete ==> After(c, es).gate.completeAt <= Last(es).now
    decreases |es|
  {
    LegalFront(c, es);
    if |es| > 1 {
      RecordsArePast(c, Front(es));
      assert Front(es)[|es| - 2] == es[|es| - 2];
    }
  }

  lemma {:induction false} BlockTracked(c: Config, es: seq<Event>, t: int)
    requires Legal(c, es)
    ensures BlockBy(es, t) <==> (After(c, es).seen.block && After(c, es).seen.at <= t)
    decreases |es|
  {
    if es != [] {
      LegalFront(c, es);
      BlockTracked(c, Front(es), t);
      BlockSnoc(es, t);
      RecordsArePast(c, es);
    }
  }

  // Outside ePBS the columns held are exactly those that arrived, all of them custody columns.
  lemma {:induction false} ColumnsTracked(c: Config, es: seq<Event>, t: int)
    requires Legal(c, es) && !c.epbs
    requires forall e <- es :: e.now <= t
    ensures After(c, es).gate.have <= c.custody
    ensures forall col :: col in After(c, es).gate.have <==> ColumnBy(es, col, t)
    decreases |es|
  {
    if es != [] {
      LegalFront(c, es);
      ColumnsTracked(c, Front(es), t);
      assert Last(es) in es;
      forall col ensures col in After(c, es).gate.have <==> ColumnBy(es, col, t) {
        ColumnSnoc(es, col, t);
      }
    }
  }

  lemma EqualCards(a: set<int>, b: set<int>)
    requires a <= b && |a| == |b|
    ensures a == b
  {
    assert b == a + (b - a);
  }

  // While the gate is closed a custody column is missing; the count cannot be reached without it.
  lemma {:induction false} ClosedGateMisses(c: Config, es: seq<Event>)
    requires Legal(c, es) && !c.epbs
    ensures !After(c, es).gate.complete ==> After(c, es).gate.have != c.custody && forall e <- es :: !e.OwnBlock?
    decreases |es|
  {
    if es != [] {
      LegalFront(c, es);
      ClosedGateMisses(c, Front(es));
      if !After(c, es).gate.complete {
        forall e | e in es ensures !e.OwnBlock? { assert e in Front(es) || e == Last(es); }
      }
    }
  }

  lemma {:induction false} CustodyTracked(c: Config, es: seq<Event>, t: int)
    requires Legal(c, es) && t >= 0
    ensures CustodyBy(c, es, t) <==> (After(c, es).gate.complete && After(c, es).gate.completeAt <= t)
    decreases |es|
  {
    if c.epbs || c.custody == {} {
      OpenGate(c, es);
    } else if es == [] {
      if CustodyBy(c, es, t) {
        forall col ensures col !in c.custody { assert !ColumnBy(es, col, t); }
      }
    } else {
      LegalFront(c, es);
      CustodyTracked(c, Front(es), t);
      var s, n := After(c, Front(es)), After(c, es);
      RecordsArePast(c, es);
      if Last(es).now > t {
        LateEventAddsNothing(c, es, t);
      } else if n.gate.complete {
        if s.gate.complete { CustodyGrows(c, es, t); } else { GateOpens(c, es, t); }
      } else {
        GateStaysShut(c, es, t);
      }
    }
  }

  lemma {:induction false} OpenGate(c: Config, es: seq<Event>)
    requires c.epbs || c.custody == {}
    ensures After(c, es).gate.complete && After(c, es).gate.completeAt == 0
    decreases |es|
  {
    if es != [] {
      OpenGate(c, Front(es));
    }
  }

  lemma LateEventAddsNothing(c: Config, es: seq<Event>, t: int)
    requires es != [] && Last(es).now > t
    ensures CustodyBy(c, es, t) <==> CustodyBy(c, Front(es), t)
  {
    OwnBlockSnoc(es, t);
    forall col | col in c.custody ensures ColumnBy(es, col, t) <==> ColumnBy(Front(es), col, t) {
      ColumnSnoc(es, col, t);
    }
  }

  lemma CustodyGrows(c: Config, es: seq<Event>, t: int)
    requires es != [] && CustodyBy(c, Front(es), t)
    ensures CustodyBy(c, es, t)
  {
    OwnBlockSnoc(es, t);
    forall col | col in c.custody ensures ColumnBy(Front(es), col, t) ==> ColumnBy(es, col, t) {
      ColumnSnoc(es, col, t);
    }
  }

  lemma AllPast(es: seq<Event>, t: int)
    requires es != [] && InOrder(es) && Last(es).now <= t
    ensures forall e <- es :: e.now <= t
  {
  }

  lemma GateOpens(c: Config, es: seq<Event>, t: int)
    requires es != [] && Legal(c, es) && !c.epbs && c.custody != {} && Last(es).now <= t
    requires After(c, es).gate.complete && !After(c, Front(es)).gate.complete
    ensures CustodyBy(c, es, t)
  {
    OwnBlockSnoc(es, t);
    AllPast(es, t);
    ColumnsTracked(c, es, t);
    if !Last(es).OwnBlock? {
      EqualCards(After(c, es).gate.have, c.custody);
    }
  }

  lemma GateStaysShut(c: Config, es: seq<Event>, t: int)
    requires es != [] && Legal(c, es) && !c.epbs && c.custody != {} && Last(es).now <= t
    requires !After(c, es).gate.complete
    ensures !CustodyBy(c, es, t)
  {
    AllPast(es, t);
    ColumnsTracked(c, es, t);
    ClosedGateMisses(c, es);
    forall i | 0 <= i < |es| ensures !es[i].OwnBlock? { assert es[i] in es; }
    if CustodyBy(c, es, t) {
      forall col | col in c.custody ensures col in After(c, es).gate.have { assert ColumnBy(es, col, t); }
    }
  }

  // ---------------------------------------------------------------- before the deadline

  predicate InTime(c: Config, s: Slot) {
    s.seen.block && s.gate.complete && Later(s.seen.at, s.gate.completeAt) + c.prep <= c.deadline
  }

  function ReadyVote(c: Config, s: Slot): Vote {
    Vote(Later(s.seen.at, s.gate.completeAt) + c.prep, true, s.seen.origin)
  }

  // The claim is made at the very event that makes the node ready in time.
  predicate Claimed(c: Config, s: Slot) {
    && s.gated.voted == InTime(c, s)
    && s.gated.forBlock == InTime(c, s)
    && s.gated.out == (if InTime(c, s) then [ReadyVote(c, s)] else [])
  }

  lemma StepClaims(c: Config, s: Slot, e: Event)
    requires c.attest && !e.Deadline? && Claimed(c, s)
    requires s.seen.block ==> s.seen.at <= e.now
    requires s.gate.complete ==> s.gate.completeAt <= e.now
    ensures Claimed(c, Step(c, s, e))
  {
  }

  lemma {:induction false} ClaimedBeforeDeadline(c: Config, es: seq<Event>)
    requires c.attest && Legal(c, es) && NoDeadline(es)
    ensures Claimed(c, After(c, es))
    decreases |es|
  {
    if es != [] {
      LegalFront(c, es);
      ClaimedBeforeDeadline(c, Front(es));
      if |es| > 1 {
        RecordsArePast(c, Front(es));
        assert Front(es)[|es| - 2] == es[|es| - 2];
      } else {
        assert Front(es) == [];
      }
      assert Last(es) in es;
      StepClaims(c, After(c, Front(es)), Last(es));
    }
  }

  lemma {:induction false} VoteIsFinal(c: Config, before: seq<Event>, post: seq<Event>)
    requires c.attest && After(c, before).gated.voted
    ensures After(c, before + post).gated == After(c, before).gated
    ensures After(c, before + post).gated.voted
    decreases |post|
  {
    if post == [] {
      assert before + post == before;
    } else {
      VoteIsFinal(c, before, Front(post));
      assert Front(before + post) == before + Front(post) && Last(before + post) == Last(post);
    }
  }

  lemma Tracked(c: Config, es: seq<Event>, t: int)
    requires Legal(c, es)
    ensures ReadyBy(c, es, t) <==>
              (After(c, es).seen.block && After(c, es).gate.complete
               && Later(After(c, es).seen.at, After(c, es).gate.completeAt) <= t)
  {
    BlockTracked(c, es, t);
    if t >= 0 { CustodyTracked(c, es, t); }
  }

  // The first block event, received or the node's own.
  predicate IsFirstBlock(es: seq<Event>, i: int) {
    0 <= i < |es| && IsBlock(es[i]) && forall j :: 0 <= j < i ==> !IsBlock(es[j])
  }

  // The block recorded is the first one.
  lemma {:induction false} FirstBlockTracked(c: Config, es: seq<Event>)
    ensures After(c, es).seen.block <==> exists i :: IsFirstBlock(es, i)
    ensures forall i :: IsFirstBlock(es, i) ==> After(c, es).seen.at == es[i].now && After(c, es).seen.origin == es[i].origin
    decreases |es|
  {
    if es != [] {
      var last := |es| - 1;
      FirstBlockTracked(c, Front(es));
      forall i: int | i < last ensures IsFirstBlock(es, i) <==> IsFirstBlock(Front(es), i) {
        assert forall j :: 0 <= j < last ==> Front(es)[j] == es[j];
      }
      if After(c, Front(es)).seen.block {
        var i :| IsFirstBlock(Front(es), i);
        assert IsFirstBlock(es, i) && !IsFirstBlock(es, last);
      } else if IsBlock(Last(es)) {
        FirstIfNone(es);
      }
    }
  }

  lemma FirstIfNone(es: seq<Event>)
    requires es != [] && IsBlock(Last(es)) && !exists i :: IsFirstBlock(Front(es), i)
    ensures IsFirstBlock(es, |es| - 1)
  {
    NoFirstNoBlock(Front(es), |es| - 1);
    assert forall j :: 0 <= j < |es| - 1 ==> Front(es)[j] == es[j];
  }

  lemma {:induction false} NoFirstNoBlock(es: seq<Event>, n: nat)
    requires n <= |es| && forall i :: !IsFirstBlock(es, i)
    ensures forall j :: 0 <= j < n ==> !IsBlock(es[j])
  {
    if n > 0 {
      NoFirstNoBlock(es, n - 1);
      assert !IsFirstBlock(es, n - 1);
    }
  }

  /** The gated vote, on every run: exactly one is emitted.  It is for the block iff block and whole
      custody were in by deadline - prep in the events handled before the deadline, and then it is
      emitted prep after the first instant they both were and names the origin of the first block,
      received or own; otherwise it is for the prior head, at the deadline. */
  lemma GatedVoteIsThePureRule(c: Config, pre: seq<Event>, post: seq<Event>)
    requires c.attest && Legal(c, pre) && NoDeadline(pre)
    ensures var gated := After(c, pre + [Deadline(c.deadline)] + post).gated.out;
            && |gated| == 1
            && (gated[0].block <==> ReadyBy(c, pre, c.deadline - c.prep))
            && (!gated[0].block ==> gated[0] == Vote(c.deadline, false, -1))
            && (gated[0].block ==>
                  && gated[0].at <= c.deadline
                  && (forall t: int :: ReadyBy(c, pre, t) <==> gated[0].at - c.prep <= t)
                  && exists i :: IsFirstBlock(pre, i) && gated[0].origin == pre[i].origin)
  {
    ClaimedBeforeDeadline(c, pre);
    FirstBlockTracked(c, pre);
    var upto := pre + [Deadline(c.deadline)];
    assert Front(upto) == pre && Last(upto) == Deadline(c.deadline);
    VoteIsFinal(c, upto, post);
    Tracked(c, pre, c.deadline - c.prep);
    forall t: int ensures ReadyBy(c, pre, t) <==>
      (After(c, pre).seen.block && After(c, pre).gate.complete
       && Later(After(c, pre).seen.at, After(c, pre).gate.completeAt) <= t) {
      Tracked(c, pre, t);
    }
  }

  lemma LaterEventsDoNotCount(c: Config, pre: seq<Event>, post: seq<Event>, t: int)
    requires forall e <- post :: e.now > t
    ensures ReadyBy(c, pre + post, t) <==> ReadyBy(c, pre, t)
    decreases |post|
  {
    if post == [] {
      assert pre + post == pre;
    } else {
      var es := pre + post;
      assert Front(es) == pre + Front(post) && Last(es) == Last(post);
      assert Last(post) in post;
      forall e | e in Front(post) ensures e in post { }
      LaterEventsDoNotCount(c, pre, Front(post), t);
      LateEventAddsNothing(c, es, t);
      BlockSnoc(es, t);
    }
  }

  // Readiness by an instant is never taken back by later events.
  lemma {:induction false} ReadyGrows(c: Config, pre: seq<Event>, post: seq<Event>, t: int)
    requires ReadyBy(c, pre, t)
    ensures ReadyBy(c, pre + post, t)
    decreases |post|
  {
    if post == [] {
      assert pre + post == pre;
    } else {
      var es := pre + post;
      assert Front(es) == pre + Front(post);
      ReadyGrows(c, pre, Front(post), t);
      BlockSnoc(es, t);
      CustodyGrows(c, es, t);
    }
  }

  /** Read off the whole run, the pure rule gives the vote if and only if no event handled from the
      deadline step on completes readiness by deadline - prep; so in particular when every event after
      the deadline step is later than that. */
  lemma GatedVoteOverTheWholeRun(c: Config, pre: seq<Event>, post: seq<Event>)
    requires c.attest && Legal(c, pre) && NoDeadline(pre)
    ensures var es, t := pre + [Deadline(c.deadline)] + post, c.deadline - c.prep;
            && |After(c, es).gated.out| == 1
            && ((After(c, es).gated.out[0].block <==> ReadyBy(c, es, t)) <==> (ReadyBy(c, es, t) ==> ReadyBy(c, pre, t)))
            && ((forall e <- post :: e.now > t) ==> (After(c, es).gated.out[0].block <==> ReadyBy(c, es, t)))
  {
    GatedVoteIsThePureRule(c, pre, post);
    var t, upto := c.deadline - c.prep, pre + [Deadline(c.deadline)];
    assert pre + [Deadline(c.deadline)] + post == pre + ([Deadline(c.deadline)] + post);
    if ReadyBy(c, pre, t) { ReadyGrows(c, pre, [Deadline(c.deadline)] + post, t); }
    if forall e <- post :: e.now > t {
      assert Front(upto) == pre;
      BlockSnoc(upto, t);
      OwnBlockSnoc(upto, t);
      forall col | col in c.custody ensures ColumnBy(upto, col, t) <==> ColumnBy(pre, col, t) {
        ColumnSnoc(upto, col, t);
      }
      LaterEventsDoNotCount(c, upto, post, t);
    }
  }

  const TIE := Config(true, false, false, false, 0, 5, {})

  /** The ordering matters: with prep 0 a block at the deadline instant, handled after the deadline
      step, is in time by the pure rule and still votes for the prior head. */
  lemma TieAfterDeadlineVotesPrior()
    ensures ReadyBy(TIE, [Deadline(5), Block(5, 1)], TIE.deadline - TIE.prep)
    ensures After(TIE, [Deadline(5), Block(5, 1)]).gated.out == [Vote(5, false, -1)]
  {
    var es := [Deadline(5), Block(5, 1)];
    assert IsBlock(es[1]);
    assert es[..1] == [Deadline(5)] && es[..1][..0] == [];
    assert After(TIE, es[..1]) == Step(TIE, Setup(TIE), Deadline(5));
  }

  const ONE_COLUMN := Config(true, false, false, false, 0, 5, {7})

  /** Completion is a count: a column outside custody stands in for the missing one. */
  lemma ForeignColumnOpensTheGate()
    ensures var es := [Block(1, 1), Column(2, 8)];
            !CustodyBy(ONE_COLUMN, es, 5) && After(ONE_COLUMN, es).gated.out == [Vote(2, true, 1)]
  {
    var es := [Block(1, 1), Column(2, 8)];
    assert !ColumnBy(es, 7, 5);
    assert es[..1] == [Block(1, 1)] && es[..1][..0] == [];
    assert After(ONE_COLUMN, es[..1]) == Step(ONE_COLUMN, Setup(ONE_COLUMN), Block(1, 1));
    assert {8} == {} + {8};
  }

  // ---------------------------------------------------------------- the sync vote

  predicate HeadInTime(c: Config, s: Slot) { s.seen.block && s.seen.at + c.prep <= c.deadline }

  // The sync twin of Claimed: made at the very event that makes the head in time.
  predicate SyncClaimed(c: Config, s: Slot) {
    && s.sync.voted == HeadInTime(c, s)
    && s.sync.out == (if HeadInTime(c, s) then [Vote(s.seen.at + c.prep, true, s.seen.origin)] else [])
  }

  lemma StepSyncClaims(c: Config, s: Slot, e: Event)
    requires c.sync && !e.Deadline? && SyncClaimed(c, s)
    requires s.seen.block ==> s.seen.at <= e.now
    ensures SyncClaimed(c, Step(c, s, e))
  {
  }

  lemma {:induction false} SyncClaimedBeforeDeadline(c: Config, es: seq<Event>)
    requires c.sync && Legal(c, es) && NoDeadline(es)
    ensures SyncClaimed(c, After(c, es))
    decreases |es|
  {
    if es != [] {
      LegalFront(c, es);
      SyncClaimedBeforeDeadline(c, Front(es));
      if |es| > 1 {
        RecordsArePast(c, Front(es));
        assert Front(es)[|es| - 2] == es[|es| - 2];
      } else {
        assert Front(es) == [];
      }
      assert Last(es) in es;
      StepSyncClaims(c, After(c, Front(es)), Last(es));
    }
  }

  lemma {:induction false} SyncVoteIsFinal(c: Config, before: seq<Event>, post: seq<Event>)
    requires After(c, before).sync.voted
    ensures After(c, before + post).sync == After(c, before).sync
    decreases |post|
  {
    if post == [] {
      assert before + post == before;
    } else {
      SyncVoteIsFinal(c, before, Front(post));
      assert Front(before + post) == before + Front(post) && Last(before + post) == Last(post);
    }
  }

  /** The sync vote, on every run: exactly one is emitted.  It is for the head iff a block was in by
      deadline - prep in the events handled before the deadline, whatever the columns did, and then it
      is emitted prep after the first block and names its origin; otherwise it is for the prior head,
      at the deadline. */
  lemma SyncVoteIsThePureRule(c: Config, pre: seq<Event>, post: seq<Event>)
    requires c.sync && Legal(c, pre) && NoDeadline(pre)
    ensures var sync := After(c, pre + [Deadline(c.deadline)] + post).sync.out;
            && |sync| == 1
            && (sync[0].block <==> BlockBy(pre, c.deadline - c.prep))
            && (!sync[0].block ==> sync[0] == Vote(c.deadline, false, -1))
            && (sync[0].block ==>
                  && sync[0].at <= c.deadline
                  && (forall t: int :: BlockBy(pre, t) <==> sync[0].at - c.prep <= t)
                  && exists i :: IsFirstBlock(pre, i) && sync[0].at == pre[i].now + c.prep && sync[0].origin == pre[i].origin)
  {
    SyncClaimedBeforeDeadline(c, pre);
    FirstBlockTracked(c, pre);
    var upto := pre + [Deadline(c.deadline)];
    assert Front(upto) == pre && Last(upto) == Deadline(c.deadline);
    SyncVoteIsFinal(c, upto, post);
    BlockTracked(c, pre, c.deadline - c.prep);
    forall t: int ensures BlockBy(pre, t) <==> (After(c, pre).seen.block && After(c, pre).seen.at <= t) {
      BlockTracked(c, pre, t);
    }
  }

  /** A vote whose duty is off is never cast, on any run. */
  lemma {:induction false} OffNeverVotes(c: Config, es: seq<Event>)
    ensures !c.attest ==> After(c, es).gated.out == []
    ensures !c.sync ==> After(c, es).sync.out == []
    ensures !c.ptc ==> After(c, es).ptc.out == []
    decreases |es|
  {
    if es != [] { OffNeverVotes(c, Front(es)); }
  }

  // What every handler keeps, in any order and at any times: a vote claimed for the block was
  // claimed in time, so the sync twin had claimed head by then.
  predicate Coupled(c: Config, s: Slot) {
    && (HeadInTime(c, s) ==> s.sync.voted)
    && (s.gated.forBlock ==> InTime(c, s) && s.sync.forBlock)
    && (s.sync.voted && !s.sync.forBlock ==> s.gated.voted && !s.gated.forBlock)
    && (s.gated.forBlock ==> s.gated.voted)
    && |s.gated.out| == (if s.gated.voted then 1 else 0)
    && |s.sync.out| == (if s.sync.voted then 1 else 0)
    && (s.gated.voted ==> s.gated.out[0].block == s.gated.forBlock)
    && (s.sync.voted ==> s.sync.out[0].block == s.sync.forBlock)
  }

  lemma StepCouples(c: Config, s: Slot, e: Event)
    requires c.attest && c.sync && Coupled(c, s)
    ensures Coupled(c, Step(c, s, e))
  {
  }

  lemma {:induction false} RunCouples(c: Config, es: seq<Event>)
    requires c.attest && c.sync
    ensures Coupled(c, After(c, es))
    decreases |es|
  {
    if es != [] {
      RunCouples(c, Front(es));
      StepCouples(c, After(c, Front(es)), Last(es));
    }
  }

  /** On every run, in any order of handlers: at most one gated and one sync vote, and a node whose
      gated vote is for the block has voted head on its sync message. */
  lemma BlockVoteImpliesHeadVote(c: Config, es: seq<Event>)
    requires c.attest && c.sync
    ensures var s := After(c, es);
            && |s.gated.out| <= 1 && |s.sync.out| <= 1
            && (|s.gated.out| == 1 && s.gated.out[0].block ==> |s.sync.out| == 1 && s.sync.out[0].block)
  {
    RunCouples(c, es);
  }

  // ---------------------------------------------------------------- ePBS

  predicate IsColumn(e: Event) { e.Column? }

  function WithoutColumns(es: seq<Event>): seq<Event> {
    if es == [] then []
    else WithoutColumns(Front(es)) + if IsColumn(Last(es)) then [] else [Last(es)]
  }

  // The same node with no custody at all and the single legacy block.
  function NoCustody(c: Config): Config { c.(epbs := false, custody := {}) }

  predicate SameVotes(a: Slot, b: Slot) {
    && a.seen.block == b.seen.block && a.seen.at == b.seen.at && a.seen.origin == b.seen.origin
    && a.gated == b.gated
    && a.gate.complete && b.gate.complete && a.gate.completeAt == b.gate.completeAt
  }

  lemma StepsAlike(c: Config, s: Slot, t: Slot, e: Event)
    requires c.epbs && SameVotes(s, t) && !IsColumn(e)
    ensures SameVotes(Step(c, s, e), Step(NoCustody(c), t, e))
  {
  }

  /** Under ePBS the columns play no part in the gated vote: it is the vote of the same run on a node
      with no custody columns. */
  lemma {:induction false} EPBSVotesAsWithoutColumns(c: Config, es: seq<Event>)
    requires c.epbs
    ensures SameVotes(After(c, es), After(NoCustody(c), WithoutColumns(es)))
    ensures After(c, es).gated.out == After(NoCustody(c), WithoutColumns(es)).gated.out
    decreases |es|
  {
    if es != [] {
      EPBSVotesAsWithoutColumns(c, Front(es));
      var rest := WithoutColumns(es);
      assert After(c, es) == Step(c, After(c, Front(es)), Last(es));
      if IsColumn(Last(es)) {
        assert rest == WithoutColumns(Front(es));
      } else {
        assert Front(rest) == WithoutColumns(Front(es)) && Last(rest) == Last(es);
        assert After(NoCustody(c), rest) == Step(NoCustody(c), After(NoCustody(c), Front(rest)), Last(rest));
        StepsAlike(c, After(c, Front(es)), After(NoCustody(c), Front(rest)), Last(es));
      }
    }
  }

  predicate PayloadIn(es: seq<Event>) { exists e <- es :: e.Payload? || e.OwnPayload? }

  predicate HeldIn(es: seq<Event>, col: int) {
    exists e <- es :: e.OwnPayload? || (e.Column? && e.col == col)
  }

  predicate BlockIn(es: seq<Event>) { exists e <- es :: IsBlock(e) }

  lemma InSnoc(front: seq<Event>, last: Event, col: int)
    ensures BlockIn(front + [last]) <==> (BlockIn(front) || IsBlock(last))
    ensures PayloadIn(front + [last]) <==> (PayloadIn(front) || last.Payload? || last.OwnPayload?)
    ensures HeldIn(front + [last], col) <==>
              (HeldIn(front, col) || last.OwnPayload? || (last.Column? && last.col == col))
  {
    var es := front + [last];
    assert forall e :: e in es <==> e in front || e == last;
    if IsBlock(last) { assert last in es; }
    if BlockIn(front) {
      var e :| e in front && IsBlock(e);
      assert e in es;
    }
  }

  lemma {:induction false} SeenTracked(c: Config, es: seq<Event>)
    requires CustodyOnly(c, es)
    ensures After(c, es).seen.block <==> BlockIn(es)
    ensures After(c, es).seen.payload <==> PayloadIn(es)
    ensures After(c, es).gate.have <= c.custody
    ensures forall col :: col in After(c, es).gate.have <==> (col in c.custody && HeldIn(es, col))
    decreases |es|
  {
    if es != [] {
      var front, last := Front(es), Last(es);
      assert es == front + [last];
      assert last in es && forall e :: e in front ==> e in es;
      SeenTracked(c, front);
      InSnoc(front, last, 0);
      forall col ensures col in After(c, es).gate.have <==> (col in c.custody && HeldIn(es, col)) {
        InSnoc(front, last, col);
      }
    }
  }

  predicate NoPTCDue(es: seq<Event>) { forall e <- es :: !e.PTCDue? }

  // Before its deadline no PTC vote is cast; after it nothing changes.
  lemma {:induction false} PTCUntouched(c: Config, es: seq<Event>)
    requires NoPTCDue(es)
    ensures After(c, es).ptc == PTC(false, [])
  {
    if es != [] {
      forall e <- Front(es) ensures e in es { }
      PTCUntouched(c, Front(es));
      assert Last(es) in es;
    }
  }

  lemma {:induction false} PTCIsFinal(c: Config, before: seq<Event>, post: seq<Event>)
    requires After(c, before).ptc.done
    ensures After(c, before + post).ptc == After(c, before).ptc
    decreases |post|
  {
    if post == [] {
      assert before + post == before;
    } else {
      PTCIsFinal(c, before, Front(post));
      assert Front(before + post) == before + Front(post) && Last(before + post) == Last(post);
    }
  }

  lemma PTCVoteAtItsDeadline(c: Config, pre: seq<Event>, due: nat)
    requires c.ptc && CustodyOnly(c, pre) && !After(c, pre).ptc.done
    ensures var before, after := After(c, pre).ptc, After(c, pre + [PTCDue(due)]).ptc;
            && after.done
            && (!BlockIn(pre) ==> after.out == before.out)
            && (BlockIn(pre) ==>
                  after.out == before.out + [PTCVote(due, PayloadIn(pre) && AllHeldIn(c, pre))])
  {
    var es := pre + [PTCDue(due)];
    assert Front(es) == pre && Last(es) == PTCDue(due);
    SeenTracked(c, pre);
    var have := After(c, pre).gate.have;
    if |have| == |c.custody| { EqualCards(have, c.custody); }
    if AllHeldIn(c, pre) {
      forall col | col in c.custody ensures col in have { assert HeldIn(pre, col); }
      assert have == c.custody;
    }
  }

  /** Over a whole run the payload-timeliness vote is cast at most once: exactly if a block was seen
      before its deadline, and then it says present exactly when the payload and every custody column
      had been seen too; nothing that follows, further deadlines included, adds or changes one. */
  lemma PTCVoteIsExact(c: Config, pre: seq<Event>, due: nat, post: seq<Event>)
    requires c.ptc && CustodyOnly(c, pre) && NoPTCDue(pre)
    ensures After(c, pre + [PTCDue(due)] + post).ptc.out ==
              if BlockIn(pre) then [PTCVote(due, PayloadIn(pre) && AllHeldIn(c, pre))] else []
  {
    PTCUntouched(c, pre);
    PTCVoteAtItsDeadline(c, pre, due);
    PTCIsFinal(c, pre + [PTCDue(due)], post);
  }

  predicate AllHeldIn(c: Config, es: seq<Event>) { forall col <- c.custody :: HeldIn(es, col) }

  // ---------------------------------------------------------------- the slot, in place

  class SlotState {
    const config: Config
    var seen: Seen
    var gate: Gate
    var gated: Claim
    var sync: Claim
    var ptc: PTC

    function View(): Slot
      reads this
    {
      Slot(seen, gate, gated, sync, ptc)
    }

    constructor (config: Config)
      ensures this.config == config && View() == Setup(config)
    {
      this.config := config;
      seen, gate := Seen(false, 0, 0, false), Gate({}, config.custody == {} || config.epbs, 0);
      gated, sync, ptc := Claim(false, false, []), Claim(false, false, []), PTC(false, []);
    }

    method TryEarly(now: nat)
      modifies this`gated
      ensures gated == TryEarlyEmit(config, seen, gate, old(gated), now)
    {
      if !config.attest || gated.voted { return; }
      var ready := seen.block && gate.complete;
      var processed := Later(seen.at, gate.completeAt);
      var (emitAt, voteBlock) := EmitDecision(ready, processed, config.deadline, config.prep);
      if !voteBlock { return; }
      gated := Claim(true, true, gated.out + [Vote(EmitTime(now, emitAt), true, seen.origin)]);
    }

    method TrySync(now: nat)
      modifies this`sync
      ensures sync == TrySyncEmit(config, seen, old(sync), now)
    {
      if !config.sync || sync.voted { return; }
      var (emitAt, voteHead) := EmitDecision(seen.block, seen.at, config.deadline, config.prep);
      if !voteHead { return; }
      sync := Claim(true, true, sync.out + [Vote(EmitTime(now, emitAt), true, seen.origin)]);
    }

    method BlockProcessed(now: nat, origin: int)
      modifies this
      ensures View() == Step(config, old(View()), Block(now, origin))
    {
      if !seen.block { seen := Seen(true, now, origin, seen.payload); }
      TryEarly(now);
      TrySync(now);
    }

    method PublishOwnBlock(now: nat, origin: int)
      modifies this
      ensures View() == Step(config, old(View()), OwnBlock(now, origin))
    {
      if !gate.complete { gate := Gate(gate.have, true, now); }
      BlockProcessed(now, origin);
    }

    method ColumnProcessed(now: nat, col: int)
      modifies this
      ensures View() == Step(config, old(View()), Column(now, col))
    {
      if col in gate.have { return; }
      gate := gate.(have := gate.have + {col});
      if gate.complete { return; }
      if |gate.have| == |config.custody| {
        gate := gate.(complete := true, completeAt := now);
        TryEarly(now);
      }
    }

    method PayloadProcessed(now: nat, own: bool)
      modifies this
      ensures View() == Step(config, old(View()), if own then OwnPayload(now) else Payload(now))
    {
      if !seen.payload { seen := seen.(payload := true); }
      if own { gate := gate.(have := gate.have + config.custody); }
    }

    method BlockDeadline(now: nat)
      modifies this
      ensures View() == Step(config, old(View()), Deadline(now))
    {
      if config.attest && !gated.voted { gated := Claim(true, false, gated.out + [Vote(now, false, -1)]); }
      if config.sync && !sync.voted { sync := Claim(true, false, sync.out + [Vote(now, false, -1)]); }
    }

    method EmitPTC(now: nat)
      modifies this
      ensures View() == Step(config, old(View()), PTCDue(now))
    {
      if !config.ptc || ptc.done { return; }
      ptc := ptc.(done := true);
      if !seen.block { return; }
      ptc := ptc.(out := ptc.out + [PTCVote(now, seen.payload && |gate.have| == |config.custody|)]);
    }
  }
}
