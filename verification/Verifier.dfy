/** The batch verifier of node/verifier.go: a one-server queue with a capacity-1 notify channel,
    a window timer, a batch cap and a drain-on-stop path.

    `State` is the verifier together with the program point of its run loop.  `Next` gives the
    effect of one atomic step: a call of submit or stop, time passing, the window timer expiring,
    or one step of the loop. */
module Verifier {
  import opened Arith

  // The callback handed to submit is identified with the item it was submitted with.
  datatype Item = Item(slot: int, topic: string, attestations: nat)

  // A timer that was never reset (its initial due time is the end of time) or whose tick was
  // received is Unarmed; an expired timer holds a tick that nobody has received yet.
  datatype Timer = Unarmed | Armed(due: int) | Expired

  // Where the run loop is.
  datatype Phase =
    | Parked                                             // in the select
    | Woken                                              // select returned, lock not yet taken
    | Taken(batch: seq<Item>, sawStop: bool)             // first critical section left
    | Verifying(rest: seq<Item>, doneAt: int)            // asleep until doneAt, then calling back
    | Checked(sawStopped: bool, drained: bool)           // second critical section left
    | Exited

  // One batch start: when, how many attestations, and whether it ran under stop.
  datatype Start = Start(at: int, attestations: nat, draining: bool)

  datatype Config = Config(perItem: nat, window: nat, cap: int)

  // The last four fields are histories, written and never read by the machine.
  datatype State = State(
    queue: seq<Item>, notify: bool, stopped: bool,
    timer: Timer, timerRunning: bool, phase: Phase, now: int,
    submitted: seq<Item>, completed: seq<Item>, starts: seq<Start>, late: bool)

  datatype Event =
    | Submit(item: Item) | Stop | Pass(delay: nat) | Expire
    | WakeByNotify | WakeByTimer | FirstLock | Begin(base: nat) | Callback | SecondLock | Resignal

  function Init(now: int): State {
    State([], false, false, Unarmed, false, Parked, now, [], [], [], false)
  }

  function Total(items: seq<Item>): nat {
    if items == [] then 0 else Total(items[..|items| - 1]) + items[|items| - 1].attestations
  }

  function Largest(items: seq<Item>): nat {
    if items == [] then 0
    else
      var rest := Largest(items[..|items| - 1]);
      if rest < items[|items| - 1].attestations then items[|items| - 1].attestations else rest
  }

  function Max(a: int, b: int): int { if a < b then b else a }

  // ---------------------------------------------------------------- the batch boundary

  // The loop of batchEnd from `n` on, with `taken` attestations in the prefix already.
  function BatchEndFrom(queue: seq<Item>, cap: int, n: nat, taken: nat): (end: nat)
    requires n <= |queue|
    ensures n <= end <= |queue|
    decreases |queue| - n
  {
    if n == |queue| || (n > 0 && taken + queue[n].attestations > cap) then n
    else BatchEndFrom(queue, cap, n + 1, taken + queue[n].attestations)
  }

  function BatchEnd(queue: seq<Item>, cap: int): (end: nat)
    ensures end <= |queue|
    ensures queue != [] ==> end > 0
  {
    if cap <= 0 then |queue| else BatchEndFrom(queue, cap, 0, 0)
  }

  lemma TotalPrefix(queue: seq<Item>, n: nat)
    requires n < |queue|
    ensures Total(queue[..n + 1]) == Total(queue[..n]) + queue[n].attestations
  {
    assert queue[..n + 1][..n] == queue[..n];
  }

  lemma {:induction false} TotalMonotone(queue: seq<Item>, m: nat, n: nat)
    requires m <= n <= |queue|
    ensures Total(queue[..m]) <= Total(queue[..n])
    decreases n - m
  {
    if m < n {
      TotalPrefix(queue, n - 1);
      TotalMonotone(queue, m, n - 1);
    }
  }

  lemma {:induction false} BatchEndFromStops(queue: seq<Item>, cap: int, n: nat, taken: nat)
    requires n <= |queue| && taken == Total(queue[..n])
    requires n > 1 ==> taken <= cap
    ensures var end := BatchEndFrom(queue, cap, n, taken);
            && (end > 1 ==> Total(queue[..end]) <= cap)
            && (end < |queue| ==> end > 0 && Total(queue[..end + 1]) > cap)
    decreases |queue| - n
  {
    if n < |queue| {
      TotalPrefix(queue, n);
      if !(n > 0 && taken + queue[n].attestations > cap) {
        BatchEndFromStops(queue, cap, n + 1, taken + queue[n].attestations);
      }
    }
  }

  /** A capped batch is the longest prefix whose attestations fit the cap, or the single head
      when the head alone is over it; every longer prefix is over the cap.  Uncapped, everything. */
  lemma BatchEndIsLongestFit(queue: seq<Item>, cap: int)
    ensures cap <= 0 ==> BatchEnd(queue, cap) == |queue|
    ensures var end := BatchEnd(queue, cap);
            cap > 0 && queue != [] ==>
              && 1 <= end
              && (Total(queue[..end]) <= cap || (end == 1 && queue[0].attestations > cap))
              && forall m :: end < m <= |queue| ==> Total(queue[..m]) > cap
  {
    if cap > 0 && queue != [] {
      BatchEndFromStops(queue, cap, 0, 0);
      var end := BatchEnd(queue, cap);
      TotalPrefix(queue, 0);
      forall m | end < m <= |queue| ensures Total(queue[..m]) > cap {
        TotalMonotone(queue, end + 1, m);
      }
    }
  }

  lemma {:induction false} LargestBounds(items: seq<Item>)
    ensures forall i :: 0 <= i < |items| ==> items[i].attestations <= Largest(items)
  {
    if items != [] {
      LargestBounds(items[..|items| - 1]);
      forall i | 0 <= i < |items| ensures items[i].attestations <= Largest(items) {
        if i < |items| - 1 { assert items[..|items| - 1][i] == items[i]; }
      }
    }
  }

  // The sleep of a batch; its base delay is drawn anew for each.
  function Cost(c: Config, base: nat, batch: seq<Item>): nat {
    base + Total(batch) * c.perItem
  }

  /** A capped batch sleeps at most base + max(cap, head) * perItem, whatever its base delay. */
  lemma BatchCostBounded(c: Config, base: nat, queue: seq<Item>)
    requires c.cap > 0 && queue != []
    ensures Total(queue[..BatchEnd(queue, c.cap)]) <= Max(c.cap, queue[0].attestations)
    ensures Cost(c, base, queue[..BatchEnd(queue, c.cap)]) <= base + Max(c.cap, queue[0].attestations) * c.perItem
  {
    BatchEndIsLongestFit(queue, c.cap);
    TotalPrefix(queue, 0);
    var t, bound := Total(queue[..BatchEnd(queue, c.cap)]), Max(c.cap, queue[0].attestations);
    assert t <= bound;
    assert t * c.perItem <= bound * c.perItem;
  }

  // ---------------------------------------------------------------- the step relation

  predicate Enabled(s: State, e: Event) {
    match e
    case Submit(_) => true
    case Stop => true
    case Pass(_) => true
    case Expire => s.timer.Armed? && s.timer.due <= s.now
    case WakeByNotify => s.phase.Parked? && s.notify
    case WakeByTimer => s.phase.Parked? && s.timer.Expired?
    case FirstLock => s.phase.Woken?
    case Begin(_) => s.phase.Taken?
    case Callback => s.phase.Verifying? && s.phase.rest != [] && s.phase.doneAt <= s.now
    case SecondLock => s.phase.Verifying? && s.phase.rest == []
    case Resignal => s.phase.Checked?
  }

  predicate IsLoopStep(e: Event) {
    !e.Submit? && !e.Stop? && !e.Pass? && !e.Expire?
  }

  function Next(c: Config, s: State, e: Event): State
    requires Enabled(s, e)
  {
    match e
    case Submit(item) =>
      s.(queue := s.queue + [item], notify := true,
         submitted := s.submitted + [item], late := s.late || s.stopped)
    case Stop => s.(stopped := true, notify := true)
    case Pass(delay) => s.(now := s.now + delay)
    case Expire => s.(timer := Expired)
    case WakeByNotify => s.(notify := false, phase := Woken)
    case WakeByTimer => s.(timer := Unarmed, timerRunning := false, phase := Woken)
    case FirstLock =>
      if s.timerRunning && !s.stopped then s.(notify := false, phase := Parked)
      else
        var n := BatchEnd(s.queue, c.cap);
        s.(notify := false, queue := s.queue[n..], phase := Taken(s.queue[..n], s.stopped))
    case Begin(base) =>
      if s.phase.batch == [] then s.(phase := if s.phase.sawStop then Exited else Parked)
      else
        s.(timer := Armed(s.now + c.window), timerRunning := true,
           phase := Verifying(s.phase.batch, s.now + Cost(c, base, s.phase.batch)),
           starts := s.starts + [Start(s.now, Total(s.phase.batch), s.phase.sawStop)])
    case Callback =>
      s.(completed := s.completed + [s.phase.rest[0]], phase := s.phase.(rest := s.phase.rest[1..]))
    case SecondLock => s.(phase := Checked(s.stopped, s.queue == []))
    case Resignal =>
      if s.phase.sawStopped && s.phase.drained then s.(phase := Exited)
      else s.(phase := Parked, notify := s.notify || s.phase.sawStopped)
  }

  predicate IsRun(c: Config, s: State, es: seq<Event>)
    decreases |es|
  {
    es == [] || (Enabled(s, es[0]) && IsRun(c, Next(c, s, es[0]), es[1..]))
  }

  function After(c: Config, s: State, es: seq<Event>): State
    requires IsRun(c, s, es)
    decreases |es|
  {
    if es == [] then s else After(c, Next(c, s, es[0]), es[1..])
  }

  // ---------------------------------------------------------------- what every step keeps

  function InHand(p: Phase): seq<Item> {
    match p
    case Taken(batch, _) => batch
    case Verifying(rest, _) => rest
    case _ => []
  }

  // Nothing is lost, duplicated or reordered.
  predicate Conserves(s: State) {
    s.completed + InHand(s.phase) + s.queue == s.submitted
  }

  // A loop about to sleep on a non-empty queue has something that will wake it.
  predicate WakesUp(s: State) {
    && (s.timerRunning <==> s.timer != Unarmed)
    && (s.phase.Parked? && s.queue != [] ==> s.notify || s.timer != Unarmed)
    && (s.phase.Taken? && s.phase.batch == [] && s.queue != [] ==> s.notify)
    && (s.phase.Taken? && !s.phase.sawStop ==> !s.timerRunning)
    && (s.phase.Verifying? || s.phase.Checked? ==> s.timerRunning)
  }

  // A stop is never overlooked.
  predicate SeesStop(s: State) {
    && (s.stopped ==>
          match s.phase
          case Parked => s.notify
          case Taken(_, saw) => saw || s.notify
          case Checked(saw, _) => saw || s.notify
          case _ => true)
    && (s.phase.Taken? && s.phase.sawStop ==> s.stopped)
    && (s.phase.Checked? && s.phase.sawStopped ==> s.stopped)
    && (s.phase.Exited? ==> s.stopped)
    && (s.late ==> s.stopped)
  }

  // With no item submitted after stop, the paths that lead out of the loop find the queue empty.
  predicate LeavesNothing(s: State) {
    !s.late ==>
      && (s.phase.Taken? && s.phase.batch == [] && s.phase.sawStop ==> s.queue == [])
      && (s.phase.Checked? && s.phase.sawStopped && s.phase.drained ==> s.queue == [])
      && (s.phase.Exited? ==> s.queue == [])
  }

  predicate Inv(s: State) {
    Conserves(s) && WakesUp(s) && SeesStop(s) && LeavesNothing(s)
  }

  lemma LockConserves(c: Config, s: State)
    requires Conserves(s) && Enabled(s, FirstLock)
    ensures Conserves(Next(c, s, FirstLock))
  {
    var n := BatchEnd(s.queue, c.cap);
    assert s.queue[..n] + s.queue[n..] == s.queue;
    assert s.completed + s.queue[..n] + s.queue[n..] == s.completed + (s.queue[..n] + s.queue[n..]);
    assert s.completed + [] + s.queue == s.completed + s.queue;
  }

  lemma CallbackConserves(c: Config, s: State)
    requires Conserves(s) && Enabled(s, Callback)
    ensures Conserves(Next(c, s, Callback))
  {
    assert s.phase.rest == [s.phase.rest[0]] + s.phase.rest[1..];
    assert s.completed + [s.phase.rest[0]] + s.phase.rest[1..] == s.completed + s.phase.rest;
  }

  lemma StepConserves(c: Config, s: State, e: Event)
    requires Conserves(s) && Enabled(s, e)
    ensures Conserves(Next(c, s, e))
  {
    match e
    case Submit(item) =>
      assert s.completed + InHand(s.phase) + (s.queue + [item]) == s.completed + InHand(s.phase) + s.queue + [item];
    case FirstLock => LockConserves(c, s);
    case Callback => CallbackConserves(c, s);
    case _ =>
  }

  lemma StepKeepsInv(c: Config, s: State, e: Event)
    requires Inv(s) && Enabled(s, e)
    ensures Inv(Next(c, s, e))
  {
    StepConserves(c, s, e);
  }

  /** Over every interleaving: completed ++ batch in hand ++ queue is the submission sequence, and
      a parked loop with work left has a pending notify or an armed or expired window timer. */
  lemma {:induction false} RunKeepsInv(c: Config, s: State, es: seq<Event>)
    requires Inv(s) && IsRun(c, s, es)
    ensures Inv(After(c, s, es))
    decreases |es|
  {
    if es != [] {
      StepKeepsInv(c, s, es[0]);
      RunKeepsInv(c, Next(c, s, es[0]), es[1..]);
    }
  }

  lemma ConservationAndWakeup(c: Config, now: int, es: seq<Event>)
    requires IsRun(c, Init(now), es)
    ensures var s := After(c, Init(now), es);
            && s.completed + InHand(s.phase) + s.queue == s.submitted
            && (s.phase.Parked? && s.queue != [] ==> s.notify || s.timer != Unarmed)
            && (s.phase.Exited? && !s.late ==> s.completed == s.submitted && s.queue == [])
  {
    RunKeepsInv(c, Init(now), es);
    var s := After(c, Init(now), es);
    if s.phase.Exited? && !s.late { assert s.completed + [] + [] == s.completed; }
  }
}
