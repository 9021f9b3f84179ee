/** Stopping the batch verifier of node/verifier.go: the loop ends, and nothing is left behind. */
module VerifierStop {
  import opened Verifier

  // The loop steps a stopped verifier can still take when nothing more is submitted.
  function Fuel(s: State): nat {
    10 * |s.queue| +
    match s.phase
    case Parked => 6
    case Woken => 5
    case Taken(batch, saw) => if batch == [] && !saw then 7 else 10 * |batch| + 4
    case Verifying(rest, _) => 5 * |rest| + 8
    case Checked(_, _) => 7
    case Exited => 0
  }

  lemma StoppedStepBurnsFuel(c: Config, s: State, e: Event)
    requires Inv(s) && s.stopped && Enabled(s, e) && !e.Submit?
    ensures Next(c, s, e).stopped && Next(c, s, e).submitted == s.submitted && Next(c, s, e).late == s.late
    ensures IsLoopStep(e) ==> Fuel(Next(c, s, e)) < Fuel(s)
    ensures !IsLoopStep(e) ==> Fuel(Next(c, s, e)) == Fuel(s)
  {
    if e == FirstLock {
      assert |s.queue| == |s.queue[..BatchEnd(s.queue, c.cap)]| + |s.queue[BatchEnd(s.queue, c.cap)..]|;
    }
  }

  function LoopSteps(es: seq<Event>): nat {
    if es == [] then 0 else (if IsLoopStep(es[0]) then 1 else 0) + LoopSteps(es[1..])
  }

  predicate NoSubmit(es: seq<Event>) { forall e <- es :: !e.Submit? }

  /** After stop, with no further submits, no schedule makes the loop take more than Fuel steps. */
  lemma {:induction false} StopBoundsTheLoop(c: Config, s: State, es: seq<Event>)
    requires Inv(s) && s.stopped && IsRun(c, s, es) && NoSubmit(es)
    ensures LoopSteps(es) + Fuel(After(c, s, es)) <= Fuel(s)
    ensures After(c, s, es).submitted == s.submitted && After(c, s, es).late == s.late
    decreases |es|
  {
    if es != [] {
      assert es[0] in es;
      StepKeepsInv(c, s, es[0]);
      StoppedStepBurnsFuel(c, s, es[0]);
      StopBoundsTheLoop(c, Next(c, s, es[0]), es[1..]);
    }
  }

  // The loop step a stopped loop that has not exited can take, once its sleep is over.
  function LoopStep(s: State): Event
    requires Inv(s) && s.stopped && !s.phase.Exited?
  {
    match s.phase
    case Parked => WakeByNotify
    case Woken => FirstLock
    case Taken(_, _) => Begin(0)
    case Verifying(rest, _) => if rest == [] then SecondLock else Callback
    case Checked(_, _) => Resignal
  }

  // The time the loop still has to sleep before it can take that step.
  function SleepLeft(s: State): nat {
    if s.phase.Verifying? && s.phase.doneAt > s.now then s.phase.doneAt - s.now else 0
  }

  lemma RunSnoc(c: Config, s: State, e0: Event, es: seq<Event>)
    requires Enabled(s, e0) && IsRun(c, Next(c, s, e0), es)
    ensures IsRun(c, s, [e0] + es) && After(c, s, [e0] + es) == After(c, Next(c, s, e0), es)
  {
    assert ([e0] + es)[1..] == es;
  }

  /** After stop with no further submits the loop never blocks for good: from every reachable state
      some schedule drains it, and then the queue is empty and every item was called back once, in
      submission order. */
  lemma {:induction false} StopDrains(c: Config, s: State) returns (es: seq<Event>)
    requires Inv(s) && s.stopped && !s.late
    ensures NoSubmit(es) && IsRun(c, s, es)
    ensures After(c, s, es).phase.Exited?
    ensures After(c, s, es).completed == s.submitted && After(c, s, es).queue == []
    decreases Fuel(s)
  {
    if s.phase.Exited? {
      es := [];
      assert s.completed + [] + [] == s.completed;
    } else {
      var slept := Next(c, s, Pass(SleepLeft(s)));
      StepKeepsInv(c, s, Pass(SleepLeft(s)));
      var e := LoopStep(slept);
      StepKeepsInv(c, slept, e);
      StoppedStepBurnsFuel(c, slept, e);
      var rest := StopDrains(c, Next(c, slept, e));
      RunSnoc(c, slept, e, rest);
      RunSnoc(c, s, Pass(SleepLeft(s)), [e] + rest);
      es := [Pass(SleepLeft(s))] + ([e] + rest);
    }
  }
}
