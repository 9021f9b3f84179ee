/** How fast the batch verifier of node/verifier.go can start work: batches are a window apart until
    it is stopped, and each is bounded. */
module VerifierThroughput {
  import opened Arith
  import opened Verifier

  // The batch starts made before stop, each at least a window after the one before it.
  predicate Spaced(window: int, starts: seq<Start>) {
    forall i, j :: 0 <= i < j < |starts| ==>
      && starts[i].at <= starts[j].at
      && (starts[i].draining ==> starts[j].draining)
      && (!starts[j].draining ==> starts[i].at + window <= starts[j].at)
  }

  predicate StartsBounded(c: Config, s: State) {
    forall i :: 0 <= i < |s.starts| ==> s.starts[i].attestations <= Max(c.cap, Largest(s.submitted))
  }

  predicate Paced(c: Config, s: State) {
    && Spaced(c.window, s.starts)
    && (s.starts != [] ==>
          var last := s.starts[|s.starts| - 1];
          && last.at <= s.now
          && (last.draining ==> s.stopped)
          && (s.phase.Taken? && !s.phase.sawStop ==> !last.draining)
          && (s.timer.Armed? ==> s.timer.due == last.at + c.window)
          && (!s.timer.Armed? ==> last.at + c.window <= s.now))
  }

  lemma SpacedAppend(window: int, starts: seq<Start>, next: Start)
    requires Spaced(window, starts)
    requires starts != [] ==> var last := starts[|starts| - 1];
               last.at <= next.at && (last.draining ==> next.draining) && (!next.draining ==> last.at + window <= next.at)
    ensures Spaced(window, starts + [next])
  {
    var all, n := starts + [next], |starts|;
    forall i, j | 0 <= i < j < |all|
      ensures all[i].at <= all[j].at && (all[i].draining ==> all[j].draining) && (!all[j].draining ==> all[i].at + window <= all[j].at)
    {
      if j == n && i < n - 1 { assert starts[i].at <= starts[n - 1].at; }
    }
  }

  lemma BeginKeepsPace(c: Config, s: State, base: nat)
    requires Inv(s) && Paced(c, s) && Enabled(s, Begin(base))
    ensures Paced(c, Next(c, s, Begin(base)))
  {
    if s.phase.batch != [] {
      SpacedAppend(c.window, s.starts, Start(s.now, Total(s.phase.batch), s.phase.sawStop));
    }
  }

  lemma StepKeepsPace(c: Config, s: State, e: Event)
    requires Inv(s) && Paced(c, s) && Enabled(s, e)
    ensures Paced(c, Next(c, s, e))
  {
    if e.Begin? { BeginKeepsPace(c, s, e.base); }
  }

  lemma LargestGrows(items: seq<Item>, item: Item)
    ensures Largest(items) <= Largest(items + [item])
  {
    assert (items + [item])[..|items|] == items;
  }

  lemma StepKeepsBound(c: Config, s: State, e: Event)
    requires Inv(s) && StartsBounded(c, s) && Enabled(s, e) && c.cap > 0
    requires s.phase.Taken? ==> Total(s.phase.batch) <= Max(c.cap, Largest(s.submitted))
    ensures StartsBounded(c, Next(c, s, e))
    ensures Next(c, s, e).phase.Taken? ==> Total(Next(c, s, e).phase.batch) <= Max(c.cap, Largest(Next(c, s, e).submitted))
  {
    match e
    case Submit(item) => LargestGrows(s.submitted, item);
    case FirstLock =>
      if s.queue != [] { NextBatchBounded(c, s.submitted, s.completed + InHand(s.phase), s.queue); }
    case _ =>
  }

  // The next batch is bounded by the cap and the largest item ever submitted.
  lemma NextBatchBounded(c: Config, submitted: seq<Item>, before: seq<Item>, queue: seq<Item>)
    requires c.cap > 0 && queue != [] && before + queue == submitted
    ensures Total(queue[..BatchEnd(queue, c.cap)]) <= Max(c.cap, Largest(submitted))
  {
    BatchCostBounded(c, 0, queue);
    LargestBounds(submitted);
    assert submitted[|before|] == queue[0];
  }

  predicate Throttled(c: Config, s: State) {
    && Inv(s) && Paced(c, s) && StartsBounded(c, s)
    && (s.phase.Taken? ==> Total(s.phase.batch) <= Max(c.cap, Largest(s.submitted)))
  }

  lemma {:induction false} RunThrottled(c: Config, s: State, es: seq<Event>)
    requires Throttled(c, s) && IsRun(c, s, es) && c.cap > 0
    ensures Throttled(c, After(c, s, es))
    decreases |es|
  {
    if es != [] {
      StepKeepsInv(c, s, es[0]);
      StepKeepsPace(c, s, es[0]);
      StepKeepsBound(c, s, es[0]);
      RunThrottled(c, Next(c, s, es[0]), es[1..]);
    }
  }

  // Attestations started in [from, from + span] by batches not under stop.
  function StartedIn(starts: seq<Start>, from: int, span: int): nat {
    if starts == [] then 0
    else
      var last := starts[|starts| - 1];
      StartedIn(starts[..|starts| - 1], from, span)
      + if from <= last.at <= from + span && !last.draining then last.attestations else 0
  }

  // k times x, by addition.
  function Times(k: nat, x: nat): nat { if k == 0 then 0 else Times(k - 1, x) + x }

  lemma {:induction false} TimesIsProduct(k: nat, x: nat)
    ensures Times(k, x) == k * x
  {
    if k > 0 { TimesIsProduct(k - 1, x); }
  }

  // k batches not under stop start in the interval, the last of them at index i.
  lemma {:induction false} StartedInAt(starts: seq<Start>, window: nat, from: int, span: nat, bound: nat)
    returns (k: nat, i: nat)
    requires Spaced(window, starts)
    requires forall j :: 0 <= j < |starts| ==> starts[j].attestations <= bound
    ensures StartedIn(starts, from, span) <= Times(k, bound)
    ensures k > 0 ==> i < |starts| && !starts[i].draining && from + Times(k - 1, window) <= starts[i].at <= from + span
  {
    k, i := 0, 0;
    if starts != [] {
      var n := |starts| - 1;
      var last, front := starts[n], starts[..n];
      k, i := StartedInAt(front, window, from, span, bound);
      if from <= last.at <= from + span && !last.draining {
        if k > 0 { assert starts[i] == front[i] && starts[i].at + window <= last.at; }
        k, i := k + 1, n;
      }
    }
  }

  /** Before stop, any interval of length span sees at most (span / window + 1) * max(cap, largest
      item) attestations start verification. */
  lemma ThroughputBounded(c: Config, now: int, es: seq<Event>, from: int, span: nat)
    requires c.cap > 0 && c.window > 0 && IsRun(c, Init(now), es)
    ensures var s := After(c, Init(now), es);
            StartedIn(s.starts, from, span) <= (span / c.window + 1) * Max(c.cap, Largest(s.submitted))
  {
    var s := After(c, Init(now), es);
    RunStarts(c, now, es);
    StartsThrottled(s.starts, c.window, from, span, Max(c.cap, Largest(s.submitted)));
    TimesIsProduct(span / c.window + 1, Max(c.cap, Largest(s.submitted)));
  }

  lemma RunStarts(c: Config, now: int, es: seq<Event>)
    requires c.cap > 0 && IsRun(c, Init(now), es)
    ensures var s := After(c, Init(now), es);
            && Spaced(c.window, s.starts)
            && forall i :: 0 <= i < |s.starts| ==> s.starts[i].attestations <= Max(c.cap, Largest(s.submitted))
  {
    RunThrottled(c, Init(now), es);
  }

  lemma StartsThrottled(starts: seq<Start>, window: nat, from: int, span: nat, bound: nat)
    requires window > 0 && Spaced(window, starts)
    requires forall j :: 0 <= j < |starts| ==> starts[j].attestations <= bound
    ensures StartedIn(starts, from, span) <= Times(span / window + 1, bound)
  {
    var k, i := StartedInAt(starts, window, from, span, bound);
    if k > 0 { AtMostSpan(k - 1, window, span); }
    TimesMono(k, span / window + 1, bound);
  }

  lemma AtMostSpan(k: nat, window: nat, span: nat)
    requires window > 0 && Times(k, window) <= span
    ensures k <= span / window
  {
    TimesIsProduct(k, window);
    QuotientBound(k, window, span);
  }

  lemma {:induction false} TimesMono(k: nat, n: nat, x: nat)
    requires k <= n
    ensures Times(k, x) <= Times(n, x)
  {
    if k < n { TimesMono(k, n - 1, x); }
  }
}
