/** What a run of the batch verifier of node/verifier.go looks like from outside, read off its events
    alone: which items come back, in what order and when, and how much is started in an interval. */
module VerifierTiming {
  import opened Verifier
  import opened VerifierThroughput

  // ---------------------------------------------------------------- sums

  lemma {:induction false} TotalConcat(a: seq<Item>, b: seq<Item>)
    ensures Total(a + b) == Total(a) + Total(b)
  {
    if b == [] {
      assert a + b == a;
    } else {
      assert (a + b)[..|a + b| - 1] == a + b[..|b| - 1];
      TotalConcat(a, b[..|b| - 1]);
    }
  }

  /** Total adds up attestations, item by item. */
  lemma TotalIsSum(a: seq<Item>, item: Item, b: seq<Item>)
    ensures Total(a + [item] + b) == Total(a) + item.attestations + Total(b)
  {
    TotalConcat(a + [item], b);
    TotalConcat(a, [item]);
    assert [item][..0] == [];
  }

  // ---------------------------------------------------------------- when items come back

  // One batch as started: when, with what base delay, and its items.
  datatype Sleep = Sleep(at: int, base: nat, batch: seq<Item>)

  // The batch started last, given that started before this step.
  function Began(s: State, e: Event, last: Sleep): Sleep
    requires Enabled(s, e)
  {
    if e.Begin? && s.phase.batch != [] then Sleep(s.now, e.base, s.phase.batch) else last
  }

  // In this state: what is left of the batch started last may be called back from base plus perItem
  // for each of its attestations after its start, and not before; the window timer may expire from a
  // window after its start, and not before.
  predicate OnTimeNow(c: Config, s: State, last: Sleep) {
    && (s.phase.Verifying? && s.phase.rest != [] ==>
          && |s.phase.rest| <= |last.batch| && s.phase.rest == last.batch[|last.batch| - |s.phase.rest|..]
          && (Enabled(s, Callback) <==> last.at + last.base + c.perItem * Total(last.batch) <= s.now))
    && (s.timer.Armed? ==> (Enabled(s, Expire) <==> last.at + c.window <= s.now))
  }

  // ... and in every state of the run.
  predicate OnTime(c: Config, s: State, es: seq<Event>, last: Sleep)
    requires IsRun(c, s, es)
    decreases |es|
  {
    OnTimeNow(c, s, last) && (es != [] ==> OnTime(c, Next(c, s, es[0]), es[1..], Began(s, es[0], last)))
  }

  predicate Timed(c: Config, s: State, last: Sleep) {
    && (s.phase.Verifying? && s.phase.rest != [] ==>
          && |s.phase.rest| <= |last.batch| && s.phase.rest == last.batch[|last.batch| - |s.phase.rest|..]
          && s.phase.doneAt == last.at + last.base + c.perItem * Total(last.batch))
    && (s.timer.Armed? ==> s.timer.due == last.at + c.window)
  }

  lemma BeginTimed(c: Config, s: State, base: nat, last: Sleep)
    requires Timed(c, s, last) && Enabled(s, Begin(base))
    ensures Timed(c, Next(c, s, Begin(base)), Began(s, Begin(base), last))
  {
    if s.phase.batch != [] { assert s.phase.batch[0..] == s.phase.batch; }
  }

  lemma CallbackTimed(c: Config, s: State, last: Sleep)
    requires Timed(c, s, last) && Enabled(s, Callback)
    ensures Timed(c, Next(c, s, Callback), last)
  {
    var rest := s.phase.rest;
    assert rest[1..] == last.batch[|last.batch| - |rest| + 1..];
  }

  lemma StepTimed(c: Config, s: State, e: Event, last: Sleep)
    requires Timed(c, s, last) && Enabled(s, e)
    ensures Timed(c, Next(c, s, e), Began(s, e, last))
  {
    match e
    case Begin(base) => BeginTimed(c, s, base, last);
    case Callback => CallbackTimed(c, s, last);
    case _ =>
  }

  lemma {:induction false} RunOnTime(c: Config, s: State, es: seq<Event>, last: Sleep)
    requires Timed(c, s, last) && IsRun(c, s, es)
    ensures OnTime(c, s, es, last)
    decreases |es|
  {
    if es != [] {
      StepTimed(c, s, es[0], last);
      RunOnTime(c, Next(c, s, es[0]), es[1..], Began(s, es[0], last));
    }
  }

  /** Over every run: the items of a batch started at t with base delay b are called back, in order,
      from t + b + perItem * its attestations on and never before, and the window reopens exactly a
      window after t. */
  lemma CallbacksOnTime(c: Config, now: int, es: seq<Event>)
    requires IsRun(c, Init(now), es)
    ensures OnTime(c, Init(now), es, Sleep(now, 0, []))
  {
    RunOnTime(c, Init(now), es, Sleep(now, 0, []));
  }

  // ---------------------------------------------------------------- what comes back

  // The items submitted, in order.
  function Submissions(es: seq<Event>): seq<Item> {
    if es == [] then [] else SubmittedBy(es[0]) + Submissions(es[1..])
  }

  // The items called back, in order.
  function Returned(c: Config, s: State, es: seq<Event>): seq<Item>
    requires IsRun(c, s, es)
    decreases |es|
  {
    if es == [] then [] else ReturnedBy(s, es[0]) + Returned(c, Next(c, s, es[0]), es[1..])
  }

  // Something is submitted after a stop.
  predicate SubmitsLate(es: seq<Event>, stopped: bool) {
    es != [] && ((es[0].Submit? && stopped) || SubmitsLate(es[1..], stopped || es[0].Stop?))
  }

  function SubmittedBy(e: Event): seq<Item> { if e.Submit? then [e.item] else [] }

  function ReturnedBy(s: State, e: Event): seq<Item>
    requires Enabled(s, e)
  {
    if e.Callback? then [s.phase.rest[0]] else []
  }

  lemma StepHistories(c: Config, s: State, e: Event)
    requires Enabled(s, e)
    ensures var n := Next(c, s, e);
            && n.submitted == s.submitted + SubmittedBy(e) && n.completed == s.completed + ReturnedBy(s, e)
            && (n.late <==> s.late || (e.Submit? && s.stopped)) && (n.stopped <==> s.stopped || e.Stop?)
  {
  }

  lemma {:induction false} HistoriesAreTheRun(c: Config, s: State, es: seq<Event>)
    requires IsRun(c, s, es)
    ensures After(c, s, es).submitted == s.submitted + Submissions(es)
    ensures After(c, s, es).completed == s.completed + Returned(c, s, es)
    ensures After(c, s, es).late <==> s.late || SubmitsLate(es, s.stopped)
    decreases |es|
  {
    if es != [] {
      var n := Next(c, s, es[0]);
      StepHistories(c, s, es[0]);
      HistoriesAreTheRun(c, n, es[1..]);
      Regroup(s.submitted, SubmittedBy(es[0]), Submissions(es[1..]));
      Regroup(s.completed, ReturnedBy(s, es[0]), Returned(c, n, es[1..]));
    }
  }

  lemma Regroup<T>(a: seq<T>, b: seq<T>, c: seq<T>)
    ensures a + b + c == a + (b + c)
  {
  }

  /** Over every run: what was called back, then what is in hand, then what is queued, is what was
      submitted, in order; and once the loop has left with nothing submitted after a stop, every
      submitted item was called back, each once and in order. */
  lemma EveryItemComesBack(c: Config, now: int, es: seq<Event>)
    requires IsRun(c, Init(now), es)
    ensures var s := After(c, Init(now), es);
            && Returned(c, Init(now), es) + InHand(s.phase) + s.queue == Submissions(es)
            && (s.phase.Exited? && !SubmitsLate(es, false) ==> Returned(c, Init(now), es) == Submissions(es))
  {
    HistoriesAreTheRun(c, Init(now), es);
    ConservationAndWakeup(c, now, es);
    assert [] + Returned(c, Init(now), es) == Returned(c, Init(now), es);
    assert [] + Submissions(es) == Submissions(es);
  }

  // ---------------------------------------------------------------- what a batch takes

  /** The first critical section: inside the window of a running timer nothing is taken; otherwise the
      batch is the longest front of the queue that fits the cap, or its head alone when that is over
      it, and the rest stays queued in order; uncapped, everything is taken. */
  lemma LockTakesLongestFit(c: Config, s: State)
    requires Enabled(s, FirstLock)
    ensures var n := Next(c, s, FirstLock);
            && !n.notify && n.stopped == s.stopped && n.timer == s.timer
            && (s.timerRunning && !s.stopped ==> n.phase.Parked? && n.queue == s.queue)
            && (!s.timerRunning || s.stopped ==>
                  && n.phase.Taken? && n.phase.sawStop == s.stopped && n.phase.batch + n.queue == s.queue
                  && (c.cap <= 0 ==> n.queue == [])
                  && (c.cap > 0 && s.queue != [] ==>
                        && n.phase.batch != []
                        && (Total(n.phase.batch) <= c.cap || |n.phase.batch| == 1)
                        && (n.queue != [] ==> Total(n.phase.batch + [n.queue[0]]) > c.cap)))
  {
    BatchEndIsLongestFit(s.queue, c.cap);
    var end := BatchEnd(s.queue, c.cap);
    assert s.queue[..end] + s.queue[end..] == s.queue;
    if end < |s.queue| { assert s.queue[..end] + [s.queue[end]] == s.queue[..end + 1]; }
  }

  // ---------------------------------------------------------------- how much is started

  // Attestations whose verification starts in [from, from + span], before any stop.
  function StartedDuring(c: Config, s: State, es: seq<Event>, from: int, span: int, stopped: bool): nat
    requires IsRun(c, s, es)
    decreases |es|
  {
    if es == [] then 0
    else
      (if es[0].Begin? && !stopped && from <= s.now <= from + span then Total(s.phase.batch) else 0)
      + StartedDuring(c, Next(c, s, es[0]), es[1..], from, span, stopped || es[0].Stop?)
  }

  lemma StartedInAppend(starts: seq<Start>, next: Start, from: int, span: int)
    ensures StartedIn(starts + [next], from, span) ==
            StartedIn(starts, from, span) + if from <= next.at <= from + span && !next.draining then next.attestations else 0
  {
    assert (starts + [next])[..|starts|] == starts;
  }

  lemma StepStarts(c: Config, s: State, e: Event, from: int, span: int)
    requires Inv(s) && Enabled(s, e)
    ensures StartedIn(Next(c, s, e).starts, from, span) >= StartedIn(s.starts, from, span) +
              if e.Begin? && !s.stopped && from <= s.now <= from + span then Total(s.phase.batch) else 0
    ensures Next(c, s, e).stopped == (s.stopped || e.Stop?)
  {
    if e.Begin? && s.phase.batch != [] {
      StartedInAppend(s.starts, Start(s.now, Total(s.phase.batch), s.phase.sawStop), from, span);
    }
  }

  lemma {:induction false} StartsAreRecorded(c: Config, s: State, es: seq<Event>, from: int, span: int)
    requires Inv(s) && IsRun(c, s, es)
    ensures StartedIn(s.starts, from, span) + StartedDuring(c, s, es, from, span, s.stopped)
            <= StartedIn(After(c, s, es).starts, from, span)
    decreases |es|
  {
    if es != [] {
      StepKeepsInv(c, s, es[0]);
      StepStarts(c, s, es[0], from, span);
      StartsAreRecorded(c, Next(c, s, es[0]), es[1..], from, span);
    }
  }

  /** The throughput bound, read off the events: before stop, the batches begun in any interval of
      length span hold at most (span / window + 1) * max(cap, largest submitted item) attestations. */
  lemma StartRateBounded(c: Config, now: int, es: seq<Event>, from: int, span: nat)
    requires c.cap > 0 && c.window > 0 && IsRun(c, Init(now), es)
    ensures StartedDuring(c, Init(now), es, from, span, false) <= (span / c.window + 1) * Max(c.cap, Largest(Submissions(es)))
  {
    ThroughputBounded(c, now, es, from, span);
    StartsAreRecorded(c, Init(now), es, from, span);
    HistoriesAreTheRun(c, Init(now), es);
    assert [] + Submissions(es) == Submissions(es);
  }
}
