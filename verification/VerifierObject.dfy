/** The batch verifier of node/verifier.go updated in place: each method is a step of the machine of
    Verifier, and keeps its invariant. */
module VerifierObject {
  import opened Verifier

  method BatchEndLoop(queue: seq<Item>, maxItems: int) returns (n: nat)
    ensures n == BatchEnd(queue, maxItems)
  {
    if maxItems <= 0 { return |queue|; }
    n := 0;
    var atts := 0;
    while n < |queue|
      invariant n <= |queue| && atts >= 0
      invariant BatchEnd(queue, maxItems) == BatchEndFrom(queue, maxItems, n, atts)
    {
      atts := atts + queue[n].attestations;
      if n > 0 && atts > maxItems { break; }
      n := n + 1;
    }
  }

  // The sleep of verifyBatch: the batch's attestations are summed one item at a time.
  method BatchDelay(c: Config, base: nat, batch: seq<Item>) returns (delay: nat)
    ensures delay == base + Total(batch) * c.perItem
  {
    var total := 0;
    for i := 0 to |batch|
      invariant total == Total(batch[..i])
    {
      TotalPrefix(batch, i);
      total := total + batch[i].attestations;
    }
    assert batch[..|batch|] == batch;
    delay := base + total * c.perItem;
  }

  class BatchVerifier {
    const config: Config
    var queue: seq<Item>
    var notify: bool
    var stopped: bool
    var timer: Timer
    var timerRunning: bool
    var phase: Phase
    var now: int
    ghost var submitted: seq<Item>
    ghost var completed: seq<Item>
    ghost var starts: seq<Start>
    ghost var late: bool

    ghost function View(): State
      reads this
    {
      State(queue, notify, stopped, timer, timerRunning, phase, now, submitted, completed, starts, late)
    }

    ghost predicate Valid()
      reads this
    {
      Inv(View())
    }

    constructor (config: Config, now: int)
      ensures this.config == config && View() == Init(now) && Valid()
    {
      this.config, this.now := config, now;
      queue, notify, stopped := [], false, false;
      timer, timerRunning, phase := Unarmed, false, Parked;
      submitted, completed, starts, late := [], [], [], false;
    }

    method Submit(item: Item)
      requires Valid()
      modifies this
      ensures Valid() && View() == Next(config, old(View()), Event.Submit(item))
    {
      StepKeepsInv(config, View(), Event.Submit(item));
      queue := queue + [item];
      notify := true;
      submitted, late := submitted + [item], late || stopped;
    }

    method Stop()
      requires Valid()
      modifies this
      ensures Valid() && View() == Next(config, old(View()), Event.Stop)
    {
      StepKeepsInv(config, View(), Event.Stop);
      stopped := true;
      notify := true;
    }

    // The two arms of the select, taken when their channel is ready.
    method Receive(fromTimer: bool)
      requires Valid() && Enabled(View(), if fromTimer then WakeByTimer else WakeByNotify)
      modifies this
      ensures Valid() && View() == Next(config, old(View()), if fromTimer then WakeByTimer else WakeByNotify)
    {
      StepKeepsInv(config, View(), if fromTimer then WakeByTimer else WakeByNotify);
      if fromTimer {
        timer := Unarmed;
        timerRunning := false;
      } else {
        notify := false;
      }
      phase := Woken;
    }

    // The first critical section: drain the signal, then either leave the queue to grow until the
    // window closes or split a batch off its front.
    method TakeBatch()
      requires Valid() && Enabled(View(), FirstLock)
      modifies this
      ensures Valid() && View() == Next(config, old(View()), FirstLock)
    {
      StepKeepsInv(config, View(), FirstLock);
      if timerRunning && !stopped {
        notify, phase := false, Parked;
      } else {
        SplitBatch();
      }
    }

    method SplitBatch()
      requires Enabled(View(), FirstLock) && (timerRunning ==> stopped)
      modifies this
      ensures View() == Next(config, old(View()), FirstLock)
    {
      var n := BatchEndLoop(queue, config.cap);
      notify := false;
      phase := Taken(queue[..n], stopped);
      queue := queue[n..];
    }

    // After the unlock: leave, park again, or restart the window and go to sleep on the batch,
    // with a freshly drawn base delay.
    method BeginBatch(base: nat)
      requires Valid() && Enabled(View(), Begin(base))
      modifies this
      ensures Valid() && View() == Next(config, old(View()), Begin(base))
    {
      StepKeepsInv(config, View(), Begin(base));
      var batch, sawStop := phase.batch, phase.sawStop;
      if sawStop && batch == [] {
        phase := Exited;
      } else if batch == [] {
        phase := Parked;
      } else {
        timer := Armed(now + config.window);
        timerRunning := true;
        var delay := BatchDelay(config, base, batch);
        phase := Verifying(batch, now + delay);
        starts := starts + [Start(now, Total(batch), sawStop)];
      }
    }

    method CallBack() returns (item: Item)
      requires Valid() && Enabled(View(), Callback)
      modifies this
      ensures item == old(View()).phase.rest[0]
      ensures Valid() && View() == Next(config, old(View()), Callback)
    {
      StepKeepsInv(config, View(), Callback);
      item := phase.rest[0];
      phase := Verifying(phase.rest[1..], phase.doneAt);
      completed := completed + [item];
    }

    method Recheck()
      requires Valid() && Enabled(View(), SecondLock)
      modifies this
      ensures Valid() && View() == Next(config, old(View()), SecondLock)
    {
      StepKeepsInv(config, View(), SecondLock);
      phase := Checked(stopped, queue == []);
    }

    method Loop()
      requires Valid() && Enabled(View(), Resignal)
      modifies this
      ensures Valid() && View() == Next(config, old(View()), Resignal)
    {
      StepKeepsInv(config, View(), Resignal);
      if phase.sawStopped {
        if phase.drained {
          phase := Exited;
          return;
        }
        notify := true;
      }
      phase := Parked;
    }
  }
}
