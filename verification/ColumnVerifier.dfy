/** The column verifier of node/column_verifier.go: a width-P semaphore around a constant service
    time.  A burst is `total` validator goroutines that all arrive at time 0; which waiter gets a
    freed slot, and in which order simultaneous sleepers release, is left open. */
module ColumnVerifier {
  import opened Arith

  // finishes[i] is when the i-th column to start will be done; `serving` holds the columns (by
  // start index) that occupy a slot of the semaphore.
  datatype Burst = Burst(width: nat, service: nat, total: nat,
                         now: nat, finishes: seq<nat>, serving: set<nat>)

  datatype Event = Acquire | Release(i: nat) | Pass(to: nat)

  function Arrive(width: nat, service: nat, total: nat): Burst {
    Burst(width, service, total, 0, [], {})
  }

  predicate CanAcquire(b: Burst) { |b.finishes| < b.total && |b.serving| < b.width }

  predicate CanRelease(b: Burst, i: nat) {
    i in b.serving && i < |b.finishes| && b.finishes[i] <= b.now
  }

  // Time passes only while nobody can move, and never beyond the end of a running service.
  predicate CanPass(b: Burst, to: nat) {
    && b.serving != {} && !CanAcquire(b)
    && b.now < to
    && forall i <- b.serving :: i < |b.finishes| && to <= b.finishes[i]
  }

  predicate Enabled(b: Burst, e: Event) {
    match e
    case Acquire => CanAcquire(b)
    case Release(i) => CanRelease(b, i)
    case Pass(to) => CanPass(b, to)
  }

  function Next(b: Burst, e: Event): Burst
    requires Enabled(b, e)
  {
    match e
    case Acquire => b.(finishes := b.finishes + [b.now + b.service], serving := b.serving + {|b.finishes|})
    case Release(i) => b.(serving := b.serving - {i})
    case Pass(to) => b.(now := to)
  }

  predicate IsRun(b: Burst, es: seq<Event>)
    decreases |es|
  {
    es == [] || (Enabled(b, es[0]) && IsRun(Next(b, es[0]), es[1..]))
  }

  function After(b: Burst, es: seq<Event>): Burst
    requires IsRun(b, es)
    decreases |es|
  {
    if es == [] then b else After(Next(b, es[0]), es[1..])
  }

  // When the i-th column starts: one service time after the column `width` places before it.
  function StartTime(width: nat, service: nat, i: nat): nat
    requires width > 0
  {
    if i < width then 0 else StartTime(width, service, i - width) + service
  }

  function Due(b: Burst, i: nat): nat
    requires b.width > 0
  {
    StartTime(b.width, b.service, i) + b.service
  }

  lemma {:induction false} StartTimeIsRound(width: nat, service: nat, i: nat)
    requires width > 0
    ensures StartTime(width, service, i) == i / width * service
  {
    if i < width {
      QuotientIs(0, width, i);
    } else {
      StartTimeIsRound(width, service, i - width);
      var q := (i - width) / width;
      assert (q + 1) * width == q * width + width;
      QuotientIs(q + 1, width, i);
      assert (q + 1) * service == q * service + service;
    }
  }

  lemma {:induction false} StartTimeMonotone(width: nat, service: nat, i: nat, j: nat)
    requires width > 0 && i <= j
    ensures StartTime(width, service, i) <= StartTime(width, service, j)
  {
    if i >= width { StartTimeMonotone(width, service, i - width, j - width); }
  }

  predicate Inv(b: Burst) {
    && b.width > 0
    && |b.finishes| <= b.total
    && |b.serving| <= b.width
    && (forall i <- b.serving :: i < |b.finishes|)
    && (forall i :: 0 <= i < |b.finishes| ==> b.finishes[i] == Due(b, i))
    && (forall i :: 0 <= i < |b.finishes| && i !in b.serving ==> b.finishes[i] <= b.now)
    && (forall i <- b.serving :: b.now <= b.finishes[i])
    && (|b.finishes| < b.total ==> b.now <= StartTime(b.width, b.service, |b.finishes|))
    && (b.now == 0 || exists i :: 0 <= i < |b.finishes| && b.now <= b.finishes[i])
  }

  function Range(lo: nat, hi: nat): (r: set<nat>)
    requires lo <= hi
    ensures forall i :: i in r <==> lo <= i < hi
    ensures |r| == hi - lo
    decreases hi - lo
  {
    if lo == hi then {} else {lo} + Range(lo + 1, hi)
  }

  lemma SubsetCard(a: set<nat>, b: set<nat>)
    requires a <= b
    ensures |a| <= |b|
  {
    assert b == a + (b - a);
  }

  // A column that can start now starts exactly at the end of the round before its own.
  lemma AcquireOnTheBeat(b: Burst)
    requires Inv(b) && CanAcquire(b)
    ensures b.now == StartTime(b.width, b.service, |b.finishes|)
  {
    var k, w := |b.finishes|, b.width;
    if k >= w {
      var window := Range(k - w, k);
      if window <= b.serving { SubsetCard(window, b.serving); }
      var i :| i in window && i !in b.serving;
      StartTimeMonotone(w, b.service, k - w, i);
    }
  }

  // A full server with columns waiting holds one of the first columns of the previous round.
  lemma PassBounded(b: Burst, to: nat)
    requires Inv(b) && CanPass(b, to) && |b.finishes| < b.total
    ensures to <= StartTime(b.width, b.service, |b.finishes|)
  {
    var k, w := |b.finishes|, b.width;
    SubsetCard(b.serving, Range(0, k));
    assert k >= w;
    if forall i <- b.serving :: i > k - w {
      SubsetCard(b.serving, Range(k - w + 1, k));
    }
    var i :| i in b.serving && i <= k - w;
    StartTimeMonotone(w, b.service, i, k - w);
  }

  lemma AcquireKeepsInv(b: Burst)
    requires Inv(b) && CanAcquire(b)
    ensures Inv(Next(b, Acquire))
  {
    AcquireOnTheBeat(b);
    var n, k := Next(b, Acquire), |b.finishes|;
    StartTimeMonotone(b.width, b.service, k, k + 1);
    forall i | 0 <= i < |n.finishes| ensures n.finishes[i] == Due(n, i) {
      if i < k { assert b.finishes[i] == Due(b, i); }
    }
    assert n.now <= n.finishes[k];
  }

  lemma PassKeepsInv(b: Burst, to: nat)
    requires Inv(b) && CanPass(b, to)
    ensures Inv(Next(b, Pass(to)))
  {
    if |b.finishes| < b.total { PassBounded(b, to); }
    var n := Next(b, Pass(to));
    var i :| i in b.serving;
    assert n.now <= n.finishes[i];
    forall j | 0 <= j < |n.finishes| ensures n.finishes[j] == Due(n, j) {
      assert b.finishes[j] == Due(b, j);
    }
  }

  lemma ReleaseKeepsInv(b: Burst, i: nat)
    requires Inv(b) && CanRelease(b, i)
    ensures Inv(Next(b, Release(i)))
  {
    var n := Next(b, Release(i));
    assert n.serving + {i} == b.serving;
    forall j | 0 <= j < |n.finishes| ensures n.finishes[j] == Due(n, j) {
      assert b.finishes[j] == Due(b, j);
    }
  }

  lemma StepKeepsInv(b: Burst, e: Event)
    requires Inv(b) && Enabled(b, e)
    ensures Inv(Next(b, e))
  {
    match e
    case Acquire => AcquireKeepsInv(b);
    case Release(i) => ReleaseKeepsInv(b, i);
    case Pass(to) => PassKeepsInv(b, to);
  }

  lemma {:induction false} RunKeepsInv(b: Burst, es: seq<Event>)
    requires Inv(b) && IsRun(b, es)
    ensures Inv(After(b, es))
    ensures var a := After(b, es); a.width == b.width && a.service == b.service && a.total == b.total
    decreases |es|
  {
    if es != [] {
      StepKeepsInv(b, es[0]);
      RunKeepsInv(Next(b, es[0]), es[1..]);
    }
  }

  function CeilDiv(c: nat, p: nat): nat
    requires p > 0
  {
    (c + p - 1) / p
  }

  lemma CeilIsLastRound(c: nat, p: nat)
    requires p > 0 && c > 0
    ensures (c - 1) / p + 1 == CeilDiv(c, p)
  {
    var q := (c - 1) / p;
    assert (q + 1) * p == q * p + p;
    QuotientIs(q + 1, p, c + p - 1);
  }

  /** However the slots are handed out: never more than P columns are in service, the i-th to start
      finishes at (i / P + 1) * service, and when the burst is over the clock reads
      ceil(c / P) * service. */
  lemma Makespan(width: nat, service: nat, total: nat, es: seq<Event>)
    requires width > 0 && IsRun(Arrive(width, service, total), es)
    ensures var b := After(Arrive(width, service, total), es);
            && |b.serving| <= width
            && (forall i :: 0 <= i < |b.finishes| ==> b.finishes[i] == (i / width + 1) * service)
            && (|b.finishes| == total && b.serving == {} ==> b.now == CeilDiv(total, width) * service)
  {
    var b0 := Arrive(width, service, total);
    assert Inv(b0);
    RunKeepsInv(b0, es);
    var b := After(b0, es);
    forall i | 0 <= i < |b.finishes| ensures b.finishes[i] == (i / width + 1) * service {
      FinishIsRound(b, i);
    }
    if |b.finishes| == total && b.serving == {} && total > 0 {
      CeilIsLastRound(total, width);
      assert b.finishes[total - 1] <= b.now;
      if b.now > 0 {
        var i :| 0 <= i < |b.finishes| && b.now <= b.finishes[i];
        StartTimeMonotone(width, service, i, total - 1);
      }
    }
  }

  lemma FinishIsRound(b: Burst, i: nat)
    requires Inv(b) && i < |b.finishes|
    ensures b.finishes[i] == (i / b.width + 1) * b.service
  {
    StartTimeIsRound(b.width, b.service, i);
    var q := i / b.width;
    assert (q + 1) * b.service == q * b.service + b.service;
  }

  /** A burst that is not over is never stuck: a slot can be taken or freed, or time can pass. */
  lemma BurstProgresses(b: Burst) returns (e: Event)
    requires Inv(b) && !(|b.finishes| == b.total && b.serving == {})
    ensures Enabled(b, e)
  {
    if CanAcquire(b) {
      e := Acquire;
    } else if exists i :: CanRelease(b, i) {
      var i :| CanRelease(b, i);
      e := Release(i);
    } else {
      assert b.serving != {};
      var j := Earliest(b, b.serving);
      assert !CanRelease(b, j);
      e := Pass(b.finishes[j]);
    }
  }

  lemma {:induction false} Earliest(b: Burst, s: set<nat>) returns (j: nat)
    requires s != {} && forall i <- s :: i < |b.finishes|
    ensures j in s && forall i <- s :: b.finishes[j] <= b.finishes[i]
    decreases s
  {
    j :| j in s;
    if s != {j} {
      var k := Earliest(b, s - {j});
      if b.finishes[k] < b.finishes[j] { j := k; }
    }
  }

  // The server in place: the buffered channel's occupancy, the clock, and when each column inside
  // wakes.  Columns are named by the place in which they got their slot; the ghost burst is what the
  // server has done so far.
  class Server {
    const capacity: nat
    const service: nat
    var used: nat
    var now: nat
    var entered: nat
    var wake: map<nat, nat>
    ghost var burst: Burst

    ghost predicate Valid()
      reads this
    {
      && Inv(burst) && burst.width == capacity && burst.service == service && burst.now == now
      && used == |burst.serving| && entered == |burst.finishes| && Sleeps(burst, wake)
    }

    // A width under one counts as one.
    constructor (slots: int, service: nat, ghost total: nat)
      ensures Valid() && capacity == (if slots < 1 then 1 else slots) && this.service == service
      ensures used == entered == now == 0 && wake == map[] && burst.total == total
    {
      this.capacity := if slots < 1 then 1 else slots;
      this.service := service;
      used, now, entered, wake := 0, 0, 0, map[];
      burst := Arrive(if slots < 1 then 1 else slots, service, total);
    }

    /** Whenever the server is used this way, its occupancy is within the width and whoever was i-th
        to get in sleeps until the end of round i / P. */
    lemma WakesAtRoundEnds()
      requires Valid()
      ensures used <= capacity && used == |wake|
      ensures forall i <- wake :: wake[i] == (i / capacity + 1) * service
    {
      assert |wake| == |wake.Keys|;
      forall i <- wake ensures wake[i] == (i / capacity + 1) * service { FinishIsRound(burst, i); }
    }

    // A send on the channel goes through.
    method Enter()
      requires Valid() && used < capacity && entered < burst.total
      modifies this
      ensures Valid() && used == old(used) + 1 && entered == old(entered) + 1 && now == old(now)
      ensures wake == old(wake)[old(entered) := old(now) + service] && burst.total == old(burst.total)
    {
      var until := wake[entered := now + service];
      ghost var n := EnterKeeps(burst, wake, until);
      used := used + 1;
      wake := until;
      entered := entered + 1;
      burst := n;
    }

    // A column wakes and receives from the channel.
    method Leave(i: nat)
      requires Valid() && i in wake && wake[i] <= now
      modifies this
      ensures Valid() && used == old(used) - 1 && entered == old(entered) && now == old(now)
      ensures wake == old(wake) - {i} && burst.total == old(burst.total)
    {
      ReleaseKeepsInv(burst, i);
      used := used - 1;
      wake := wake - {i};
      burst := Next(burst, Release(i));
    }

    // Nobody can get in, and time runs to the next to wake.
    method Wait(to: nat)
      requires Valid() && wake != map[] && (used == capacity || entered == burst.total)
      requires now < to && forall i <- wake :: to <= wake[i]
      modifies this
      ensures Valid() && now == to && used == old(used) && entered == old(entered) && wake == old(wake)
      ensures burst.total == old(burst.total)
    {
      PassKeepsInv(burst, to);
      now := to;
      burst := Next(burst, Pass(to));
    }
  }

  // Exactly the columns in service sleep, each until its finish.
  predicate Sleeps(b: Burst, wake: map<nat, nat>) {
    wake.Keys == b.serving && forall i <- wake :: i < |b.finishes| && wake[i] == b.finishes[i]
  }

  lemma EnterKeeps(b: Burst, wake: map<nat, nat>, until: map<nat, nat>) returns (n: Burst)
    requires Inv(b) && CanAcquire(b) && Sleeps(b, wake) && until == wake[|b.finishes| := b.now + b.service]
    ensures n == Next(b, Acquire) && n.width == b.width && n.service == b.service && n.total == b.total && n.now == b.now
    ensures Inv(n) && |n.serving| == |b.serving| + 1 && |n.finishes| == |b.finishes| + 1
    ensures Sleeps(n, until)
  {
    n := Next(b, Acquire);
    AcquireKeepsInv(b);
    EnterCard(b);
  }

  lemma EnterCard(b: Burst)
    requires Inv(b) && CanAcquire(b)
    ensures |Next(b, Acquire).serving| == |b.serving| + 1
  {
    assert |b.finishes| !in b.serving;
  }
}
