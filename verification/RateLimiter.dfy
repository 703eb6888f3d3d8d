/**
 Token bucket over exact real arithmetic.  One attempt is one locked section; a run is any
 sequence of attempts by any threads, in the order in which they took the lock, with the clock
 readings taken inside it.
 */
module RateLimiter {
  datatype Bucket = Bucket(tokens: real, last: real)

  datatype Attempt = Attempt(now: real, amount: real)

  function Min(a: real, b: real): real { if a <= b then a else b }
  function Max(a: real, b: real): real { if a >= b then a else b }

  /** Tokens that flow in over a span of time. */
  function Inflow(span: real, rate: real): real { span * rate }

  function Refill(rate: real, capacity: real, b: Bucket, now: real): real {
    Min(capacity, b.tokens + Inflow(now - b.last, rate))
  }

  /** One locked section: refill, then take if there is enough. */
  function Take(rate: real, capacity: real, b: Bucket, a: Attempt): Bucket {
    var level := Refill(rate, capacity, b, a.now);
    Bucket(if level >= a.amount then level - a.amount else level, a.now)
  }

  predicate Granted(rate: real, capacity: real, b: Bucket, a: Attempt) {
    Refill(rate, capacity, b, a.now) >= a.amount
  }

  function WaitTime(rate: real, capacity: real, b: Bucket, a: Attempt): real
    requires rate > 0.0
  {
    Max(0.01, (a.amount - Refill(rate, capacity, b, a.now)) / rate)
  }

  class TokenBucket {
    const rate: real
    const capacity: real
    var tokens: real
    var lastUpdate: real

    ghost function Level(): Bucket reads this { Bucket(tokens, lastUpdate) }

    constructor (rate: real, capacity: real, now: real)
      ensures this.rate == rate && this.capacity == capacity && Level() == Bucket(capacity, now)
    {
      this.rate := rate;
      this.capacity := capacity;
      tokens := capacity;
      lastUpdate := now;
    }

    /** The body of the lock in acquire. */
    method Section(now: real, amount: real) returns (granted: bool, wait: real)
      requires rate > 0.0
      modifies this
      ensures Level() == Take(rate, capacity, old(Level()), Attempt(now, amount))
      ensures granted == Granted(rate, capacity, old(Level()), Attempt(now, amount))
      ensures var due := old(tokens) + (now - old(lastUpdate)) * rate;
        var level := if due < capacity then due else capacity;
        && (granted <==> amount <= level) && lastUpdate == now
        && tokens == level - (if granted then amount else 0.0)
      ensures !granted ==> Max(0.01, wait) == WaitTime(rate, capacity, old(Level()), Attempt(now, amount))
    {
      wait := 0.0;
      var elapsed := now - lastUpdate;
      lastUpdate := now;
      tokens := Min(capacity, tokens + elapsed * rate);
      if tokens >= amount {
        tokens := tokens - amount;
        return true, wait;
      }
      wait := (amount - tokens) / rate;
      return false, wait;
    }

    /**
     acquire by a lone caller whose sleeps last at least as long as asked; `oversleeps` lists what
     they last in addition.  A list that runs out means that the caller is still waiting: within the
     capacity one sleep is always enough, above it no number of sleeps is.
     */
    method AcquireAlone(now: real, amount: real, oversleeps: seq<real>) returns (granted: bool, end: real, sleeps: nat)
      requires rate > 0.0 && forall i | 0 <= i < |oversleeps| :: oversleeps[i] >= 0.0
      modifies this
      ensures sleeps <= |oversleeps| && end == lastUpdate
      ensures !granted ==> sleeps == |oversleeps|
      ensures amount > capacity ==> !granted
      ensures amount <= capacity && oversleeps != [] ==>
                && granted
                && sleeps == (if Granted(rate, capacity, old(Level()), Attempt(now, amount)) then 0 else 1)
                && Level() == AloneBucket(rate, capacity, old(Level()), now, amount, oversleeps[0])
    {
      end, sleeps := now, 0;
      ghost var start := Level();
      var wait;
      granted, wait := Section(now, amount);
      while !granted && sleeps < |oversleeps|
        invariant sleeps <= |oversleeps| && end == lastUpdate
        invariant amount > capacity ==> !granted
        invariant sleeps == 0 ==> && end == now && Level() == Take(rate, capacity, start, Attempt(now, amount))
                                  && granted == Granted(rate, capacity, start, Attempt(now, amount))
        invariant sleeps == 0 && !granted ==> Max(0.01, wait) == WaitTime(rate, capacity, start, Attempt(now, amount))
        invariant sleeps > 0 && amount <= capacity ==>
                    && sleeps == 1 && granted && !Granted(rate, capacity, start, Attempt(now, amount))
                    && Level() == AloneBucket(rate, capacity, start, now, amount, oversleeps[0])
      {
        if amount <= capacity { SecondAttemptGranted(rate, capacity, start, now, amount, oversleeps[0]); }
        end := end + (Max(0.01, wait) + oversleeps[sleeps]);
        granted, wait := Section(end, amount);
        sleeps := sleeps + 1;
      }
    }
  }

  /** The bucket after a lone caller's acquire. */
  function AloneBucket(rate: real, capacity: real, b: Bucket, now: real, amount: real, oversleep: real): Bucket
    requires rate > 0.0
  {
    var a := Attempt(now, amount);
    if Granted(rate, capacity, b, a) then Take(rate, capacity, b, a)
    else Take(rate, capacity, Take(rate, capacity, b, a),
              Attempt(now + (WaitTime(rate, capacity, b, a) + oversleep), amount))
  }

  lemma DivMul(x: real, y: real)
    requires y > 0.0
    ensures Inflow(x / y, y) == x
  {
  }

  lemma InflowMono(x: real, y: real, rate: real)
    requires x <= y && rate >= 0.0
    ensures Inflow(x, rate) <= Inflow(y, rate)
  {
  }

  lemma InflowAdd(x: real, y: real, rate: real)
    ensures Inflow(x, rate) + Inflow(y, rate) == Inflow(x + y, rate)
  {
  }

  lemma InflowPos(x: real, rate: real)
    requires rate > 0.0
    ensures x > 0.0 <==> Inflow(x, rate) > 0.0
    ensures x == 0.0 <==> Inflow(x, rate) == 0.0
  {
  }

  /** After one sleep a request within the capacity is always granted to a lone caller. */
  lemma SecondAttemptGranted(rate: real, capacity: real, b: Bucket, now: real, amount: real, oversleep: real)
    requires rate > 0.0 && oversleep >= 0.0 && amount <= capacity
    requires !Granted(rate, capacity, b, Attempt(now, amount))
    ensures var a := Attempt(now, amount);
      Granted(rate, capacity, Take(rate, capacity, b, a),
              Attempt(now + (WaitTime(rate, capacity, b, a) + oversleep), amount))
  {
    var a := Attempt(now, amount);
    var level := Refill(rate, capacity, b, now);
    var w := WaitTime(rate, capacity, b, a);
    DivMul(amount - level, rate);
    InflowMono((amount - level) / rate, w + oversleep, rate);
    assert now + (w + oversleep) - now == w + oversleep;
    assert Take(rate, capacity, b, a) == Bucket(level, now);
  }

  /**
   One attempt in numbers.  What has flowed in since the last one is added, up to the capacity; the
   request is granted exactly if that much is there, and only then is anything taken, the amount and no
   more; otherwise the time to sleep is what the missing tokens take to flow in, 0.01 s at least.
   */
  lemma AttemptMeans(rate: real, capacity: real, b: Bucket, a: Attempt)
    requires rate > 0.0
    ensures var due, after := b.tokens + rate * (a.now - b.last), Take(rate, capacity, b, a);
      var level, granted := if due < capacity then due else capacity, Granted(rate, capacity, b, a);
      && (granted <==> a.amount <= level)
      && after.last == a.now && after.tokens == level - (if granted then a.amount else 0.0)
      && (!granted ==>
            var wait := WaitTime(rate, capacity, b, a);
            && wait >= 0.01 && rate * wait >= a.amount - level
            && (wait == 0.01 || rate * wait == a.amount - level))
  {
    var missing := a.amount - Refill(rate, capacity, b, a.now);
    DivMul(missing, rate);
    InflowMono(missing / rate, Max(0.01, missing / rate), rate);
  }

  // ---------------------------------------------------------------- any run of any threads

  /** Clock readings never decrease, requests are not negative. */
  ghost predicate Legal(run: seq<Attempt>, start: real) {
    && (forall i | 0 <= i < |run| :: run[i].amount >= 0.0 && start <= run[i].now)
    && (forall i, j | 0 <= i < j < |run| :: run[i].now <= run[j].now)
  }

  function After(rate: real, capacity: real, start: real, run: seq<Attempt>): Bucket {
    if run == [] then Bucket(capacity, start)
    else Take(rate, capacity, After(rate, capacity, start, run[..|run| - 1]), run[|run| - 1])
  }

  /** The tokens granted by the attempts whose clock reading lies in [from, to]. */
  function GrantedIn(rate: real, capacity: real, start: real, run: seq<Attempt>, from: real, to: real): real {
    if run == [] then 0.0
    else
      var a := run[|run| - 1];
      GrantedIn(rate, capacity, start, run[..|run| - 1], from, to)
      + if from <= a.now <= to && Granted(rate, capacity, After(rate, capacity, start, run[..|run| - 1]), a)
        then a.amount else 0.0
  }

  lemma LegalPrefix(run: seq<Attempt>, start: real)
    requires Legal(run, start) && run != []
    ensures Legal(run[..|run| - 1], start)
  {
  }

  /** The stored level stays within [0, capacity] after every attempt of every run. */
  lemma {:induction false} LevelBounded(rate: real, capacity: real, start: real, run: seq<Attempt>)
    requires rate > 0.0 && capacity >= 0.0 && Legal(run, start)
    ensures 0.0 <= After(rate, capacity, start, run).tokens <= capacity
    ensures After(rate, capacity, start, run).last == if run == [] then start else run[|run| - 1].now
  {
    if run != [] {
      var prefix, a := run[..|run| - 1], run[|run| - 1];
      LegalPrefix(run, start);
      LevelBounded(rate, capacity, start, prefix);
      var b := After(rate, capacity, start, prefix);
      assert b.last <= a.now;
      InflowMono(0.0, a.now - b.last, rate);
      InflowPos(0.0, rate);
    }
  }

  /** A bucket that nobody has asked for as long as it takes to fill is full, and a grant leaves all but its amount. */
  lemma IdleBucketIsFull(rate: real, capacity: real, start: real, run: seq<Attempt>, a: Attempt)
    requires rate > 0.0 && capacity >= 0.0 && Legal(run, start)
    requires a.now - After(rate, capacity, start, run).last >= capacity / rate
    ensures Granted(rate, capacity, After(rate, capacity, start, run), a) <==> a.amount <= capacity
    ensures Take(rate, capacity, After(rate, capacity, start, run), a)
         == Bucket(if a.amount <= capacity then capacity - a.amount else capacity, a.now)
  {
    var b := After(rate, capacity, start, run);
    LevelBounded(rate, capacity, start, run);
    DivMul(capacity, rate);
    InflowMono(capacity / rate, a.now - b.last, rate);
  }

  /** The tokens granted by the attempts from number `i` on. */
  function GrantedFrom(rate: real, capacity: real, start: real, run: seq<Attempt>, i: nat): real {
    if |run| <= i then 0.0
    else
      var before, a := run[..|run| - 1], run[|run| - 1];
      GrantedFrom(rate, capacity, start, before, i)
      + if Granted(rate, capacity, After(rate, capacity, start, before), a) then a.amount else 0.0
  }

  /** The clock at instant `k`: 0 is the start, and `k` the attempt number `k - 1`. */
  function Clock(start: real, run: seq<Attempt>, k: nat): real
    requires k <= |run|
  {
    if k == 0 then start else run[k - 1].now
  }

  /** What would be left by now if the bucket had been full at instant `k` and nothing had been spilled since. */
  function IfFullAt(rate: real, capacity: real, start: real, run: seq<Attempt>, k: nat): real
    requires k <= |run|
  {
    capacity + Inflow(Clock(start, run, |run|) - Clock(start, run, k), rate)
    - GrantedFrom(rate, capacity, start, run, if k == 0 then 0 else k - 1)
  }

  lemma {:induction false} LastIsClock(rate: real, capacity: real, start: real, run: seq<Attempt>)
    ensures After(rate, capacity, start, run).last == Clock(start, run, |run|)
  {
  }

  /** One more attempt, for the instants before it and for its own. */
  lemma IfFullStep(rate: real, capacity: real, start: real, run: seq<Attempt>, k: nat)
    requires run != [] && k <= |run|
    ensures var before, a, n := run[..|run| - 1], run[|run| - 1], |run| - 1;
      var grant := if Granted(rate, capacity, After(rate, capacity, start, before), a) then a.amount else 0.0;
      IfFullAt(rate, capacity, start, run, k) ==
      (if k == |run| then capacity
       else IfFullAt(rate, capacity, start, before, k) + Inflow(a.now - Clock(start, before, n), rate)) - grant
  {
    var before, a, n := run[..|run| - 1], run[|run| - 1], |run| - 1;
    var i := if k == 0 then 0 else k - 1;
    var grant := if Granted(rate, capacity, After(rate, capacity, start, before), a) then a.amount else 0.0;
    assert GrantedFrom(rate, capacity, start, run, i) == GrantedFrom(rate, capacity, start, before, i) + grant;
    assert Clock(start, run, |run|) == a.now;
    if k < |run| {
      assert Clock(start, run, k) == Clock(start, before, k);
      InflowAdd(run[n].now - Clock(start, before, n), Clock(start, before, n) - Clock(start, before, k), rate);
    } else {
      assert GrantedFrom(rate, capacity, start, before, n) == 0.0;
      assert Inflow(0.0, rate) == 0.0;
    }
  }

  /**
   The level after any run at all is the least of these: no instant bounds it lower, and one of them
   gives it exactly.  So nothing is granted, refilled or spilled that is not accounted for.
   */
  lemma {:induction false} LevelExactly(rate: real, capacity: real, start: real, run: seq<Attempt>) returns (k: nat)
    ensures k <= |run| && After(rate, capacity, start, run).tokens == IfFullAt(rate, capacity, start, run, k)
    ensures forall j: nat | j <= |run| ::
              After(rate, capacity, start, run).tokens <= IfFullAt(rate, capacity, start, run, j)
  {
    if run == [] {
      k := 0;
      assert Inflow(0.0, rate) == 0.0;
    } else {
      var before, a := run[..|run| - 1], run[|run| - 1];
      k := LevelExactly(rate, capacity, start, before);
      LastIsClock(rate, capacity, start, before);
      var b := After(rate, capacity, start, before);
      if b.tokens + Inflow(a.now - b.last, rate) > capacity { k := |run|; }
      forall j: nat | j <= |run| { IfFullStep(rate, capacity, start, run, j); }
    }
  }

  /** One attempt inside the window, seen from the potential before it. */
  lemma PotentialStep(rate: real, capacity: real, b: Bucket, a: Attempt, g: real, from: real)
    requires rate > 0.0 && 0.0 <= b.tokens <= capacity && b.last <= a.now && from <= a.now && a.amount >= 0.0
    requires g + b.tokens <= capacity + Inflow(Max(0.0, b.last - from), rate)
    requires b.last < from ==> g == 0.0
    ensures var b' := Take(rate, capacity, b, a);
      g + (if Granted(rate, capacity, b, a) then a.amount else 0.0) + b'.tokens
        <= capacity + Inflow(a.now - from, rate)
  {
  }

  /**
   What is left plus what was granted in the window so far never exceeds the capacity plus the
   inflow since the window opened.
   */
  lemma {:induction false} WindowPotential(rate: real, capacity: real, start: real, run: seq<Attempt>,
                                           from: real, to: real)
    requires rate > 0.0 && capacity >= 0.0 && Legal(run, start) && from <= to
    requires forall i | 0 <= i < |run| :: run[i].now <= to
    ensures var b, g := After(rate, capacity, start, run), GrantedIn(rate, capacity, start, run, from, to);
      g + b.tokens <= capacity + Inflow(Max(0.0, b.last - from), rate)
  {
    InflowMono(0.0, Max(0.0, start - from), rate);
    InflowPos(0.0, rate);
    if run != [] {
      var prefix, a := run[..|run| - 1], run[|run| - 1];
      LegalPrefix(run, start);
      LevelBounded(rate, capacity, start, prefix);
      WindowPotential(rate, capacity, start, prefix, from, to);
      var b := After(rate, capacity, start, prefix);
      assert b.last <= a.now;
      if a.now < from {
        NothingBefore(rate, capacity, start, run, from, to);
        LevelBounded(rate, capacity, start, run);
      } else {
        if b.last < from { NothingBefore(rate, capacity, start, prefix, from, to); }
        PotentialStep(rate, capacity, b, a, GrantedIn(rate, capacity, start, prefix, from, to), from);
      }
    }
  }

  lemma {:induction false} NothingBefore(rate: real, capacity: real, start: real, run: seq<Attempt>,
                                         from: real, to: real)
    requires forall i | 0 <= i < |run| :: run[i].now < from
    ensures GrantedIn(rate, capacity, start, run, from, to) == 0.0
  {
    if run != [] { NothingBefore(rate, capacity, start, run[..|run| - 1], from, to); }
  }

  lemma {:induction false} NothingAfter(rate: real, capacity: real, start: real, run: seq<Attempt>,
                                        from: real, to: real, k: nat)
    requires k <= |run| && forall i | k <= i < |run| :: run[i].now > to
    ensures GrantedIn(rate, capacity, start, run, from, to) == GrantedIn(rate, capacity, start, run[..k], from, to)
    decreases |run| - k
  {
    if k == |run| {
      assert run[..k] == run;
    } else {
      NothingAfter(rate, capacity, start, run, from, to, k + 1);
      assert run[..k + 1][..k] == run[..k];
    }
  }

  lemma WindowInside(rate: real, capacity: real, start: real, run: seq<Attempt>, from: real, to: real)
    requires rate > 0.0 && capacity >= 0.0 && Legal(run, start) && from <= to
    requires forall i | 0 <= i < |run| :: run[i].now <= to
    ensures GrantedIn(rate, capacity, start, run, from, to) <= capacity + Inflow(to - from, rate)
  {
    InflowMono(0.0, to - from, rate);
    InflowPos(0.0, rate);
    if run != [] {
      WindowPotential(rate, capacity, start, run, from, to);
      LevelBounded(rate, capacity, start, run);
      var last := After(rate, capacity, start, run).last;
      InflowMono(Max(0.0, last - from), to - from, rate);
    }
  }

  /**
   In every run and every window [from, to], the tokens granted are at most the capacity plus the
   rate times the length of the window.
   */
  lemma WindowBound(rate: real, capacity: real, start: real, run: seq<Attempt>, from: real, to: real)
    requires rate > 0.0 && capacity >= 0.0 && Legal(run, start) && from <= to
    ensures GrantedIn(rate, capacity, start, run, from, to) <= capacity + rate * (to - from)
  {
    var k := FirstAfter(run, start, to);
    NothingAfter(rate, capacity, start, run, from, to, k);
    assert Legal(run[..k], start);
    WindowInside(rate, capacity, start, run[..k], from, to);
  }

  lemma {:induction false} FirstAfter(run: seq<Attempt>, start: real, to: real) returns (k: nat)
    requires Legal(run, start)
    ensures k <= |run|
    ensures forall i | 0 <= i < k :: run[i].now <= to
    ensures forall i | k <= i < |run| :: run[i].now > to
  {
    if run == [] || run[|run| - 1].now <= to {
      k := |run|;
    } else {
      LegalPrefix(run, start);
      k := FirstAfter(run[..|run| - 1], start, to);
    }
  }

  /** A request above the capacity is never granted, whatever the run before it. */
  lemma AboveCapacityNeverGranted(rate: real, capacity: real, b: Bucket, a: Attempt)
    requires a.amount > capacity
    ensures !Granted(rate, capacity, b, a)
  {
  }

  // ---------------------------------------------------------------- the lone caller's total time

  /** The bucket after `n` unit acquires back to back, with exact sleeps, starting full at time `start`. */
  function AfterUnits(rate: real, capacity: real, start: real, n: nat): Bucket
    requires rate > 0.0
  {
    if n == 0 then Bucket(capacity, start)
    else
      var b := AfterUnits(rate, capacity, start, n - 1);
      AloneBucket(rate, capacity, b, b.last, 1.0, 0.0)
  }

  /** One unit acquire: tokens are conserved, and after a sleep less than one short sleep's worth is left. */
  lemma OneUnit(rate: real, capacity: real, b: Bucket)
    requires rate > 0.0 && capacity >= 1.0 + 0.01 * rate && 0.0 <= b.tokens <= capacity
    ensures var b' := AloneBucket(rate, capacity, b, b.last, 1.0, 0.0);
      && 0.0 <= b'.tokens <= capacity
      && b'.last >= b.last
      && b'.tokens == b.tokens - 1.0 + Inflow(b'.last - b.last, rate)
      && (b'.last == b.last ==> b'.tokens == b.tokens - 1.0)
      && (b'.last > b.last ==> b'.tokens < Inflow(0.01, rate))
  {
  }

  lemma {:induction false} UnitsInv(rate: real, capacity: real, start: real, n: nat)
    requires rate > 0.0 && capacity >= 1.0 + 0.01 * rate
    ensures var b := AfterUnits(rate, capacity, start, n);
      && 0.0 <= b.tokens <= capacity && b.last >= start
      && b.tokens == capacity - n as real + Inflow(b.last - start, rate)
      && (b.last > start ==> b.tokens < Inflow(0.01, rate))
  {
    InflowPos(0.0, rate);
    if n > 0 {
      UnitsInv(rate, capacity, start, n - 1);
      var b, b' := AfterUnits(rate, capacity, start, n - 1), AfterUnits(rate, capacity, start, n);
      assert b' == AloneBucket(rate, capacity, b, b.last, 1.0, 0.0);
      OneUnit(rate, capacity, b);
      UnitsAdd(b', b, start, rate);
    }
  }

  lemma UnitsAdd(b': Bucket, b: Bucket, start: real, rate: real)
    ensures Inflow(b'.last - b.last, rate) + Inflow(b.last - start, rate) == Inflow(b'.last - start, rate)
  {
  }

  /**
   A lone caller that makes n > capacity unit acquires back to back finishes in time T with
   (n - capacity) / rate <= T < (n - capacity) / rate + 0.01.
   */
  lemma LoneCallerTime(rate: real, capacity: real, start: real, n: nat)
    requires rate > 0.0 && capacity >= 1.0 + 0.01 * rate && n as real > capacity
    ensures var total := AfterUnits(rate, capacity, start, n).last - start;
      (n as real - capacity) / rate <= total < (n as real - capacity) / rate + 0.01
  {
    UnitsInv(rate, capacity, start, n);
    var b := AfterUnits(rate, capacity, start, n);
    var total := b.last - start;
    var least := (n as real - capacity) / rate;
    DivMul(n as real - capacity, rate);
    InflowPos(total, rate);
    InflowAdd(least, total - least, rate);
    assert Inflow(total - least, rate) == b.tokens;
    InflowPos(total - least, rate);
    if total >= least + 0.01 { InflowMono(0.01, total - least, rate); }
  }
}
