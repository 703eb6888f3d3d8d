/**
 retry_with_backoff against a script of turns.  One turn is one pass through the loop: what the
 first wait_if_paused did, what the function did, the random number drawn for the jitter, and
 what the second wait_if_paused did after a network failure.  A script that runs out means that
 the loop is still going.
 */
module Retry {
  import opened Prelude

  datatype Outcome<T> = Value(value: T) | Failure(error: string, retryable: bool, network: bool)

  datatype Turn<T> = Turn(cancelledBefore: bool, outcome: Outcome<T>, cancelledAfter: bool, draw: real)

  datatype Result<T> =
    | Returned(value: T)
    | GaveUp(error: string)
    | Escaped(error: string)
    | Interrupted
    | FellThrough
    | StillGoing

  datatype Policy = Policy(maxRetries: int, initialDelay: real, factor: real, maxDelay: real, controlled: bool)

  ghost predicate SanePolicy(p: Policy) {
    p.initialDelay >= 0.0 && p.factor >= 0.0 && p.maxDelay >= 0.0
  }

  function Pow(x: real, k: nat): real { if k == 0 then 1.0 else x * Pow(x, k - 1) }

  function Min(a: real, b: real): real { if a <= b then a else b }

  function Delay(p: Policy, k: nat): real { Min(p.maxDelay, p.initialDelay * Pow(p.factor, k)) }

  /** The un-jittered delays of the first `k` counted failures. */
  function Budget(p: Policy, k: nat): real { if k == 0 then 0.0 else Budget(p, k - 1) + Delay(p, k - 1) }

  /** The first wait_if_paused let the turn through, so the function was called. */
  predicate Called<T>(p: Policy, t: Turn<T>) {
    !(p.controlled && t.cancelledBefore)
  }

  /** A network failure that the pause controller absorbs. */
  predicate Absorbed<T>(p: Policy, t: Turn<T>) {
    Called(p, t) && t.outcome.Failure? && t.outcome.retryable && p.controlled && t.outcome.network
  }

  /** A failure that uses up quota. */
  predicate Counted<T>(p: Policy, t: Turn<T>) {
    Called(p, t) && t.outcome.Failure? && t.outcome.retryable && !Absorbed(p, t)
  }

  function Quota<T>(p: Policy, turns: seq<Turn<T>>): nat {
    if turns == [] then 0
    else Quota(p, turns[..|turns| - 1]) + if Counted(p, turns[|turns| - 1]) then 1 else 0
  }

  function Outages<T>(p: Policy, turns: seq<Turn<T>>): nat {
    if turns == [] then 0
    else Outages(p, turns[..|turns| - 1]) + if Absorbed(p, turns[|turns| - 1]) then 1 else 0
  }

  /** The turn ends in a failure after which the loop may go round again. */
  predicate GoesOn<T>(p: Policy, t: Turn<T>) {
    Counted(p, t) || (Absorbed(p, t) && !t.cancelledAfter)
  }

  lemma ProductNonNegative(x: real, y: real)
    requires x >= 0.0 && y >= 0.0
    ensures x * y >= 0.0
  {
  }

  lemma {:induction false} PowNonNegative(x: real, k: nat)
    requires x >= 0.0
    ensures Pow(x, k) >= 0.0
  {
    if k > 0 {
      PowNonNegative(x, k - 1);
      ProductNonNegative(x, Pow(x, k - 1));
    }
  }

  lemma DelayNonNegative(p: Policy, k: nat)
    requires SanePolicy(p)
    ensures Delay(p, k) >= 0.0
  {
    PowNonNegative(p.factor, k);
    ProductNonNegative(p.initialDelay, Pow(p.factor, k));
  }

  function Times(x: real, y: real): real { x * y }

  lemma Reorder(x: real, f: real, y: real)
    ensures Times(x, Times(f, y)) == Times(f, Times(x, y))
  {
  }

  lemma ScaledUp(f: real, x: real, y: real)
    requires f >= 0.0 && 0.0 <= x <= y
    ensures Times(f, x) <= Times(f, y) && (f >= 1.0 ==> Times(f, x) >= x)
  {
  }

  /** How one delay follows another: the factor times as long, up to the cap. */
  predicate Follows(cap: real, f: real, last: real, next: real) {
    && Min(cap, f * last) <= next <= cap
    && (f >= 1.0 || last < cap ==> next == Min(cap, f * last))
  }

  lemma NextCapped(cap: real, f: real, x: real)
    requires f >= 0.0 && x >= 0.0 && cap >= 0.0
    ensures Follows(cap, f, Min(cap, x), Min(cap, Times(f, x)))
  {
    if x > cap { ScaledUp(f, cap, x); }
    assert f * Min(cap, x) == Times(f, Min(cap, x));
  }

  lemma DelayIs(p: Policy, k: nat)
    requires SanePolicy(p)
    ensures Pow(p.factor, k) >= 0.0 && Times(p.initialDelay, Pow(p.factor, k)) >= 0.0
    ensures Delay(p, k) == Min(p.maxDelay, Times(p.initialDelay, Pow(p.factor, k)))
  {
    PowNonNegative(p.factor, k);
    ProductNonNegative(p.initialDelay, Pow(p.factor, k));
  }

  /**
   The schedule: the first delay is the initial one, up to the cap, and each next one the factor times
   the last, up to the cap; only with a factor below one can a capped delay be followed by a longer one
   than that.
   */
  lemma DelaySchedule(p: Policy, k: nat)
    requires SanePolicy(p)
    ensures Delay(p, 0) == if p.initialDelay < p.maxDelay then p.initialDelay else p.maxDelay
    ensures Follows(p.maxDelay, p.factor, Delay(p, k), Delay(p, k + 1))
  {
    var y := Pow(p.factor, k);
    DelayIs(p, 0);
    DelayIs(p, k);
    DelayIs(p, k + 1);
    assert Pow(p.factor, k + 1) == Times(p.factor, y);
    Reorder(p.initialDelay, p.factor, y);
    NextCapped(p.maxDelay, p.factor, Times(p.initialDelay, y));
  }

  /** random.uniform over half to one and a half times the delay. */
  function Uniform(delay: real, draw: real): real { delay * (0.5 + draw) }

  function Jittered(p: Policy, k: nat, draw: real): real { Uniform(Delay(p, k), draw) }

  lemma Jitter(delay: real, draw: real)
    requires delay >= 0.0 && 0.0 <= draw <= 1.0
    ensures 0.5 * delay <= Uniform(delay, draw) <= 1.5 * delay
  {
  }

  lemma {:induction false} BudgetMono(p: Policy, i: nat, k: nat)
    requires SanePolicy(p) && i <= k
    ensures 0.0 <= Budget(p, i) <= Budget(p, k)
  {
    if k > 0 {
      DelayNonNegative(p, k - 1);
      BudgetMono(p, if i < k then i else i - 1, k - 1);
    }
  }

  /** Between half and one and a half times the scheduled delays. */
  predicate InBudget(p: Policy, k: nat, slept: real) {
    0.5 * Budget(p, k) <= slept <= 1.5 * Budget(p, k)
  }

  /** What is slept in all: after each counted failure but the last, its jittered delay. */
  function Slept<T>(p: Policy, turns: seq<Turn<T>>): real {
    if turns == [] then 0.0
    else
      var before, k, t := Slept(p, turns[..|turns| - 1]), Quota(p, turns[..|turns| - 1]), turns[|turns| - 1];
      if Counted(p, t) && k + 1 < p.maxRetries then before + Jittered(p, k, t.draw) else before
  }

  lemma QuotaSnoc<T>(p: Policy, turns: seq<Turn<T>>, k: nat)
    requires k < |turns|
    ensures Quota(p, turns[..k + 1]) == Quota(p, turns[..k]) + if Counted(p, turns[k]) then 1 else 0
    ensures Outages(p, turns[..k + 1]) == Outages(p, turns[..k]) + if Absorbed(p, turns[k]) then 1 else 0
  {
    assert turns[..k + 1][..k] == turns[..k];
  }

  lemma SleptSnoc<T>(p: Policy, turns: seq<Turn<T>>, k: nat)
    requires k < |turns|
    ensures var q := Quota(p, turns[..k]);
      Slept(p, turns[..k + 1]) ==
      Slept(p, turns[..k]) + if Counted(p, turns[k]) && q + 1 < p.maxRetries then Jittered(p, q, turns[k].draw) else 0.0
  {
    assert turns[..k + 1][..k] == turns[..k];
  }

  lemma JitteredBounds(p: Policy, k: nat, draw: real)
    requires SanePolicy(p) && 0.0 <= draw <= 1.0
    ensures 0.5 * Delay(p, k) <= Jittered(p, k, draw) <= 1.5 * Delay(p, k)
  {
    DelayNonNegative(p, k);
    Jitter(Delay(p, k), draw);
  }

  /** Adding up inequalities, apart from what the sums are made of. */
  lemma AddBounds(b: real, d: real, slept: real, pause: real)
    requires 0.5 * b <= slept <= 1.5 * b && 0.5 * d <= pause <= 1.5 * d
    ensures 0.5 * (b + d) <= slept + pause <= 1.5 * (b + d)
  {
  }

  lemma JitterInBudget(p: Policy, k: nat, slept: real, draw: real)
    requires SanePolicy(p) && InBudget(p, k, slept) && 0.0 <= draw <= 1.0
    ensures InBudget(p, k + 1, slept + Jittered(p, k, draw))
  {
    JitteredBounds(p, k, draw);
    AddBounds(Budget(p, k), Delay(p, k), slept, Jittered(p, k, draw));
    assert Budget(p, k + 1) == Budget(p, k) + Delay(p, k);
  }

  /** The sleeps lie between half and one and a half times the scheduled delays of the failures slept after. */
  lemma {:induction false} SleptInSchedule<T>(p: Policy, turns: seq<Turn<T>>)
    requires SanePolicy(p) && p.maxRetries >= 1 && forall i | 0 <= i < |turns| :: 0.0 <= turns[i].draw <= 1.0
    ensures var q := Quota(p, turns); InBudget(p, if q < p.maxRetries then q else p.maxRetries - 1, Slept(p, turns))
  {
    if turns != [] {
      var before, t := turns[..|turns| - 1], turns[|turns| - 1];
      SleptInSchedule(p, before);
      if Quota(p, before) + 1 < p.maxRetries { JitterInBudget(p, Quota(p, before), Slept(p, before), t.draw); }
    }
  }

  lemma TotalBackOff<T>(p: Policy, turns: seq<Turn<T>>)
    requires SanePolicy(p) && p.maxRetries >= 1 && forall i | 0 <= i < |turns| :: 0.0 <= turns[i].draw <= 1.0
    ensures 0.0 <= Slept(p, turns) <= 1.5 * Budget(p, p.maxRetries - 1)
    ensures Quota(p, turns) >= p.maxRetries ==> Slept(p, turns) >= 0.5 * Budget(p, p.maxRetries - 1)
  {
    var q := Quota(p, turns);
    SleptInSchedule(p, turns);
    BudgetMono(p, if q < p.maxRetries then q else p.maxRetries - 1, p.maxRetries - 1);
  }

  /** An outage costs nothing but time: however many network failures a pause controller absorbs, the quota is intact. */
  lemma {:induction false} OutageIsFree<T>(p: Policy, turns: seq<Turn<T>>)
    requires p.controlled
    requires forall t | t in turns :: !t.cancelledBefore && !t.cancelledAfter
                                   && t.outcome.Failure? && t.outcome.retryable && t.outcome.network
    ensures Quota(p, turns) == 0 && Outages(p, turns) == |turns| && Slept(p, turns) == 0.0
    ensures forall t | t in turns :: GoesOn(p, t)
  {
    if turns != [] {
      assert turns[|turns| - 1] in turns;
      OutageIsFree(p, turns[..|turns| - 1]);
    }
  }

  /** Without a controller every retryable failure counts, network or not. */
  lemma {:induction false} UncontrolledCounts<T>(p: Policy, turns: seq<Turn<T>>)
    requires !p.controlled && forall t | t in turns :: t.outcome.Failure? && t.outcome.retryable
    ensures Quota(p, turns) == |turns| && Outages(p, turns) == 0
  {
    if turns != [] {
      assert turns[|turns| - 1] in turns;
      UncontrolledCounts(p, turns[..|turns| - 1]);
    }
  }

  method BackOff(p: Policy, k: nat, draw: real) returns (pause: real)
    ensures pause == Jittered(p, k, draw)
  {
    var delay := Min(p.maxDelay, p.initialDelay * Pow(p.factor, k));
    pause := delay * (0.5 + draw);
  }

  /** Why the loop stopped at the turn `t`. */
  predicate Ends<T(==)>(p: Policy, t: Turn<T>, r: Result<T>) {
    match r
    case Returned(v) => Called(p, t) && t.outcome == Value(v)
    case GaveUp(e) => Counted(p, t) && t.outcome.error == e
    case Escaped(e) => Called(p, t) && t.outcome.Failure? && !t.outcome.retryable && t.outcome.error == e
    case Interrupted => !Called(p, t) || (Absorbed(p, t) && t.cancelledAfter)
    case _ => false
  }

  /** How a turn comes out of the body of the loop: None goes round again. */
  method OneTurn<T>(p: Policy, t: Turn<T>, attempt: nat) returns (stop: Option<Result<T>>, after: nat)
    requires attempt < p.maxRetries
    ensures after == attempt + if Counted(p, t) then 1 else 0
    ensures stop.Some? <==> !GoesOn(p, t) || after == p.maxRetries
    ensures stop.Some? ==> Ends(p, t, stop.value) && (stop.value.GaveUp? <==> after == p.maxRetries)
    ensures after == attempt + 1 <==>
              && t.outcome.Failure? && t.outcome.retryable
              && !(p.controlled && (t.cancelledBefore || t.outcome.network))
    ensures stop == Some(Interrupted) <==>
              && p.controlled
              && (t.cancelledBefore
                  || (t.outcome.Failure? && t.outcome.retryable && t.outcome.network && t.cancelledAfter))
    ensures t.outcome.Value? && !(p.controlled && t.cancelledBefore) ==> stop == Some(Returned(t.outcome.value))
    ensures t.outcome.Failure? && !t.outcome.retryable && !(p.controlled && t.cancelledBefore) ==>
              stop == Some(Escaped(t.outcome.error))
  {
    stop, after := None, attempt;
    if p.controlled && t.cancelledBefore { return Some(Interrupted), attempt; }
    match t.outcome {
      case Value(v) => stop := Some(Returned(v));
      case Failure(error, retryable, network) =>
        if !retryable { return Some(Escaped(error)), attempt; }
        if p.controlled && network {
          if t.cancelledAfter { stop := Some(Interrupted); }
          return stop, attempt;
        }
        after := attempt + 1;
        if after >= p.maxRetries { stop := Some(GaveUp(error)); }
    }
  }

  /**
   The whole contract.  The loop stops at the first turn that does not go on, or at the counted
   failure that exhausts the quota, whichever comes first; network failures under a pause
   controller leave the quota alone; the time slept is within half and one and a half times the
   scheduled delays.
   */
  method RetryWithBackoff<T>(p: Policy, turns: seq<Turn<T>>)
      returns (r: Result<T>, used: nat, slept: real)
    requires SanePolicy(p)
    requires forall i | 0 <= i < |turns| :: 0.0 <= turns[i].draw <= 1.0
    ensures used <= |turns| && forall i | 0 <= i < used - 1 :: GoesOn(p, turns[i])
    ensures r.FellThrough? <==> p.maxRetries <= 0
    ensures r.FellThrough? ==> used == 0
    ensures p.maxRetries >= 1 ==> Quota(p, turns[..used]) <= p.maxRetries
    // gives up exactly at the maxRetries-th counted failure
    ensures p.maxRetries >= 1 ==> (r.GaveUp? <==> Quota(p, turns[..used]) == p.maxRetries)
    ensures !r.FellThrough? && !r.StillGoing? ==> used > 0 && Ends(p, turns[used - 1], r)
    // it ends unless the script is one long outage: quota plus outages bound the number of turns
    ensures r.StillGoing? ==> used == |turns| && |turns| < p.maxRetries + Outages(p, turns)
    // and it never outlives a cancel, a value or an exception that is not retryable
    ensures r.StillGoing? ==> forall i | 0 <= i < |turns| :: GoesOn(p, turns[i])
    // total back-off: just this, and within the schedule
    ensures slept == Slept(p, turns[..used])
    ensures p.maxRetries >= 1 ==> 0.0 <= slept <= 1.5 * Budget(p, p.maxRetries - 1)
    ensures r.GaveUp? ==> slept >= 0.5 * Budget(p, p.maxRetries - 1)
  {
    var attempt := 0;
    used, slept := 0, 0.0;
    while attempt < p.maxRetries
      invariant used <= |turns| && forall i | 0 <= i < used :: GoesOn(p, turns[i])
      invariant attempt == Quota(p, turns[..used]) && used == attempt + Outages(p, turns[..used])
      invariant p.maxRetries <= 0 ==> used == 0
      invariant p.maxRetries >= 1 ==> attempt < p.maxRetries
      invariant slept == Slept(p, turns[..used])
      decreases |turns| - used
    {
      TotalBackOff(p, turns[..used]);
      if used == |turns| {
        assert turns[..used] == turns;
        return StillGoing, used, slept;
      }
      var before := attempt;
      QuotaSnoc(p, turns, used);
      SleptSnoc(p, turns, used);
      var stop;
      stop, attempt := OneTurn(p, turns[used], attempt);
      used := used + 1;
      if stop.Some? {
        TotalBackOff(p, turns[..used]);
        return stop.value, used, slept;
      }
      if attempt > before {
        var pause := BackOff(p, before, turns[used - 1].draw);
        slept := slept + pause;
      }
    }
    return FellThrough, used, slept;
  }
}
