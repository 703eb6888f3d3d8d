/**
 When a lost network is never forgotten, and when more than one watchdog lives.  PAUSED_NETWORK_LOST
 always has a thread at work on it exactly as long as the last such thread never lets go, which it
 can do at three places only.  `Watchdog` shows two runs in which it does.
 */
module Recovery {
  import opened Prelude
  import opened PauseProtocol

  predicate Starting(pc: Pc) { pc.StartActivate? || pc.StartCreate? || pc.StartThread? }

  predicate Looping(pc: Pc) { pc.MonHead? || pc.MonRead? || pc.MonSleep? }

  /** The watchdog has left its loop in order to resume, and has not done so yet. */
  predicate Resuming(pc: Pc) {
    pc.MonStop? || ((pc.Enter? || pc.Test? || pc.Write?) && pc.mon)
  }

  /** A watchdog thread that has been started and has not ended. */
  predicate Live(pc: Pc) {
    Looping(pc) || pc.MonStop? || pc.MonExit? || (InSection(pc) && pc.mon)
  }

  /** Where the watchdog registered last is; dead if there was none. */
  function Watch(s: Sys): Pc {
    if s.monitor.Some? then PcOf(s, s.monitor.value) else MonDead
  }

  // ---------------------------------------------------------------- someone is at work on it

  /** The thread has reported a loss and will make sure of a watchdog. */
  predicate Pending(pc: Pc) {
    || (pc.Flag? && pc.op == Disconnect)
    || (pc.Leave? && pc.op == Disconnect && pc.done)
    || pc.StartTest? || Starting(pc)
  }

  predicate Working(pc: Pc) { Pending(pc) || Looping(pc) || Resuming(pc) }

  /** A thread is about to make sure of a watchdog, or a watchdog is looping or about to resume. */
  ghost predicate Worked(s: Sys) {
    exists t | t in s.pcs :: Working(s.pcs[t])
  }

  /**
   The last thread at work on a loss lets go: a check finds a live watchdog, although that one has
   already resumed; a watchdog at its loop head finds that another one has cleared the flag; or the
   thread to be started has been started by somebody else.
   */
  ghost predicate LetsGo(s: Sys, m: Move) {
    && s.state == PausedNetworkLost
    && (forall u | u in s.pcs && u != m.tid :: !Working(s.pcs[u]))
    && match PcOf(s, m.tid)
       case StartTest => s.monitor.Some? && Alive(s, s.monitor.value)
       case MonHead(_) => !s.active
       case StartThread => !Watch(s).MonNew?
       case _ => false
  }

  /** A step of another thread leaves a thread where it is, unless it wakes it or starts it. */
  lemma Untouched(s: Sys, m: Move, u: Tid)
    requires u in s.pcs && u != m.tid && !s.pcs[u].Blocked? && !s.pcs[u].MonNew?
    ensures u in Do(s, m).pcs && Do(s, m).pcs[u] == s.pcs[u]
  {
  }

  /** The only thread at work stays at work, or hands over to the watchdog it starts. */
  lemma LastWorker(s: Sys, m: Move)
    requires Inv(s) && Working(PcOf(s, m.tid)) && s.state == PausedNetworkLost == Do(s, m).state
    requires forall u | u in s.pcs && u != m.tid :: !Working(s.pcs[u])
    ensures Worked(Do(s, m)) <==> !LetsGo(s, m)
  {
    var s', t := Do(s, m), m.tid;
    assert PcOk(s, t, s.pcs[t]) && t in s'.pcs;
    if LetsGo(s, m) {
      assert s'.pcs == s.pcs[t := s'.pcs[t]];
    } else if PcOf(s, t).StartThread? {
      assert Working(s'.pcs[s.monitor.value]);
    } else {
      assert Working(s'.pcs[t]);
    }
  }

  lemma StepWorked(s: Sys, m: Move)
    requires Inv(s) && (s.state == PausedNetworkLost ==> Worked(s))
    ensures Do(s, m).state == PausedNetworkLost ==> (Worked(Do(s, m)) <==> !LetsGo(s, m))
  {
    var s', t := Do(s, m), m.tid;
    if s'.state == PausedNetworkLost {
      if s.state != PausedNetworkLost {
        assert PcOf(s, t).Write? && Working(s'.pcs[t]);
      } else if u :| u in s.pcs && u != t && Working(s.pcs[u]) {
        Untouched(s, m, u);
      } else {
        LastWorker(s, m);
      }
    }
  }

  ghost predicate WorkedAt(run: seq<Move>, k: nat)
    requires k <= |run|
  {
    At(run, k).state == PausedNetworkLost ==> Worked(At(run, k))
  }

  ghost predicate LetsGoAt(run: seq<Move>, k: nat)
    requires k < |run|
  {
    LetsGo(At(run, k), run[k])
  }

  lemma WorkedNext(run: seq<Move>, k: nat)
    requires k < |run| && WorkedAt(run, k)
    ensures WorkedAt(run, k + 1) <==> !LetsGoAt(run, k)
  {
    AlwaysInv(run, k);
    StepWorked(At(run, k), run[k]);
    if LetsGoAt(run, k) { LetsGoKeepsState(At(run, k), run[k]); }
  }

  lemma LetsGoKeepsState(s: Sys, m: Move)
    requires LetsGo(s, m)
    ensures Do(s, m).state == PausedNetworkLost
  {
  }

  lemma {:induction false} WorkedUntil(run: seq<Move>, k: nat)
    requires k <= |run| && forall i | 0 <= i < k :: !LetsGoAt(run, i)
    ensures WorkedAt(run, k)
  {
    if k > 0 {
      WorkedUntil(run, k - 1);
      assert !LetsGoAt(run, k - 1);
      WorkedNext(run, k - 1);
    }
  }

  /**
   In every interleaving of any number of threads: the state is never PAUSED_NETWORK_LOST without a
   thread that is about to make sure of a watchdog, or a watchdog that will look at the state again
   or is about to resume, exactly when no move of the run lets go of a loss.
   */
  lemma NetworkLossIsHandled(run: seq<Move>)
    ensures (forall k | 0 <= k <= |run| :: WorkedAt(run, k)) <==> (forall k | 0 <= k < |run| :: !LetsGoAt(run, k))
  {
    if forall k | 0 <= k < |run| :: !LetsGoAt(run, k) {
      forall k | 0 <= k <= |run| ensures WorkedAt(run, k) { WorkedUntil(run, k); }
    } else {
      var k :| 0 <= k < |run| && LetsGoAt(run, k);
      if WorkedAt(run, k) {
        WorkedNext(run, k);
        assert !WorkedAt(run, k + 1);
      }
    }
  }

  // ---------------------------------------------------------------- at most one watchdog lives

  ghost predicate AtMostOne(s: Sys) {
    forall t, u | t in s.pcs && u in s.pcs && Live(s.pcs[t]) && Live(s.pcs[u]) :: t == u
  }

  /** The step starts a watchdog while another one is live. */
  ghost predicate SecondStart(s: Sys, m: Move) {
    PcOf(s, m.tid).StartThread? && Watch(s).MonNew? && exists t | t in s.pcs :: Live(s.pcs[t])
  }

  lemma OwnLive(s: Sys, t: Tid, c: Choice)
    requires Live(PcOf(Do(s, Move(t, c)), t))
    ensures Live(PcOf(s, t))
  {
  }

  lemma LiveGrows(s: Sys, m: Move, t: Tid)
    requires t in Do(s, m).pcs && Live(Do(s, m).pcs[t])
    ensures (t in s.pcs && Live(s.pcs[t]))
            || (PcOf(s, m.tid).StartThread? && s.monitor == Some(t) && Watch(s).MonNew?)
  {
    if m.tid != t { OtherPc(s, m, t); } else { OwnLive(s, t, m.choice); }
  }

  lemma StepAtMostOne(s: Sys, m: Move)
    requires AtMostOne(s)
    ensures AtMostOne(Do(s, m)) <==> !SecondStart(s, m)
  {
    var s' := Do(s, m);
    if SecondStart(s, m) {
      var t :| t in s.pcs && Live(s.pcs[t]);
      Untouched(s, m, t);
      assert Live(s'.pcs[t]) && Live(s'.pcs[s.monitor.value]) && t != s.monitor.value;
    } else {
      forall t, u | t in s'.pcs && u in s'.pcs && Live(s'.pcs[t]) && Live(s'.pcs[u]) ensures t == u {
        LiveGrows(s, m, t);
        LiveGrows(s, m, u);
      }
    }
  }

  ghost predicate AtMostOneAt(run: seq<Move>, k: nat)
    requires k <= |run|
  {
    AtMostOne(At(run, k))
  }

  ghost predicate SecondStartAt(run: seq<Move>, k: nat)
    requires k < |run|
  {
    SecondStart(At(run, k), run[k])
  }

  lemma {:induction false} AtMostOneUntil(run: seq<Move>, k: nat)
    requires k <= |run| && forall i | 0 <= i < k :: !SecondStartAt(run, i)
    ensures AtMostOneAt(run, k)
  {
    if k > 0 {
      AtMostOneUntil(run, k - 1);
      assert !SecondStartAt(run, k - 1);
      StepAtMostOne(At(run, k - 1), run[k - 1]);
    }
  }

  /** In every interleaving: there is never more than one live watchdog exactly when none is started beside a live one. */
  lemma AtMostOneWatchdog(run: seq<Move>)
    ensures (forall k | 0 <= k <= |run| :: AtMostOneAt(run, k)) <==> (forall k | 0 <= k < |run| :: !SecondStartAt(run, k))
  {
    if forall k | 0 <= k < |run| :: !SecondStartAt(run, k) {
      forall k | 0 <= k <= |run| ensures AtMostOneAt(run, k) { AtMostOneUntil(run, k); }
    } else {
      var k :| 0 <= k < |run| && SecondStartAt(run, k);
      if AtMostOneAt(run, k) {
        StepAtMostOne(At(run, k), run[k]);
        assert !AtMostOneAt(run, k + 1);
      }
    }
  }

  // ---------------------------------------------------------------- starts in turn are enough for that

  ghost predicate OneStarter(s: Sys) {
    forall t, u | t in s.pcs && u in s.pcs && Starting(s.pcs[t]) && Starting(s.pcs[u]) :: t == u
  }

  /** Calls of start_monitoring_recovery do not overlap once they have passed their check. */
  ghost predicate StartsInTurn(run: seq<Move>) {
    forall k: nat | k <= |run| :: OneStarter(At(run, k))
  }

  ghost predicate ThreadOk(s: Sys, t: Tid, pc: Pc) {
    && (Live(pc) || pc.MonNew? ==> s.monitor == Some(t))
    && (pc.StartActivate? ==> Watch(s).MonDead?)
    && (pc.StartCreate? ==> Watch(s).MonDead? && s.active)
    && (pc.StartThread? ==> Watch(s).MonNew? && s.active)
  }

  ghost predicate HasStarter(s: Sys) {
    exists t | t in s.pcs :: s.pcs[t].StartThread?
  }

  ghost predicate Single(s: Sys) {
    && (forall t | t in s.pcs :: ThreadOk(s, t, s.pcs[t]))
    && (s.monitor.Some? ==> s.monitor.value in s.pcs && (Live(Watch(s)) || Watch(s).MonNew? || Watch(s).MonDead?))
    && (Watch(s).MonNew? ==> HasStarter(s))
    && (Looping(Watch(s)) ==> s.active)
  }

  /** Neither a watchdog nor in the middle of starting one. */
  predicate Plain(pc: Pc) {
    !Live(pc) && !pc.MonNew? && !Starting(pc) && !pc.MonDead?
  }

  /** All threads but `t` are where they were, a wake-up aside. */
  ghost predicate OthersStay(s: Sys, s': Sys, t: Tid) {
    && s'.pcs.Keys == s.pcs.Keys + {t}
    && forall u | u in s.pcs && u != t :: s'.pcs[u] == s.pcs[u] || (s.pcs[u].Blocked? && s'.pcs[u].Blocked?)
  }

  lemma PlainStep(s: Sys, s': Sys, t: Tid)
    requires Single(s) && OthersStay(s, s', t) && s'.monitor == s.monitor && s'.active == s.active
    requires Plain(PcOf(s, t)) && (Plain(s'.pcs[t]) || (s'.pcs[t].StartActivate? && Watch(s).MonDead?))
    ensures Single(s')
  {
  }

  /** A step of the watchdog itself. */
  lemma WatchdogStep(s: Sys, s': Sys, t: Tid)
    requires Single(s) && OthersStay(s, s', t) && s'.monitor == s.monitor && Live(PcOf(s, t))
    requires t in s'.pcs && (Live(s'.pcs[t]) || s'.pcs[t].MonDead?)
    requires Looping(s'.pcs[t]) ==> s'.active
    ensures Single(s')
  {
    assert ThreadOk(s, t, s.pcs[t]);
    forall u | u in s'.pcs ensures ThreadOk(s', u, s'.pcs[u]) {
      if u != t { assert ThreadOk(s, u, s.pcs[u]); }
    }
  }

  lemma SectionSingle(s: Sys, t: Tid)
    requires Inv(s) && Single(s) && InSection(PcOf(s, t))
    ensures Single(DoSection(s, t))
  {
    var s' := DoSection(s, t);
    assert PcOk(s, t, s.pcs[t]);
    SectionShape(s, t);
    if PcOf(s, t).mon { WatchdogStep(s, s', t); } else { PlainStep(s, s', t); }
  }

  lemma SectionShape(s: Sys, t: Tid)
    requires InSection(PcOf(s, t)) && (PcOf(s, t).mon ==> PcOf(s, t).op == Resume)
    ensures var s' := DoSection(s, t);
      && OthersStay(s, s', t) && s'.monitor == s.monitor && s'.active == s.active
      && (if PcOf(s, t).mon then Live(s'.pcs[t]) && !Looping(s'.pcs[t]) else Plain(s'.pcs[t]))
  {
    var s', pc := DoSection(s, t), PcOf(s, t);
    if pc.Flag? {
      FlagShape(s, t);
    } else {
      assert s'.pcs == s.pcs[t := s'.pcs[t]];
    }
  }

  lemma FlagShape(s: Sys, t: Tid)
    requires PcOf(s, t).Flag?
    ensures var s' := DoSection(s, t);
      && OthersStay(s, s', t) && s'.monitor == s.monitor && s'.active == s.active
      && s'.pcs[t] == Leave(PcOf(s, t).op, PcOf(s, t).mon, true)
  {
  }

  /** Entering a call, or a step inside wait_if_paused. */
  lemma CallShape(s: Sys, m: Move)
    requires var pc := PcOf(s, m.tid); pc.Idle? || pc.Returned? || pc.Raised? || InCall(pc)
    ensures var s' := Do(s, m);
      s' == s || (OthersStay(s, s', m.tid) && s'.monitor == s.monitor && s'.active == s.active && Plain(s'.pcs[m.tid]))
  {
    var s' := Do(s, m);
    if s' != s { assert s'.pcs == s.pcs[m.tid := s'.pcs[m.tid]]; }
  }

  lemma StartSingle(s: Sys, t: Tid, c: Choice)
    requires Single(s) && OneStarter(s) && OneStarter(DoStart(s, t, c))
    requires PcOf(s, t).StartTest? || Starting(PcOf(s, t))
    ensures Single(DoStart(s, t, c))
  {
    var s', pc := DoStart(s, t, c), PcOf(s, t);
    assert ThreadOk(s, t, pc);
    match pc
    case StartTest =>
      PlainStep(s, s', t);
    case _ => StarterMoves(s, t, c);
  }

  lemma StarterMoves(s: Sys, t: Tid, c: Choice)
    requires Single(s) && OneStarter(s) && Starting(PcOf(s, t))
    ensures Single(DoStart(s, t, c))
  {
    var s', pc := DoStart(s, t, c), PcOf(s, t);
    assert ThreadOk(s, t, pc);
    forall u | u in s'.pcs ensures ThreadOk(s', u, s'.pcs[u]) {
      if u in s.pcs {
        assert ThreadOk(s, u, s.pcs[u]);
        if u != t { assert !Starting(s.pcs[u]); }
      }
    }
    if pc.StartCreate? && s' != s { assert s'.pcs[t].StartThread?; }
  }

  lemma MonitorSingle(s: Sys, t: Tid, c: Choice)
    requires Single(s) && Live(PcOf(s, t)) && !InSection(PcOf(s, t))
    ensures Single(DoMonitor(s, t, c))
  {
  }

  lemma StepSingle(s: Sys, m: Move)
    requires Inv(s) && Single(s) && OneStarter(s) && OneStarter(Do(s, m))
    ensures Single(Do(s, m))
  {
    var s', t, pc := Do(s, m), m.tid, PcOf(s, m.tid);
    if InSection(pc) {
      SectionSingle(s, t);
    } else if pc.StartTest? || Starting(pc) {
      StartSingle(s, t, m.choice);
    } else if Live(pc) {
      MonitorSingle(s, t, m.choice);
    } else if pc.Idle? || pc.Returned? || pc.Raised? || InCall(pc) {
      CallShape(s, m);
      if s' != s { PlainStep(s, s', t); }
    }
  }

  lemma {:induction false} AlwaysSingle(run: seq<Move>, k: nat)
    requires StartsInTurn(run) && k <= |run|
    ensures Single(At(run, k))
  {
    if k > 0 {
      AlwaysSingle(run, k - 1);
      AlwaysInv(run, k - 1);
      assert OneStarter(At(run, k - 1)) && OneStarter(At(run, k));
      StepSingle(At(run, k - 1), run[k - 1]);
    }
  }

  lemma StartsInTurnSuffice(run: seq<Move>, k: nat)
    requires StartsInTurn(run) && k < |run|
    ensures !SecondStartAt(run, k)
  {
    AlwaysSingle(run, k);
    var s := At(run, k);
    forall t | t in s.pcs && Live(s.pcs[t]) ensures s.monitor == Some(t) {
      assert ThreadOk(s, t, s.pcs[t]);
    }
  }

  // ---------------------------------------------------------------- the condition at the check

  /** A thread passes the check while another one is between its check and its start. */
  ghost predicate OverlappingCheck(s: Sys, m: Move) {
    && PcOf(s, m.tid).StartTest? && !(s.monitor.Some? && Alive(s, s.monitor.value))
    && exists t | t in s.pcs :: Starting(s.pcs[t])
  }

  lemma StarterGrows(s: Sys, m: Move, t: Tid)
    requires t in Do(s, m).pcs && Starting(Do(s, m).pcs[t])
    ensures (t in s.pcs && Starting(s.pcs[t]))
            || (t == m.tid && PcOf(s, t).StartTest? && !(s.monitor.Some? && Alive(s, s.monitor.value)))
  {
    if m.tid != t { OtherPc(s, m, t); } else if !Starting(PcOf(s, t)) { OwnStarter(s, t, m.choice); }
  }

  lemma OwnStarter(s: Sys, t: Tid, c: Choice)
    requires Starting(PcOf(Do(s, Move(t, c)), t)) && !Starting(PcOf(s, t))
    ensures PcOf(s, t).StartTest? && !(s.monitor.Some? && Alive(s, s.monitor.value))
  {
  }

  lemma StepOneStarter(s: Sys, m: Move)
    requires OneStarter(s)
    ensures OneStarter(Do(s, m)) <==> !OverlappingCheck(s, m)
  {
    var s' := Do(s, m);
    if OverlappingCheck(s, m) {
      var t :| t in s.pcs && Starting(s.pcs[t]);
      Untouched(s, m, t);
      assert Starting(s'.pcs[t]) && Starting(s'.pcs[m.tid]) && t != m.tid;
    } else {
      forall t, u | t in s'.pcs && u in s'.pcs && Starting(s'.pcs[t]) && Starting(s'.pcs[u]) ensures t == u {
        StarterGrows(s, m, t);
        StarterGrows(s, m, u);
      }
    }
  }

  ghost predicate OverlapAt(run: seq<Move>, k: nat)
    requires k < |run|
  {
    OverlappingCheck(At(run, k), run[k])
  }

  lemma {:induction false} InTurnUntil(run: seq<Move>, k: nat)
    requires k <= |run| && forall i | 0 <= i < k :: !OverlapAt(run, i)
    ensures OneStarter(At(run, k))
  {
    if k > 0 {
      InTurnUntil(run, k - 1);
      assert !OverlapAt(run, k - 1);
      StepOneStarter(At(run, k - 1), run[k - 1]);
    }
  }

  /** Starts are in turn exactly if no check is passed while another thread is past its own. */
  lemma StartsInTurnExactly(run: seq<Move>)
    ensures StartsInTurn(run) <==> (forall k | 0 <= k < |run| :: !OverlapAt(run, k))
  {
    if forall k | 0 <= k < |run| :: !OverlapAt(run, k) {
      forall k: nat | k <= |run| ensures OneStarter(At(run, k)) { InTurnUntil(run, k); }
    } else {
      var k :| 0 <= k < |run| && OverlapAt(run, k);
      if OneStarter(At(run, k)) {
        StepOneStarter(At(run, k), run[k]);
        assert !OneStarter(At(run, k + 1));
      }
    }
  }

  /** If no check is passed while another thread is past its own, there is never more than one live watchdog. */
  lemma ChecksApartSuffice(run: seq<Move>, k: nat)
    requires k <= |run| && forall i | 0 <= i < |run| :: !OverlapAt(run, i)
    ensures AtMostOne(At(run, k))
  {
    StartsInTurnExactly(run);
    forall i | 0 <= i < |run| ensures !SecondStartAt(run, i) { StartsInTurnSuffice(run, i); }
    AtMostOneUntil(run, k);
    assert AtMostOneAt(run, k);
  }
}
