/**
 What the recovery thread guarantees over whole interleavings, and the two windows in which the
 protocol does less than it seems to: a resume that ends a manual pause, and a disconnect that
 finds a watchdog which will never look again.
 */
module Watchdog {
  import opened Prelude
  import opened PauseProtocol

  // ---------------------------------------------------------------- when a watchdog resumes

  /** Move `m` is the loop-head read by thread `t`, and it saw PAUSED_NETWORK_LOST. */
  ghost predicate HeadRead(run: seq<Move>, t: Tid, m: nat) {
    && m < |run| && run[m].tid == t
    && PcAt(run, m, t).MonRead? && At(run, m).lock.None?
    && At(run, m).state == PausedNetworkLost
  }

  ghost predicate Probed(run: seq<Move>, t: Tid, m: nat) {
    m < |run| && run[m].tid == t && PcAt(run, m, t).MonSleep? && run[m].choice.Probe?
  }

  /** No probe by `t` strictly between the two moves. */
  ghost predicate NoProbe(run: seq<Move>, t: Tid, i: nat, k: nat) {
    forall m | i < m < k :: !Probed(run, t, m)
  }

  /** A loop-head read, then a successful probe, which is the thread's latest probe before `k`. */
  ghost predicate Once(run: seq<Move>, t: Tid, h: nat, p: nat, k: nat) {
    h < p < k && HeadRead(run, t, h) && Probed(run, t, p) && run[p].choice.ok && NoProbe(run, t, p, k)
  }

  /** Two successful probes with no other probe between them, each after a loop-head read of its own. */
  ghost predicate Twice(run: seq<Move>, t: Tid, h1: nat, p1: nat, h2: nat, p2: nat, k: nat) {
    Once(run, t, h1, p1, p2) && p1 < h2 && Once(run, t, h2, p2, k)
  }

  ghost predicate ReadSince(run: seq<Move>, t: Tid, h1: nat, p1: nat, h2: nat, k: nat) {
    Once(run, t, h1, p1, k) && p1 < h2 < k && HeadRead(run, t, h2)
  }

  ghost predicate HasRead(run: seq<Move>, t: Tid, k: nat) {
    exists h: nat :: h < k && HeadRead(run, t, h)
  }

  ghost predicate HasOnce(run: seq<Move>, t: Tid, k: nat) {
    exists h: nat, p: nat :: Once(run, t, h, p, k)
  }

  ghost predicate HasReadSince(run: seq<Move>, t: Tid, k: nat) {
    exists h1: nat, p1: nat, h2: nat :: ReadSince(run, t, h1, p1, h2, k)
  }

  ghost predicate HasTwice(run: seq<Move>, t: Tid, k: nat) {
    exists h1: nat, p1: nat, h2: nat, p2: nat :: Twice(run, t, h1, p1, h2, p2, k)
  }

  /** What the program counter of a watchdog says about its own past. */
  ghost predicate Past(run: seq<Move>, t: Tid, k: nat, pc: Pc) {
    match pc
    case MonHead(n) => n == 0 || (n == 1 && HasOnce(run, t, k))
    case MonRead(n) => n == 0 || (n == 1 && HasOnce(run, t, k))
    case MonSleep(n) => if n == 0 then HasRead(run, t, k) else n == 1 && HasReadSince(run, t, k)
    case MonStop => HasTwice(run, t, k)
    case _ => InSection(pc) && pc.mon ==> HasTwice(run, t, k)
  }

  lemma {:induction false} MonitorHistory(run: seq<Move>, t: Tid, k: nat)
    requires k <= |run|
    ensures Past(run, t, k, PcAt(run, k, t))
  {
    if k > 0 {
      MonitorHistory(run, t, k - 1);
      if run[k - 1].tid != t {
        OthersMove(run, t, k);
      } else if Probed(run, t, k - 1) {
        AfterProbe(run, t, k);
      } else if PcAt(run, k - 1, t).MonRead? {
        AfterRead(run, t, k);
      } else {
        OwnMove(run, t, k);
      }
    }
  }

  lemma OthersMove(run: seq<Move>, t: Tid, k: nat)
    requires 0 < k <= |run| && run[k - 1].tid != t && Past(run, t, k - 1, PcAt(run, k - 1, t))
    ensures Past(run, t, k, PcAt(run, k, t))
  {
    OtherPc(At(run, k - 1), run[k - 1], t);
    PastKept(run, t, k);
  }

  /** A step of `t` that is neither a read at the loop head nor a probe. */
  lemma OwnMove(run: seq<Move>, t: Tid, k: nat)
    requires 0 < k <= |run| && run[k - 1].tid == t && Past(run, t, k - 1, PcAt(run, k - 1, t))
    requires !PcAt(run, k - 1, t).MonRead? && !Probed(run, t, k - 1)
    ensures Past(run, t, k, PcAt(run, k, t))
  {
    PastKept(run, t, k);
    OwnPc(At(run, k - 1), t, run[k - 1].choice);
  }

  lemma OwnPc(s: Sys, t: Tid, c: Choice)
    requires !PcOf(s, t).MonRead? && !(PcOf(s, t).MonSleep? && c.Probe?)
    ensures var pc, pc' := PcOf(s, t), PcOf(Do(s, Move(t, c)), t);
      || pc' == pc
      || (pc.MonHead? && pc' == MonRead(pc.n))
      || ((pc.MonStop? || (InSection(pc) && pc.mon)) && InSection(pc') && pc'.mon)
      || pc'.MonExit? || pc'.MonDead?
      || (!(pc'.MonHead? || pc'.MonRead? || pc'.MonSleep? || pc'.MonStop?) && !(InSection(pc') && pc'.mon))
      || (pc'.MonHead? && pc'.n == 0)
  {
  }

  /** A move that is not a probe by `t` takes nothing away from what `t` has seen. */
  lemma PastKept(run: seq<Move>, t: Tid, k: nat)
    requires 0 < k <= |run| && !Probed(run, t, k - 1)
    ensures HasRead(run, t, k - 1) ==> HasRead(run, t, k)
    ensures HasOnce(run, t, k - 1) ==> HasOnce(run, t, k)
    ensures HasReadSince(run, t, k - 1) ==> HasReadSince(run, t, k)
    ensures HasTwice(run, t, k - 1) ==> HasTwice(run, t, k)
  {
    if HasOnce(run, t, k - 1) {
      var h: nat, p: nat :| Once(run, t, h, p, k - 1);
      assert Once(run, t, h, p, k);
    }
    if HasReadSince(run, t, k - 1) {
      var h1: nat, p1: nat, h2: nat :| ReadSince(run, t, h1, p1, h2, k - 1);
      assert ReadSince(run, t, h1, p1, h2, k);
    }
    if HasTwice(run, t, k - 1) {
      var h1: nat, p1: nat, h2: nat, p2: nat :| Twice(run, t, h1, p1, h2, p2, k - 1);
      assert Twice(run, t, h1, p1, h2, p2, k);
    }
  }

  lemma AfterRead(run: seq<Move>, t: Tid, k: nat)
    requires 0 < k <= |run| && run[k - 1].tid == t && PcAt(run, k - 1, t).MonRead?
    requires Past(run, t, k - 1, PcAt(run, k - 1, t))
    ensures Past(run, t, k, PcAt(run, k, t))
  {
    PastKept(run, t, k);
    if PcAt(run, k, t).MonSleep? {
      assert HeadRead(run, t, k - 1);
      if PcAt(run, k - 1, t) == MonRead(1) {
        var h: nat, p: nat :| Once(run, t, h, p, k - 1);
        assert ReadSince(run, t, h, p, k - 1, k);
      }
    }
  }

  lemma AfterProbe(run: seq<Move>, t: Tid, k: nat)
    requires 0 < k <= |run| && Probed(run, t, k - 1)
    requires Past(run, t, k - 1, PcAt(run, k - 1, t))
    ensures Past(run, t, k, PcAt(run, k, t))
  {
    if run[k - 1].choice.ok {
      if PcAt(run, k - 1, t) == MonSleep(0) {
        var h: nat :| h < k - 1 && HeadRead(run, t, h);
        assert Once(run, t, h, k - 1, k);
      } else {
        var h1: nat, p1: nat, h2: nat :| ReadSince(run, t, h1, p1, h2, k - 1);
        assert Twice(run, t, h1, p1, h2, k - 1, k);
      }
    }
  }

  // ---------------------------------------------------------------- whose pause it ends

  /** The latest write to the state in moves [i, j) is that of a manual pause. */
  ghost predicate PausedSince(run: seq<Move>, i: nat, j: nat)
    requires j <= |run|
  {
    exists m | i <= m < j :: IsWrite(run, m) && WriteOp(run, m) == Pause && NoWrite(run, m, j)
  }

  ghost predicate NoWrite(run: seq<Move>, m: nat, j: nat)
    requires j <= |run|
  {
    forall k | m < k < j :: !IsWrite(run, k)
  }

  lemma {:induction false} StateIsLastWrite(run: seq<Move>, i: nat, j: nat)
    requires i <= j <= |run| && At(run, i).state != PausedManual
    ensures At(run, j).state == PausedManual <==> PausedSince(run, i, j)
  {
    if i < j {
      StateIsLastWrite(run, i, j - 1);
      OneStepOfState(run, j - 1);
      if IsWrite(run, j - 1) {
        assert WriteOp(run, j - 1) == Pause ==> NoWrite(run, j - 1, j);
      } else if PausedSince(run, i, j - 1) {
        var m :| i <= m < j - 1 && IsWrite(run, m) && WriteOp(run, m) == Pause && NoWrite(run, m, j - 1);
        assert NoWrite(run, m, j);
      } else if PausedSince(run, i, j) {
        var m :| i <= m < j && IsWrite(run, m) && WriteOp(run, m) == Pause && NoWrite(run, m, j);
        assert NoWrite(run, m, j - 1);
      }
    }
  }

  /**
   Every resume a watchdog issues follows, in its own run, two consecutive successful probes, each
   after a loop-head read of PAUSED_NETWORK_LOST; and it ends a manual pause exactly when a manual
   pause is the latest thing written since the second of those reads.
   */
  lemma WatchdogResume(run: seq<Move>, t: Tid, j: nat)
      returns (h1: nat, p1: nat, h2: nat, p2: nat)
    requires j < |run| && PcAt(run, j, t) == Write(Resume, true)
    ensures Twice(run, t, h1, p1, h2, p2, j)
    ensures At(run, j).state == PausedManual <==> PausedSince(run, h2, j)
  {
    MonitorHistory(run, t, j);
    h1, p1, h2, p2 :| Twice(run, t, h1, p1, h2, p2, j);
    StateIsLastWrite(run, h2, j);
  }

  // ---------------------------------------------------------------- concrete interleavings

  /** Moves together with the states they lead through. */
  datatype Trace = Trace(states: seq<Sys>, moves: seq<Move>)

  ghost predicate IsTrace(tr: Trace) {
    && |tr.states| == |tr.moves| + 1
    && tr.states[0] == INIT
    && forall i | 0 <= i < |tr.moves| :: tr.states[i + 1] == Do(tr.states[i], tr.moves[i])
  }

  ghost predicate Extends(tr: Trace, tr': Trace) {
    && |tr.states| <= |tr'.states| && |tr.moves| <= |tr'.moves|
    && (forall i | 0 <= i < |tr.states| :: tr'.states[i] == tr.states[i])
    && forall i | 0 <= i < |tr.moves| :: tr'.moves[i] == tr.moves[i]
  }

  lemma {:induction false} TraceIsRun(tr: Trace, k: nat)
    requires IsTrace(tr) && k <= |tr.moves|
    ensures At(tr.moves, k) == tr.states[k]
  {
    if k > 0 { TraceIsRun(tr, k - 1); }
  }

  lemma Step(tr: Trace, s: Sys, t: Tid, c: Choice, s': Sys) returns (tr': Trace)
    requires IsTrace(tr) && tr.states[|tr.moves|] == s && Do(s, Move(t, c)) == s'
    ensures IsTrace(tr') && Extends(tr, tr') && |tr'.moves| == |tr.moves| + 1 && tr'.moves[|tr.moves|] == Move(t, c)
    ensures tr'.states[|tr.moves|] == s && tr'.states[|tr'.moves|] == s'
  {
    tr' := Trace(tr.states + [s'], tr.moves + [Move(t, c)]);
  }

  /** Thread `t`, idle, runs one locked section from end to end while nobody else moves. */
  lemma WholeSection(tr: Trace, s: Sys, t: Tid, op: Op, s': Sys) returns (tr': Trace)
    requires IsTrace(tr) && tr.states[|tr.moves|] == s
    requires s.lock.None? && PcOf(s, t) == Idle && !Refused(op, s.state) && !Released(Target(op))
    requires s' == Goto(s.(state := Target(op), event := false), t, AfterSection(op, false, true))
    ensures IsTrace(tr') && Extends(tr, tr') && tr'.states[|tr'.moves|] == s'
  {
    var s1 := Goto(s, t, Enter(op, false));
    var s2 := Goto(s.(lock := Some(t)), t, Test(op, false));
    var s3 := Goto(s2, t, Write(op, false));
    assert s2 == Goto(s1.(lock := Some(t)), t, Test(op, false));
    tr' := Step(tr, s, t, Begin(op), s1);
    tr' := Step(tr', s1, t, Go, s2);
    tr' := Step(tr', s2, t, Go, s3);
    assert s' == Goto(s3.(lock := None, state := Target(op), event := false), t, AfterSection(op, false, true));
    tr' := SecondHalf(tr', s3, t, op, s');
  }

  lemma SecondHalf(tr: Trace, s: Sys, t: Tid, op: Op, s': Sys) returns (tr': Trace)
    requires IsTrace(tr) && tr.states[|tr.moves|] == s
    requires PcOf(s, t) == Write(op, false) && !Released(Target(op))
    requires s' == Goto(s.(lock := None, state := Target(op), event := false), t, AfterSection(op, false, true))
    ensures IsTrace(tr') && Extends(tr, tr') && tr'.states[|tr'.moves|] == s'
  {
    var s1 := Goto(s.(state := Target(op)), t, Flag(op, false));
    var s2 := Goto(s1.(event := false), t, Leave(op, false, true));
    assert s' == Goto(s2.(lock := None), t, AfterSection(op, false, true));
    tr' := Step(tr, s, t, Go, s1);
    tr' := Step(tr', s1, t, Go, s2);
    tr' := Step(tr', s2, t, Go, s');
  }

  const WORKER: Tid := 0
  const ADMIN: Tid := 1
  const MONITOR: Tid := 2

  function Lost(worker: Pc, monitor: Pc): Sys {
    Sys(PausedNetworkLost, false, None, true, Some(MONITOR), map[WORKER := worker, MONITOR := monitor])
  }

  /** A worker reports a disconnect and starts a watchdog. */
  lemma Reported() returns (tr: Trace)
    ensures IsTrace(tr) && tr.states[|tr.moves|] == Lost(Idle, MonHead(0))
  {
    var s0 := Goto(INIT.(state := PausedNetworkLost, event := false), WORKER, StartTest);
    tr := WholeSection(Trace([INIT], []), INIT, WORKER, Disconnect, s0);
    var s1 := Goto(s0, WORKER, StartActivate);
    var s2 := Goto(s1.(active := true), WORKER, StartCreate);
    tr := Step(tr, s0, WORKER, Go, s1);
    tr := Step(tr, s1, WORKER, Go, s2);
    tr := MonitorStarted(tr, s2);
  }

  lemma MonitorStarted(tr: Trace, s: Sys) returns (tr': Trace)
    requires IsTrace(tr) && tr.states[|tr.moves|] == s
    requires s == Sys(PausedNetworkLost, false, None, true, None, s.pcs)
    requires s.pcs.Keys == {WORKER} && s.pcs[WORKER] == StartCreate
    ensures IsTrace(tr') && tr'.states[|tr'.moves|] == Lost(Idle, MonHead(0))
  {
    var s1 := Goto(Goto(s.(monitor := Some(MONITOR)), MONITOR, MonNew), WORKER, StartThread);
    var s2 := Goto(Goto(s1, MONITOR, MonHead(0)), WORKER, Idle);
    assert s2.pcs == map[WORKER := Idle, MONITOR := MonHead(0)];
    tr' := Step(tr, s, WORKER, Create(MONITOR), s1);
    tr' := Step(tr', s1, WORKER, Go, s2);
  }

  /** The watchdog probes once and reads the state again. */
  lemma OneProbe() returns (tr: Trace)
    ensures IsTrace(tr) && tr.states[|tr.moves|] == Lost(Idle, MonSleep(1))
  {
    tr := Reported();
    tr := Step(tr, Lost(Idle, MonHead(0)), MONITOR, Go, Lost(Idle, MonRead(0)));
    tr := Step(tr, Lost(Idle, MonRead(0)), MONITOR, Go, Lost(Idle, MonSleep(0)));
    tr := Step(tr, Lost(Idle, MonSleep(0)), MONITOR, Probe(true), Lost(Idle, MonHead(1)));
    tr := Step(tr, Lost(Idle, MonHead(1)), MONITOR, Go, Lost(Idle, MonRead(1)));
    tr := Step(tr, Lost(Idle, MonRead(1)), MONITOR, Go, Lost(Idle, MonSleep(1)));
  }

  /** From the second successful probe up to the write of the watchdog's resume. */
  lemma ToResume(tr: Trace, s: Sys) returns (tr': Trace)
    requires IsTrace(tr) && tr.states[|tr.moves|] == s && s.lock.None? && s.state != Cancelled
    requires PcOf(s, MONITOR) == MonSleep(1)
    ensures IsTrace(tr') && Extends(tr, tr')
    ensures tr'.states[|tr'.moves|] == Goto(s.(lock := Some(MONITOR), active := false), MONITOR, Write(Resume, true))
  {
    var s1 := Goto(s, MONITOR, MonStop);
    var s2 := Goto(s.(active := false), MONITOR, Enter(Resume, true));
    var s3 := Goto(s2.(lock := Some(MONITOR)), MONITOR, Test(Resume, true));
    var s4 := Goto(s.(lock := Some(MONITOR), active := false), MONITOR, Write(Resume, true));
    assert s4 == Goto(s3, MONITOR, Write(Resume, true));
    assert s2 == Goto(s1.(active := false), MONITOR, Enter(Resume, true));
    tr' := Step(tr, s, MONITOR, Probe(true), s1);
    tr' := Step(tr', s1, MONITOR, Go, s2);
    tr' := Step(tr', s2, MONITOR, Go, s3);
    tr' := Step(tr', s3, MONITOR, Go, s4);
  }

  /** Counterexample: an administrator pauses during the second probe and the watchdog ends that pause. */
  lemma WatchdogCanEndManualPause() returns (run: seq<Move>, j: nat)
    ensures j + 1 == |run| && PcAt(run, j, MONITOR) == Write(Resume, true)
    ensures At(run, j).state == PausedManual && At(run, j + 1).state == Running
  {
    var tr := OneProbe();
    var s := Goto(Lost(Idle, MonSleep(1)).(state := PausedManual), ADMIN, Idle);
    tr := WholeSection(tr, Lost(Idle, MonSleep(1)), ADMIN, Pause, s);
    tr := ToResume(tr, s);
    j := |tr.moves|;
    var w := tr.states[j];
    tr := Step(tr, w, MONITOR, Go, Goto(w.(state := Running), MONITOR, Flag(Resume, true)));
    run := tr.moves;
    TraceIsRun(tr, j);
    TraceIsRun(tr, j + 1);
  }

  /** All threads are at rest, so only a new call can change the state. */
  ghost predicate AtRest(s: Sys) {
    forall t | t in s.pcs :: s.pcs[t] == Idle || s.pcs[t] == MonDead
  }

  /** The watchdog's resume, up to the lock-free instant before its thread ends. */
  lemma Resumed() returns (tr: Trace)
    ensures IsTrace(tr) && tr.states[|tr.moves|] ==
                           Sys(Running, true, None, false, Some(MONITOR), map[WORKER := Idle, MONITOR := MonExit])
  {
    tr := OneProbe();
    var s0 := Lost(Idle, MonSleep(1));
    tr := ToResume(tr, s0);
    var s := Goto(s0.(lock := Some(MONITOR), active := false), MONITOR, Write(Resume, true));
    var s1 := Goto(s.(state := Running), MONITOR, Flag(Resume, true));
    var s2 := Goto(s1.(event := true), MONITOR, Leave(Resume, true, true));
    assert SetEvent(s1).pcs == s1.pcs;
    var s3 := Goto(s2.(lock := None), MONITOR, MonExit);
    tr := Step(tr, s, MONITOR, Go, s1);
    tr := Step(tr, s1, MONITOR, Go, s2);
    tr := Step(tr, s2, MONITOR, Go, s3);
    assert s3.pcs == map[WORKER := Idle, MONITOR := MonExit];
  }

  /** Counterexample: a disconnect arrives between the resume and the end of the watchdog thread. */
  lemma DisconnectCanBeStranded() returns (run: seq<Move>)
    ensures At(run, |run|).state == PausedNetworkLost && AtRest(At(run, |run|))
  {
    var tr := Resumed();
    var s := Sys(Running, true, None, false, Some(MONITOR), map[WORKER := Idle, MONITOR := MonExit]);
    var s1 := Goto(s.(state := PausedNetworkLost, event := false), WORKER, StartTest);
    tr := WholeSection(tr, s, WORKER, Disconnect, s1);
    var s2 := Goto(s1, WORKER, Idle);
    tr := Step(tr, s1, WORKER, Go, s2);
    tr := Step(tr, s2, MONITOR, Go, Goto(s2, MONITOR, MonDead));
    run := tr.moves;
    TraceIsRun(tr, |run|);
  }

  // ---------------------------------------------------------------- two watchdogs at once

  const SECOND: Tid := 3

  /** Two threads, WORKER and ADMIN, with one watchdog registered, and with two. */
  function OneMonitor(worker: Pc, other: Pc, first: Pc): Sys {
    Sys(PausedNetworkLost, false, None, true, Some(MONITOR), map[WORKER := worker, ADMIN := other, MONITOR := first])
  }

  function TwoMonitors(other: Pc, first: Pc, second: Pc): Sys {
    Sys(PausedNetworkLost, false, None, true, Some(SECOND),
        map[WORKER := Idle, ADMIN := other, MONITOR := first, SECOND := second])
  }

  /** Two threads report a disconnect, both pass the check, and one of them starts its watchdog. */
  lemma BothPassTheCheck() returns (tr: Trace)
    ensures IsTrace(tr) && tr.states[|tr.moves|] == OneMonitor(Idle, StartActivate, MonHead(0))
  {
    var s0 := Goto(INIT.(state := PausedNetworkLost, event := false), WORKER, StartTest);
    tr := WholeSection(Trace([INIT], []), INIT, WORKER, Disconnect, s0);
    var s1 := Goto(s0, ADMIN, StartTest);
    tr := WholeSection(tr, s0, ADMIN, Disconnect, s1);
    tr := BothPassed(tr, s1);
  }

  lemma BothPassed(tr: Trace, s: Sys) returns (tr': Trace)
    requires IsTrace(tr) && tr.states[|tr.moves|] == s
    requires s == INIT.(state := PausedNetworkLost, event := false, pcs := map[WORKER := StartTest, ADMIN := StartTest])
    ensures IsTrace(tr') && tr'.states[|tr'.moves|] == OneMonitor(Idle, StartActivate, MonHead(0))
  {
    var s1 := Goto(s, WORKER, StartActivate);
    var s2 := Goto(s1, ADMIN, StartActivate);
    var s3 := Goto(s2.(active := true), WORKER, StartCreate);
    tr' := Step(tr, s, WORKER, Go, s1);
    tr' := Step(tr', s1, ADMIN, Go, s2);
    tr' := Step(tr', s2, WORKER, Go, s3);
    tr' := FirstStarted(tr', s3);
  }

  lemma FirstStarted(tr: Trace, s: Sys) returns (tr': Trace)
    requires IsTrace(tr) && tr.states[|tr.moves|] == s
    requires s == Sys(PausedNetworkLost, false, None, true, None, map[WORKER := StartCreate, ADMIN := StartActivate])
    ensures IsTrace(tr') && tr'.states[|tr'.moves|] == OneMonitor(Idle, StartActivate, MonHead(0))
  {
    var s1, s2 := OneMonitor(StartThread, StartActivate, MonNew), OneMonitor(Idle, StartActivate, MonHead(0));
    assert s1.pcs == s.pcs[MONITOR := MonNew][WORKER := StartThread];
    assert s2.pcs == s1.pcs[MONITOR := MonHead(0)][WORKER := Idle];
    tr' := Step(tr, s, WORKER, Create(MONITOR), s1);
    tr' := Step(tr', s1, WORKER, Go, s2);
  }

  /** The first watchdog gets to its second probe; then the second one is started and gets to its first. */
  lemma TwoAtWork() returns (tr: Trace)
    ensures IsTrace(tr) && tr.states[|tr.moves|] == TwoMonitors(Idle, MonSleep(1), MonSleep(0))
  {
    tr := BothPassTheCheck();
    tr := Looks(tr, OneMonitor(Idle, StartActivate, MonHead(0)), MONITOR, 0);
    var s := OneMonitor(Idle, StartActivate, MonHead(1));
    assert s.pcs == OneMonitor(Idle, StartActivate, MonSleep(0)).pcs[MONITOR := MonHead(1)];
    tr := Step(tr, OneMonitor(Idle, StartActivate, MonSleep(0)), MONITOR, Probe(true), s);
    tr := Looks(tr, s, MONITOR, 1);
    tr := SecondStarted(tr, OneMonitor(Idle, StartActivate, MonSleep(1)));
    var started := TwoMonitors(Idle, MonSleep(1), MonHead(0));
    tr := Looks(tr, started, SECOND, 0);
    assert Goto(started, SECOND, MonSleep(0)) == TwoMonitors(Idle, MonSleep(1), MonSleep(0));
  }

  /** A watchdog goes from its loop head to its sleep. */
  lemma Looks(tr: Trace, s: Sys, t: Tid, n: nat) returns (tr': Trace)
    requires IsTrace(tr) && tr.states[|tr.moves|] == s && s.active && s.lock.None? && s.state == PausedNetworkLost
    requires t in s.pcs && s.pcs[t] == MonHead(n)
    ensures IsTrace(tr') && tr'.states[|tr'.moves|] == Goto(s, t, MonSleep(n))
  {
    var s1 := Goto(s, t, MonRead(n));
    assert Goto(s, t, MonSleep(n)) == Goto(s1, t, MonSleep(n));
    tr' := Step(tr, s, t, Go, s1);
    tr' := Step(tr', s1, t, Go, Goto(s, t, MonSleep(n)));
  }

  lemma SecondStarted(tr: Trace, s: Sys) returns (tr': Trace)
    requires IsTrace(tr) && tr.states[|tr.moves|] == s && s == OneMonitor(Idle, StartActivate, MonSleep(1))
    ensures IsTrace(tr') && tr'.states[|tr'.moves|] == TwoMonitors(Idle, MonSleep(1), MonHead(0))
  {
    var s1 := Goto(s, ADMIN, StartCreate);
    var s2, s3 := TwoMonitors(StartThread, MonSleep(1), MonNew), TwoMonitors(Idle, MonSleep(1), MonHead(0));
    assert s2.pcs == s1.pcs[SECOND := MonNew][ADMIN := StartThread];
    assert s3.pcs == s2.pcs[SECOND := MonHead(0)][ADMIN := Idle];
    tr' := Step(tr, s, ADMIN, Go, s1);
    tr' := Step(tr', s1, ADMIN, Create(SECOND), s2);
    tr' := Step(tr', s2, ADMIN, Go, s3);
  }

  /** From the write of its resume to the end of the first watchdog's thread. */
  lemma Retires(tr: Trace, s: Sys) returns (tr': Trace)
    requires IsTrace(tr) && tr.states[|tr.moves|] == s && s.lock == Some(MONITOR) && !s.active
    requires PcOf(s, MONITOR) == Write(Resume, true) && forall u | u in s.pcs :: !s.pcs[u].Blocked?
    ensures IsTrace(tr') && Extends(tr, tr')
    ensures tr'.states[|tr'.moves|] == Goto(s.(state := Running, event := true, lock := None), MONITOR, MonDead)
  {
    var s1 := Goto(s.(state := Running), MONITOR, Flag(Resume, true));
    var s2 := Goto(s.(state := Running, event := true), MONITOR, Leave(Resume, true, true));
    assert SetEvent(s1).pcs == s1.pcs && s2.pcs == Goto(s1, MONITOR, Leave(Resume, true, true)).pcs;
    tr' := Step(tr, s, MONITOR, Go, s1);
    tr' := Step(tr', s1, MONITOR, Go, s2);
    tr' := Ends(tr', s2, MONITOR);
    assert Goto(s2.(lock := None), MONITOR, MonDead).pcs == s.pcs[MONITOR := MonDead];
  }

  lemma Ends(tr: Trace, s: Sys, t: Tid) returns (tr': Trace)
    requires IsTrace(tr) && tr.states[|tr.moves|] == s && !s.active
    requires PcOf(s, t) == Leave(Resume, true, true)
    ensures IsTrace(tr') && Extends(tr, tr') && tr'.states[|tr'.moves|] == Goto(s.(lock := None), t, MonDead)
  {
    var s1, s2 := Goto(s.(lock := None), t, MonExit), Goto(s.(lock := None), t, MonDead);
    assert s2.pcs == s1.pcs[t := MonDead];
    tr' := Step(tr, s, t, Go, s1);
    tr' := Step(tr', s1, t, Go, s2);
  }

  /**
   Counterexample: with two watchdogs at once, the first one's resume clears the flag of the second,
   which leaves although a new disconnect relies on it.  At instant `i` both watchdogs are looping; at
   instant `j` the check of the last disconnect finds the second one looping, and so starts none.
   */
  lemma OverlappingStartsCanStrand() returns (run: seq<Move>, i: nat, j: nat)
    ensures i < j < |run|
    ensures PcAt(run, i, MONITOR) == MonSleep(1) && PcAt(run, i, SECOND) == MonSleep(0)
    ensures At(run, j).state == PausedNetworkLost && At(run, j).monitor == Some(SECOND)
    ensures run[j] == Move(WORKER, Go) && PcAt(run, j, WORKER) == StartTest && PcAt(run, j, SECOND) == MonSleep(0)
    ensures PcAt(run, j + 1, WORKER) == Idle
    ensures At(run, |run|).state == PausedNetworkLost && AtRest(At(run, |run|))
  {
    var tr;
    tr, i, j := StrandingTrace();
    run := tr.moves;
    StatesOf(tr, i, j);
  }

  /** The last disconnect is about to look for a watchdog. */
  function LastCheck(): Sys {
    Sys(PausedNetworkLost, false, None, false, Some(SECOND),
        map[WORKER := StartTest, ADMIN := Idle, MONITOR := MonDead, SECOND := MonSleep(0)])
  }

  lemma StrandingTrace() returns (tr: Trace, i: nat, j: nat)
    ensures IsTrace(tr) && i < j < |tr.moves| && tr.moves[j] == Move(WORKER, Go)
    ensures tr.states[i] == TwoMonitors(Idle, MonSleep(1), MonSleep(0)) && tr.states[j] == LastCheck()
    ensures PcOf(tr.states[j + 1], WORKER) == Idle
    ensures tr.states[|tr.moves|].state == PausedNetworkLost && AtRest(tr.states[|tr.moves|])
  {
    var tr0 := TwoAtWork();
    i := |tr0.moves|;
    var tr1 := FirstGone(tr0);
    j := |tr1.moves|;
    tr := SecondLeaves(tr1, LastCheck());
  }

  lemma StatesOf(tr: Trace, i: nat, j: nat)
    requires IsTrace(tr) && i < j < |tr.moves|
    ensures At(tr.moves, i) == tr.states[i] && At(tr.moves, j) == tr.states[j] && At(tr.moves, j + 1) == tr.states[j + 1]
    ensures At(tr.moves, |tr.moves|) == tr.states[|tr.moves|]
  {
    TraceIsRun(tr, i);
    TraceIsRun(tr, j);
    TraceIsRun(tr, j + 1);
    TraceIsRun(tr, |tr.moves|);
  }

  /** The first watchdog resumes and ends; then WORKER reports a new disconnect, up to its check. */
  lemma FirstGone(tr: Trace) returns (tr': Trace)
    requires IsTrace(tr) && tr.states[|tr.moves|] == TwoMonitors(Idle, MonSleep(1), MonSleep(0))
    ensures IsTrace(tr') && Extends(tr, tr') && |tr.moves| < |tr'.moves|
    ensures tr'.states[|tr'.moves|] == LastCheck()
  {
    var s := TwoMonitors(Idle, MonSleep(1), MonSleep(0));
    var tr1 := ToResume(tr, s);
    var tr2 := Retires(tr1, Goto(s.(lock := Some(MONITOR), active := false), MONITOR, Write(Resume, true)));
    var s1 := TwoMonitors(Idle, MonDead, MonSleep(0)).(state := Running, event := true, active := false);
    assert tr2.states[|tr2.moves|].pcs == s1.pcs;
    assert LastCheck().pcs == s1.pcs[WORKER := StartTest];
    tr' := WholeSection(tr2, s1, WORKER, Disconnect, LastCheck());
    assert tr'.states[|tr'.moves|].state != tr2.states[|tr2.moves|].state;
    ExtendsTwice(tr, tr1, tr2, tr');
  }

  lemma ExtendsTwice(a: Trace, b: Trace, c: Trace, d: Trace)
    requires Extends(a, b) && Extends(b, c) && Extends(c, d)
    ensures Extends(a, d)
  {
  }

  lemma SecondLeaves(tr: Trace, s: Sys) returns (tr': Trace)
    requires IsTrace(tr) && tr.states[|tr.moves|] == s && s == LastCheck()
    ensures IsTrace(tr') && Extends(tr, tr') && |tr.moves| < |tr'.moves| && tr'.moves[|tr.moves|] == Move(WORKER, Go)
    ensures PcOf(tr'.states[|tr.moves| + 1], WORKER) == Idle
    ensures tr'.states[|tr'.moves|].state == PausedNetworkLost && AtRest(tr'.states[|tr'.moves|])
  {
    var s1 := Goto(s, WORKER, Idle);
    var s2 := Goto(s1, SECOND, MonHead(1));
    var tr1 := Step(tr, s, WORKER, Go, s1);
    var tr2 := Step(tr1, s1, SECOND, Probe(true), s2);
    tr' := FlagCleared(tr2, s2, SECOND);
    assert tr'.moves[|tr.moves|] == tr2.moves[|tr.moves|] == tr1.moves[|tr.moves|];
    assert tr'.states[|tr.moves| + 1] == tr2.states[|tr.moves| + 1] == s1;
    ExtendsTwice(tr, tr1, tr2, tr');
  }

  lemma FlagCleared(tr: Trace, s: Sys, t: Tid) returns (tr': Trace)
    requires IsTrace(tr) && tr.states[|tr.moves|] == s && PcOf(s, t).MonHead? && !s.active
    ensures IsTrace(tr') && Extends(tr, tr') && tr'.states[|tr'.moves|] == Goto(s, t, MonDead)
  {
    var s1 := Goto(s, t, MonExit);
    assert Goto(s1, t, MonDead).pcs == s.pcs[t := MonDead];
    tr' := Step(tr, s, t, Go, s1);
    tr' := Step(tr', s1, t, Go, Goto(s, t, MonDead));
  }
}
