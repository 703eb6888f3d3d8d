/**
 The pause / cancel / network-watchdog protocol as a transition system.

 Any number of threads take steps in any order.  A step is one statement that touches shared
 state, so a locked section is several steps and other threads run in between; only the lock
 keeps them out.  `Do` is total: a step that is not enabled leaves the system as it is, and
 therefore every finite sequence of moves is an interleaving.
 */
module PauseProtocol {
  import opened Prelude

  datatype PauseState = Running | PausedManual | PausedNetworkLost | Cancelled

  /** The four methods that change the state under the lock. */
  datatype Op = Pause | Disconnect | Resume | Cancel

  /** The states in which workers may proceed, or must be woken in order to leave. */
  predicate Released(st: PauseState) {
    st == Running || st == Cancelled
  }

  /** The early `return` of a locked section. */
  predicate Refused(op: Op, st: PauseState) {
    match op
    case Cancel => false
    case Disconnect => st == Cancelled || st == PausedManual
    case _ => st == Cancelled
  }

  function Target(op: Op): PauseState {
    match op
    case Pause => PausedManual
    case Disconnect => PausedNetworkLost
    case Resume => Running
    case Cancel => Cancelled
  }

  // ---------------------------------------------------------------- the transition system

  type Tid = nat

  datatype Pc =
    | Idle
      // a locked section; `mon` marks the resume() issued by a watchdog thread
    | Enter(op: Op, mon: bool)
    | Test(op: Op, mon: bool)
    | Write(op: Op, mon: bool)
    | Flag(op: Op, mon: bool)
    | Leave(op: Op, mon: bool, done: bool)
      // wait_if_paused
    | WaitHead
    | WaitEvent
    | Blocked(notified: bool)
    | TimedOut
    | WaitLast
    | Returned
    | Raised
      // start_monitoring_recovery, run by the thread that reported the disconnect
    | StartTest
    | StartActivate
    | StartCreate
    | StartThread
      // _recovery_loop; `n` is consecutive_successes
    | MonNew
    | MonHead(n: nat)
    | MonRead(n: nat)
    | MonSleep(n: nat)
    | MonStop
    | MonExit
    | MonDead

  datatype Sys = Sys(
    state: PauseState,
    event: bool,
    lock: Option<Tid>,
    active: bool,
    monitor: Option<Tid>,
    pcs: map<Tid, Pc>)

  /** What the scheduler and the environment decide about the next step of a thread. */
  datatype Choice =
    | Go
    | Begin(op: Op)
    | BeginWait
    | Timeout
    | Probe(ok: bool)
    | Create(child: Tid)

  datatype Move = Move(tid: Tid, choice: Choice)

  const INIT := Sys(Running, true, None, false, None, map[])

  function PcOf(s: Sys, t: Tid): Pc {
    if t in s.pcs then s.pcs[t] else Idle
  }

  function Goto(s: Sys, t: Tid, pc: Pc): Sys {
    s.(pcs := s.pcs[t := pc])
  }

  /** Event.set wakes every waiter, even one that resumes only after a later clear. */
  function Wake(pc: Pc): Pc {
    if pc.Blocked? then Blocked(true) else pc
  }

  function SetEvent(s: Sys): Sys {
    s.(event := true, pcs := map u | u in s.pcs :: Wake(s.pcs[u]))
  }

  predicate Alive(s: Sys, m: Tid) {
    m in s.pcs && s.pcs[m] != MonNew && s.pcs[m] != MonDead
  }

  function AfterSection(op: Op, mon: bool, done: bool): Pc {
    if mon then MonExit else if op == Disconnect && done then StartTest else Idle
  }

  function DoSection(s: Sys, t: Tid): Sys {
    match PcOf(s, t)
    case Enter(op, mon) =>
      if s.lock.None? then Goto(s.(lock := Some(t)), t, Test(op, mon)) else s
    case Test(op, mon) =>
      Goto(s, t, if Refused(op, s.state) then Leave(op, mon, false) else Write(op, mon))
    case Write(op, mon) =>
      Goto(s.(state := Target(op)), t, Flag(op, mon))
    case Flag(op, mon) =>
      var s' := if Released(Target(op)) then SetEvent(s) else s.(event := false);
      Goto(s', t, Leave(op, mon, true))
    case Leave(op, mon, done) =>
      Goto(s.(lock := None), t, AfterSection(op, mon, done))
    case _ => s
  }

  function DoWait(s: Sys, t: Tid, c: Choice): Sys {
    match PcOf(s, t)
    case WaitHead =>
      if s.lock.Some? then s
      else Goto(s, t, if Released(s.state) then WaitLast else WaitEvent)
    case WaitEvent =>
      Goto(s, t, if s.event then WaitLast else Blocked(false))
    case Blocked(notified) =>
      if c == Timeout then Goto(s, t, TimedOut)
      else if notified then Goto(s, t, WaitLast) else s
    case TimedOut =>
      if s.lock.Some? then s
      else Goto(s, t, if s.state == Cancelled then Raised else WaitHead)
    case WaitLast =>
      if s.lock.Some? then s
      else Goto(s, t, if s.state == Cancelled then Raised else Returned)
    case _ => s
  }

  function DoStart(s: Sys, t: Tid, c: Choice): Sys {
    match PcOf(s, t)
    case StartTest =>
      Goto(s, t, if s.monitor.Some? && Alive(s, s.monitor.value) then Idle else StartActivate)
    case StartActivate =>
      Goto(s.(active := true), t, StartCreate)
    case StartCreate =>
      if c.Create? && c.child !in s.pcs then
        Goto(Goto(s.(monitor := Some(c.child)), c.child, MonNew), t, StartThread)
      else s
    case StartThread =>
      // Starting a thread twice raises; the caller leaves start_monitoring_recovery either way.
      if s.monitor.Some? && PcOf(s, s.monitor.value) == MonNew then
        Goto(Goto(s, s.monitor.value, MonHead(0)), t, Idle)
      else Goto(s, t, Idle)
    case _ => s
  }

  function DoMonitor(s: Sys, t: Tid, c: Choice): Sys {
    match PcOf(s, t)
    case MonHead(n) =>
      Goto(s, t, if s.active then MonRead(n) else MonExit)
    case MonRead(n) =>
      if s.lock.Some? then s
      else Goto(s, t, if s.state == PausedNetworkLost then MonSleep(n) else MonExit)
    case MonSleep(n) =>
      if !c.Probe? then s
      else Goto(s, t, if !c.ok then MonHead(0) else if n + 1 >= 2 then MonStop else MonHead(n + 1))
    case MonStop =>
      Goto(s.(active := false), t, Enter(Resume, true))
    case MonExit =>
      Goto(s.(active := false), t, MonDead)
    case _ => s
  }

  function Do(s: Sys, m: Move): Sys {
    var pc := PcOf(s, m.tid);
    if pc.Idle? || pc.Returned? || pc.Raised? then
      match m.choice
      case Begin(op) => Goto(s, m.tid, Enter(op, false))
      case BeginWait => Goto(s, m.tid, WaitHead)
      case _ => s
    else if InSection(pc) then DoSection(s, m.tid)
    else if InCall(pc) then DoWait(s, m.tid, m.choice)
    else if pc.StartTest? || pc.StartActivate? || pc.StartCreate? || pc.StartThread? then
      DoStart(s, m.tid, m.choice)
    else DoMonitor(s, m.tid, m.choice)
  }

  predicate InSection(pc: Pc) {
    pc.Enter? || Holding(pc)
  }

  predicate Holding(pc: Pc) {
    pc.Test? || pc.Write? || pc.Flag? || pc.Leave?
  }

  /** Inside a call of wait_if_paused. */
  predicate InCall(pc: Pc) {
    pc.WaitHead? || pc.WaitEvent? || pc.Blocked? || pc.TimedOut? || pc.WaitLast?
  }

  /** The state reached after the first `k` moves of an interleaving. */
  function At(run: seq<Move>, k: nat): Sys
    requires k <= |run|
  {
    if k == 0 then INIT else Do(At(run, k - 1), run[k - 1])
  }

  function PcAt(run: seq<Move>, k: nat, t: Tid): Pc
    requires k <= |run|
  {
    PcOf(At(run, k), t)
  }

  // ---------------------------------------------------------------- what every step keeps

  /** The event says what the state says. */
  predicate Agree(s: Sys) {
    s.event == Released(s.state)
  }

  /** Where the lock holder is, and how far state and event may be apart because of it. */
  ghost predicate HolderInv(s: Sys) {
    match s.lock
    case None => Agree(s)
    case Some(h) =>
      match PcOf(s, h)
      case Test(_, _) => Agree(s)
      case Write(op, _) => Agree(s) && !Refused(op, s.state)
      case Flag(op, _) => s.state == Target(op)
      case Leave(_, _, _) => Agree(s)
      case _ => false
  }

  /** What the invariant asks of one thread. */
  ghost predicate PcOk(s: Sys, t: Tid, pc: Pc) {
    && (Holding(pc) ==> s.lock == Some(t))
    && (s.event ==> pc != Blocked(false))
    && (InSection(pc) && pc.mon ==> pc.op == Resume)
  }

  ghost predicate Inv(s: Sys) {
    && HolderInv(s)
    && forall t | t in s.pcs :: PcOk(s, t, s.pcs[t])
  }

  /** A thread outside the lock moves on without touching state, event or lock. */
  lemma QuietStep(s: Sys, s': Sys, t: Tid, pc: Pc)
    requires Inv(s) && !Holding(PcOf(s, t)) && !Holding(pc) && PcOk(s, t, pc)
    requires s'.state == s.state && s'.event == s.event && s'.lock == s.lock
    requires s'.pcs == s.pcs[t := pc]
    ensures Inv(s')
  {
  }

  /** The lock holder (or a thread taking the free lock) moves on; nobody else does. */
  lemma HolderStep(s: Sys, s': Sys, t: Tid)
    requires Inv(s) && (s.lock == Some(t) || s.lock.None?)
    requires t in s'.pcs && PcOk(s', t, s'.pcs[t]) && HolderInv(s')
    requires forall u | u in s'.pcs && u != t ::
               && u in s.pcs
               && s'.pcs[u] == if s'.event && !s.event then Wake(s.pcs[u]) else s.pcs[u]
    ensures Inv(s')
  {
  }

  lemma SectionKeepsInv(s: Sys, t: Tid)
    requires Inv(s) && InSection(PcOf(s, t))
    ensures Inv(DoSection(s, t))
  {
    assert PcOk(s, t, s.pcs[t]);
    var s' := DoSection(s, t);
    if s' != s {
      SectionMoves(s, t);
      HolderStep(s, s', t);
    }
  }

  lemma SectionMoves(s: Sys, t: Tid)
    requires Inv(s) && InSection(PcOf(s, t)) && DoSection(s, t) != s
    ensures var s' := DoSection(s, t);
      && t in s'.pcs && PcOk(s', t, s'.pcs[t]) && HolderInv(s')
      && (s.lock == Some(t) || s.lock.None?)
      && forall u | u in s'.pcs && u != t ::
           && u in s.pcs
           && s'.pcs[u] == if s'.event && !s.event then Wake(s.pcs[u]) else s.pcs[u]
  {
    assert PcOk(s, t, s.pcs[t]);
    if s.pcs[t].Flag? && s.event {
      // With the event already set nobody waits unnotified, so waking changes nothing.
      forall u | u in s.pcs ensures Wake(s.pcs[u]) == s.pcs[u] {
        assert PcOk(s, u, s.pcs[u]);
      }
    }
  }

  lemma WaitKeepsInv(s: Sys, t: Tid, c: Choice)
    requires Inv(s) && InCall(PcOf(s, t))
    ensures Inv(DoWait(s, t, c))
  {
  }

  lemma StartKeepsInv(s: Sys, t: Tid, c: Choice)
    requires Inv(s) && !InSection(PcOf(s, t))
    ensures Inv(DoStart(s, t, c))
  {
    var s', pc := DoStart(s, t, c), PcOf(s, t);
    if pc.StartCreate? && s' != s {
      var s1 := Goto(s.(monitor := Some(c.child)), c.child, MonNew);
      QuietStep(s, s1, c.child, MonNew);
      QuietStep(s1, s', t, StartThread);
    } else if pc.StartThread? && s.monitor.Some? && PcOf(s, s.monitor.value) == MonNew {
      var s1 := Goto(s, s.monitor.value, MonHead(0));
      QuietStep(s, s1, s.monitor.value, MonHead(0));
      QuietStep(s1, s', t, Idle);
    } else if s' != s {
      QuietStep(s, s', t, s'.pcs[t]);
    }
  }

  lemma MonitorKeepsInv(s: Sys, t: Tid, c: Choice)
    requires Inv(s) && !InSection(PcOf(s, t))
    ensures Inv(DoMonitor(s, t, c))
  {
    var s' := DoMonitor(s, t, c);
    if s' != s { QuietStep(s, s', t, s'.pcs[t]); }
  }

  lemma StepKeepsInv(s: Sys, m: Move)
    requires Inv(s)
    ensures Inv(Do(s, m))
  {
    var pc := PcOf(s, m.tid);
    if InSection(pc) {
      SectionKeepsInv(s, m.tid);
    } else if InCall(pc) {
      WaitKeepsInv(s, m.tid, m.choice);
    } else if pc.Idle? || pc.Returned? || pc.Raised? {
      var s' := Do(s, m);
      if s' != s { QuietStep(s, s', m.tid, s'.pcs[m.tid]); }
    } else {
      StartKeepsInv(s, m.tid, m.choice);
      MonitorKeepsInv(s, m.tid, m.choice);
    }
  }

  lemma {:induction false} AlwaysInv(run: seq<Move>, k: nat)
    requires k <= |run|
    ensures Inv(At(run, k))
  {
    if k > 0 {
      AlwaysInv(run, k - 1);
      StepKeepsInv(At(run, k - 1), run[k - 1]);
    }
  }

  /**
   At every lock-free instant of every interleaving the event is set exactly when the state is
   RUNNING or CANCELLED, and then no waiter is left that has not been notified.
   */
  lemma NoLostWakeup(run: seq<Move>, k: nat)
    requires k <= |run|
    requires At(run, k).lock.None?
    ensures At(run, k).event <==> Released(At(run, k).state)
    ensures Released(At(run, k).state) ==> forall t: Tid :: PcAt(run, k, t) != Blocked(false)
  {
    AlwaysInv(run, k);
  }

  /** At most one thread is between acquiring and releasing the lock. */
  lemma MutualExclusion(run: seq<Move>, k: nat, t: Tid, u: Tid)
    requires k <= |run|
    requires Holding(PcAt(run, k, t)) && Holding(PcAt(run, k, u))
    ensures t == u
  {
    AlwaysInv(run, k);
  }

  /** Only a locked section's write changes the state, and only as that section intends. */
  lemma OneStepOfState(run: seq<Move>, k: nat)
    requires k < |run|
    ensures At(run, k + 1).state == if IsWrite(run, k) then Target(WriteOp(run, k)) else At(run, k).state
    ensures IsWrite(run, k) ==> !Refused(WriteOp(run, k), At(run, k).state)
  {
    AlwaysInv(run, k);
  }

  ghost predicate IsWrite(run: seq<Move>, k: nat)
    requires k < |run|
  {
    PcAt(run, k, run[k].tid).Write?
  }

  ghost function WriteOp(run: seq<Move>, k: nat): Op
    requires k < |run| && IsWrite(run, k)
  {
    PcAt(run, k, run[k].tid).op
  }

  /** The states from which a call takes effect, as the callers of the four methods know them. */
  predicate TakesEffect(op: Op, st: PauseState) {
    match op
    case Pause => st == Running || st == PausedManual || st == PausedNetworkLost
    case Resume => st == Running || st == PausedManual || st == PausedNetworkLost
    case Disconnect => st == Running || st == PausedNetworkLost
    case Cancel => true
  }

  /**
   What each statement of a locked section does, from any state of the system: the test goes on exactly from
   the states from which the call takes effect; the write stores that call's own state; and the event
   is cleared by a pause or a disconnect and set by a resume or a cancel.
   */
  lemma SectionMeans(s: Sys, m: Move, op: Op, mon: bool)
    ensures var t, s' := m.tid, Do(s, m);
      && (PcOf(s, t) == Test(op, mon) ==>
            && s'.state == s.state && s'.event == s.event
            && PcOf(s', t) == if TakesEffect(op, s.state) then Write(op, mon) else Leave(op, mon, false))
      && (PcOf(s, t) == Write(op, mon) ==>
            && PcOf(s', t) == Flag(op, mon) && s'.event == s.event
            && (op == Pause ==> s'.state == PausedManual) && (op == Disconnect ==> s'.state == PausedNetworkLost)
            && (op == Resume ==> s'.state == Running) && (op == Cancel ==> s'.state == Cancelled))
      && (PcOf(s, t) == Flag(op, mon) ==>
            && PcOf(s', t) == Leave(op, mon, true) && s'.state == s.state
            && s'.event == (op == Resume || op == Cancel))
  {
  }

  /** CANCELLED is absorbing. */
  lemma {:induction false} CancelledForever(run: seq<Move>, i: nat, k: nat)
    requires i <= k <= |run|
    requires At(run, i).state == Cancelled
    ensures At(run, k).state == Cancelled
  {
    if i < k {
      CancelledForever(run, i, k - 1);
      OneStepOfState(run, k - 1);
    }
  }

  /** A network loss never replaces a manual pause: between the two the state is something else. */
  lemma {:induction false} NetworkLossNeverReplacesManualPause(run: seq<Move>, i: nat, k: nat)
    requires i < k <= |run|
    requires At(run, i).state == PausedManual && At(run, k).state == PausedNetworkLost
    ensures exists m :: i < m < k && At(run, m).state == Running
  {
    OneStepOfState(run, k - 1);
    if At(run, k - 1).state != Running {
      if k - 1 == i {
        assert false;
      } else {
        CancelledNotBefore(run, k - 1, k);
        NetworkLossNeverReplacesManualPause(run, i, k - 1);
      }
    }
  }

  lemma CancelledNotBefore(run: seq<Move>, i: nat, k: nat)
    requires i <= k <= |run|
    requires At(run, k).state != Cancelled
    ensures At(run, i).state != Cancelled
  {
    if At(run, i).state == Cancelled { CancelledForever(run, i, k); }
  }

  // ---------------------------------------------------------------- wait_if_paused

  /** Somewhere in the interval the state let workers through (or out). */
  ghost predicate Seen(run: seq<Move>, i: nat, k: nat)
    requires k <= |run|
  {
    exists m | i <= m <= k :: Released(At(run, m).state)
  }

  ghost predicate CallSpan(run: seq<Move>, t: Tid, i: nat, k: nat) {
    && i <= k <= |run|
    && PcAt(run, i, t) == WaitHead
    && forall m | i <= m <= k :: InCall(PcAt(run, m, t))
  }

  /** A thread that does not move stays where it is, unless it is woken or is a watchdog being started. */
  lemma OtherPc(s: Sys, m: Move, t: Tid)
    requires m.tid != t
    ensures var pc, pc' := PcOf(s, t), PcOf(Do(s, m), t);
      || pc' == pc
      || (pc' == Wake(pc) && !s.event && Do(s, m).event && Released(Target(PcOf(s, m.tid).op)) && PcOf(s, m.tid).Flag?)
      || (pc' == Wake(pc) && s.event)
      || (pc'.MonNew? && t !in s.pcs)
      || (pc.MonNew? && pc' == MonHead(0) && PcOf(s, m.tid).StartThread? && s.monitor == Some(t))
  {
    var pc := PcOf(s, m.tid);
    if InSection(pc) {
      OtherPcSection(s, m.tid, t);
    } else if pc.StartTest? || pc.StartActivate? || pc.StartCreate? || pc.StartThread? {
      OtherPcStart(s, m.tid, m.choice, t);
    }
  }

  lemma OtherPcSection(s: Sys, u: Tid, t: Tid)
    requires u != t && InSection(PcOf(s, u))
    ensures var pc, pc', s' := PcOf(s, t), PcOf(DoSection(s, u), t), DoSection(s, u);
      || pc' == pc
      || (pc' == Wake(pc) && PcOf(s, u).Flag? && Released(Target(PcOf(s, u).op)) && s'.event)
  {
  }

  lemma OtherPcStart(s: Sys, u: Tid, c: Choice, t: Tid)
    requires u != t
    ensures var pc, pc' := PcOf(s, t), PcOf(DoStart(s, u, c), t);
      || pc' == pc
      || (pc'.MonNew? && t !in s.pcs)
      || (pc.MonNew? && pc' == MonHead(0) && PcOf(s, u).StartThread? && s.monitor == Some(t))
  {
  }

  /** How one step of any thread can change the position of a thread inside a call. */
  lemma CallStep(s: Sys, m: Move, t: Tid)
    requires Inv(s) && InCall(PcOf(s, t))
    ensures var pc, pc' := PcOf(s, t), PcOf(Do(s, m), t);
      && (pc' == Blocked(true) ==> pc == Blocked(true) || Released(Do(s, m).state))
      && (pc'.WaitEvent? ==> pc.WaitEvent? || !Do(s, m).event)
      && (pc'.WaitLast? ==> pc.WaitLast? || pc == Blocked(true) || Released(s.state)
                            || (pc.WaitEvent? && s.event))
      && (pc'.Returned? ==> m.tid == t && pc.WaitLast? && s.state != Cancelled)
  {
    if m.tid == t {
      OwnCallStep(s, t, m.choice);
    } else {
      OtherPc(s, m, t);
      assert PcOk(s, t, s.pcs[t]);
      if PcOf(s, m.tid).Flag? {
        assert PcOk(s, m.tid, s.pcs[m.tid]);
      }
    }
  }

  lemma OwnCallStep(s: Sys, t: Tid, c: Choice)
    requires Inv(s) && InCall(PcOf(s, t))
    ensures var pc, pc', s' := PcOf(s, t), PcOf(DoWait(s, t, c), t), DoWait(s, t, c);
      && s'.event == s.event && s'.state == s.state
      && (pc' == Blocked(true) ==> pc == Blocked(true))
      && (pc'.WaitEvent? ==> pc.WaitEvent? || !s.event)
      && (pc'.WaitLast? ==> pc.WaitLast? || pc == Blocked(true) || Released(s.state)
                            || (pc.WaitEvent? && s.event))
      && (pc'.Returned? ==> pc.WaitLast? && s.state != Cancelled)
  {
  }

  lemma EventRises(s: Sys, m: Move)
    requires Inv(s) && !s.event && Do(s, m).event
    ensures Released(s.state)
  {
  }

  lemma {:induction false} WaitProgressSeen(run: seq<Move>, t: Tid, i: nat, k: nat)
    requires CallSpan(run, t, i, k)
    ensures PcAt(run, k, t).WaitEvent? && At(run, k).event ==> Seen(run, i, k)
    ensures PcAt(run, k, t) == Blocked(true) || PcAt(run, k, t).WaitLast? ==> Seen(run, i, k)
  {
    if i < k {
      WaitProgressSeen(run, t, i, k - 1);
      AlwaysInv(run, k - 1);
      var s, m := At(run, k - 1), run[k - 1];
      assert InCall(PcAt(run, k - 1, t));
      CallStep(s, m, t);
      if !s.event && Do(s, m).event { EventRises(s, m); }
      SeenGrows(run, i, k);
    }
  }

  lemma SeenGrows(run: seq<Move>, i: nat, k: nat)
    requires i < k <= |run|
    ensures Seen(run, i, k - 1) || Released(At(run, k).state) ==> Seen(run, i, k)
    ensures Released(At(run, k - 1).state) ==> Seen(run, i, k)
  {
  }

  /**
   A normal return of wait_if_paused, in any interleaving: the state was RUNNING at some instant
   inside the call, and CANCELLED at none.
   */
  lemma WaitReturnsOnlyAfterRunning(run: seq<Move>, t: Tid, i: nat, j: nat)
    requires j < |run|
    requires CallSpan(run, t, i, j)
    requires PcAt(run, j + 1, t).Returned?
    ensures exists m | i <= m <= j :: At(run, m).state == Running
    ensures forall m | i <= m <= j :: At(run, m).state != Cancelled
  {
    WaitProgressSeen(run, t, i, j);
    AlwaysInv(run, j);
    assert InCall(PcAt(run, j, t));
    CallStep(At(run, j), run[j], t);
    forall m | i <= m <= j ensures At(run, m).state != Cancelled {
      CancelledNotBefore(run, m, j);
    }
    assert Seen(run, i, j);
    var m :| i <= m <= j && Released(At(run, m).state);
    assert At(run, m).state == Running;
  }

  lemma RunningStep(s: Sys, m: Move, t: Tid)
    requires Inv(s) && s.state == Running && InCall(PcOf(s, t))
    ensures var pc, pc' := PcOf(s, t), PcOf(Do(s, m), t);
      || (m.tid == t && pc'.Returned?)
      || (InCall(pc') && Hops(pc') + (if m.tid == t && s.lock.None? then 1 else 0) <= Hops(pc))
  {
    if m.tid != t { OtherPc(s, m, t); } else { assert PcOk(s, t, s.pcs[t]); }
  }

  /** How many lock-free moves a call may still need while the state is RUNNING. */
  function Hops(pc: Pc): nat {
    match pc
    case WaitEvent => 5
    case Blocked(_) => 4
    case TimedOut => 3
    case WaitHead => 2
    case WaitLast => 1
    case _ => 0
  }

  /** The call that thread `t` is in at instant `i` returns at instant `m`. */
  ghost predicate ReturnedAt(run: seq<Move>, t: Tid, i: nat, m: nat)
    requires m <= |run|
  {
    PcAt(run, m, t).Returned? && forall j | i <= j < m :: InCall(PcAt(run, j, t))
  }

  ghost predicate CallReturns(run: seq<Move>, t: Tid, i: nat, k: nat)
    requires k <= |run|
  {
    exists m: nat | i < m <= k :: ReturnedAt(run, t, i, m)
  }

  ghost predicate Returning(run: seq<Move>, t: Tid, i: nat, k: nat)
    requires i <= k <= |run|
  {
    && (forall j | i <= j <= k :: InCall(PcAt(run, j, t)))
    && InCall(PcAt(run, k, t)) && FreeMoves(run, t, i, k) + Hops(PcAt(run, k, t)) <= 5
  }

  lemma ReturnsNext(run: seq<Move>, t: Tid, i: nat, k: nat)
    requires i < k <= |run| && At(run, k - 1).state == Running && Returning(run, t, i, k - 1)
    ensures CallReturns(run, t, i, k) || Returning(run, t, i, k)
  {
    AlwaysInv(run, k - 1);
    RunningStep(At(run, k - 1), run[k - 1], t);
    if PcAt(run, k, t).Returned? { assert ReturnedAt(run, t, i, k); }
  }

  lemma {:induction false} RunningProgress(run: seq<Move>, t: Tid, i: nat, k: nat)
    requires i <= k <= |run| && InCall(PcAt(run, i, t))
    requires forall j | i <= j <= k :: At(run, j).state == Running
    ensures CallReturns(run, t, i, k) || Returning(run, t, i, k)
  {
    if i < k {
      RunningProgress(run, t, i, k - 1);
      if m: nat :| i < m <= k - 1 && ReturnedAt(run, t, i, m) {
        assert ReturnedAt(run, t, i, m);
      } else {
        ReturnsNext(run, t, i, k);
      }
    }
  }

  /**
   While the state is RUNNING nobody is held up: a thread inside wait_if_paused returns with its fifth
   move that finds the lock free at the latest, whatever the other threads do in between.
   */
  lemma RunningCallReturns(run: seq<Move>, t: Tid, i: nat, k: nat)
    requires i <= k <= |run| && InCall(PcAt(run, i, t)) && FreeMoves(run, t, i, k) >= 5
    requires forall j | i <= j <= k :: At(run, j).state == Running
    ensures CallReturns(run, t, i, k)
  {
    RunningProgress(run, t, i, k);
  }

  /** How many lock-free moves a call may still need once the state is CANCELLED. */
  function Rank(pc: Pc): nat {
    if pc.TimedOut? || pc.WaitLast? then 1 else if InCall(pc) then 2 else 0
  }

  /** The moves of thread `t` among moves [i, k) that find the lock free. */
  function FreeMoves(run: seq<Move>, t: Tid, i: nat, k: nat): nat
    requires i <= k <= |run|
  {
    if i == k then 0
    else FreeMoves(run, t, i, k - 1) + if run[k - 1].tid == t && At(run, k - 1).lock.None? then 1 else 0
  }

  lemma CancelledStep(s: Sys, m: Move, t: Tid)
    requires Inv(s) && s.state == Cancelled && InCall(PcOf(s, t))
    ensures var pc, pc' := PcOf(s, t), PcOf(Do(s, m), t);
      || (m.tid == t && pc'.Raised?)
      || (InCall(pc') && Rank(pc') + (if m.tid == t && s.lock.None? then 1 else 0) <= Rank(pc))
  {
    if m.tid != t { OtherPc(s, m, t); } else { assert PcOk(s, t, s.pcs[t]); }
  }

  lemma CancelledNext(run: seq<Move>, t: Tid, k: nat)
    requires 0 < k <= |run| && At(run, k - 1).state == Cancelled && InCall(PcAt(run, k - 1, t))
    ensures var free := if run[k - 1].tid == t && At(run, k - 1).lock.None? then 1 else 0;
      PcAt(run, k, t).Raised? || (InCall(PcAt(run, k, t)) && Rank(PcAt(run, k, t)) + free <= Rank(PcAt(run, k - 1, t)))
  {
    AlwaysInv(run, k - 1);
    CancelledStep(At(run, k - 1), run[k - 1], t);
  }

  /** The call that thread `t` is in at instant `i` raises at instant `m`. */
  ghost predicate RaisedAt(run: seq<Move>, t: Tid, i: nat, m: nat)
    requires m <= |run|
  {
    PcAt(run, m, t).Raised? && forall j | i <= j < m :: InCall(PcAt(run, j, t))
  }

  ghost predicate CallRaises(run: seq<Move>, t: Tid, i: nat, k: nat)
    requires k <= |run|
  {
    exists m: nat | i < m <= k :: RaisedAt(run, t, i, m)
  }

  /** Still inside the call, with few moves left. */
  ghost predicate RunningOut(run: seq<Move>, t: Tid, i: nat, k: nat)
    requires i <= k <= |run|
  {
    && (forall j | i <= j <= k :: InCall(PcAt(run, j, t)))
    && InCall(PcAt(run, k, t)) && FreeMoves(run, t, i, k) + Rank(PcAt(run, k, t)) <= 2
  }

  lemma RunsOut(run: seq<Move>, t: Tid, i: nat, k: nat)
    requires i < k <= |run| && At(run, k - 1).state == Cancelled && RunningOut(run, t, i, k - 1)
    ensures CallRaises(run, t, i, k) || RunningOut(run, t, i, k)
  {
    CancelledNext(run, t, k);
    if PcAt(run, k, t).Raised? { assert RaisedAt(run, t, i, k); }
  }

  lemma {:induction false} CancelledProgress(run: seq<Move>, t: Tid, i: nat, k: nat)
    requires i <= k <= |run|
    requires At(run, i).state == Cancelled && InCall(PcAt(run, i, t))
    ensures CallRaises(run, t, i, k) || RunningOut(run, t, i, k)
  {
    if i < k {
      CancelledProgress(run, t, i, k - 1);
      if m: nat :| i < m <= k - 1 && RaisedAt(run, t, i, m) {
        assert RaisedAt(run, t, i, m);
      } else {
        CancelledForever(run, i, k - 1);
        RunsOut(run, t, i, k);
      }
    }
  }

  /**
   A thread inside wait_if_paused at an instant when the state is CANCELLED raises with its second
   move that finds the lock free at the latest, timed out or not, whatever the other threads do in
   between; up to then it is inside the call, so it does not return normally first.
   */
  lemma CancelledCallRaises(run: seq<Move>, t: Tid, i: nat, k: nat)
    requires i <= k <= |run|
    requires At(run, i).state == Cancelled && InCall(PcAt(run, i, t))
    requires FreeMoves(run, t, i, k) >= 2
    ensures CallRaises(run, t, i, k)
  {
    CancelledProgress(run, t, i, k);
  }
}
