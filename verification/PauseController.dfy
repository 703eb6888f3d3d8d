/**
 The controller object as its callers see it: each of the four methods overwrites the fields in
 one locked section.  `Section` is that section's effect; `SectionIsAtomic` shows that the small
 steps of the transition system add up to it when no other thread moves in between.
 */
module PauseControl {
  import opened Prelude
  import opened PauseProtocol

  datatype Control = Control(state: PauseState, event: bool, reason: string)

  function Section(op: Op, c: Control, reason: string): Control {
    if Refused(op, c.state) then c
    else Control(Target(op), Released(Target(op)), reason)
  }

  class PauseController {
    var state: PauseState
    var pauseReason: string
    var resumeEvent: bool

    ghost predicate Valid() reads this {
      resumeEvent == Released(state)
    }

    ghost function Fields(): Control reads this {
      Control(state, resumeEvent, pauseReason)
    }

    constructor ()
      ensures Valid() && Fields() == Control(Running, true, "")
    {
      state := Running;
      pauseReason := "";
      resumeEvent := true;
    }

    method Pause(reason: string)
      requires Valid()
      modifies this
      ensures Valid() && Fields() == Section(Op.Pause, old(Fields()), reason)
      ensures old(state) != Cancelled ==> state == PausedManual && !resumeEvent && pauseReason == reason
      ensures old(state) == Cancelled ==> Fields() == old(Fields())
    {
      if state == Cancelled { return; }
      state := PausedManual;
      pauseReason := reason;
      resumeEvent := false;
    }

    /** `startMonitor` tells the caller to go on to start_monitoring_recovery. */
    method HandleNetworkDisconnect(error: string) returns (startMonitor: bool)
      requires Valid()
      modifies this
      ensures Valid()
      ensures Fields() == Section(Op.Disconnect, old(Fields()), "Network disconnected: " + error)
      ensures startMonitor <==> old(state) == Running || old(state) == PausedNetworkLost
      ensures startMonitor ==> state == PausedNetworkLost && !resumeEvent && pauseReason == "Network disconnected: " + error
      ensures !startMonitor ==> Fields() == old(Fields())
    {
      if state == Cancelled { return false; }
      if state == PausedManual { return false; }
      state := PausedNetworkLost;
      pauseReason := "Network disconnected: " + error;
      resumeEvent := false;
      return true;
    }

    method Resume()
      requires Valid()
      modifies this
      ensures Valid() && Fields() == Section(Op.Resume, old(Fields()), "")
      ensures old(state) != Cancelled ==> state == Running && resumeEvent && pauseReason == ""
      ensures old(state) == Cancelled ==> Fields() == old(Fields())
    {
      if state == Cancelled { return; }
      state := Running;
      pauseReason := "";
      resumeEvent := true;
    }

    method Cancel(reason: string)
      requires Valid()
      modifies this
      ensures Valid() && Fields() == Section(Op.Cancel, old(Fields()), reason)
      ensures state == Cancelled && resumeEvent && pauseReason == reason
    {
      state := Cancelled;
      pauseReason := reason;
      resumeEvent := true;
    }
  }

  /** `k` steps of thread `t` running alone from `s`. */
  function Alone(s: Sys, t: Tid, k: nat): Sys
    decreases k
  {
    if k == 0 then s else Alone(Do(s, Move(t, Go)), t, k - 1)
  }

  lemma RefusedSection(s: Sys, t: Tid, op: Op)
    requires s.lock == Some(t) && PcOf(s, t) == Test(op, false) && Refused(op, s.state)
    ensures Alone(s, t, 2) == Goto(s.(lock := None), t, Idle)
  {
  }

  lemma WrittenSection(s: Sys, t: Tid, op: Op)
    requires s.lock == Some(t) && PcOf(s, t) == Write(op, false)
    ensures var s' := Alone(s, t, 3);
      && s'.state == Target(op) && s'.event == Released(Target(op)) && s'.lock.None?
      && PcOf(s', t) == AfterSection(op, false, true)
  {
    var s1 := Goto(s.(state := Target(op)), t, Flag(op, false));
    assert Do(s, Move(t, Go)) == s1;
    var s2 := Do(s1, Move(t, Go));
    assert s2.state == Target(op) && s2.event == Released(Target(op)) && PcOf(s2, t) == Leave(op, false, true);
    var s3 := Do(s2, Move(t, Go));
    assert s3 == Goto(s2.(lock := None), t, AfterSection(op, false, true));
    assert Alone(s, t, 3) == Alone(s1, t, 2) == Alone(s2, t, 1) == Alone(s3, t, 0);
  }

  /**
   A thread at the door of a free lock that is left alone for at most five steps gives the lock
   back, having done to state and event exactly what the section says.
   */
  lemma SectionIsAtomic(s: Sys, t: Tid, op: Op, reason: string) returns (k: nat)
    requires s.lock.None? && Agree(s) && PcOf(s, t) == Enter(op, false)
    ensures k <= 5
    ensures var s' := Alone(s, t, k);
      && s'.lock.None? && !InSection(PcOf(s', t))
      && var c := Section(op, Control(s.state, s.event, reason), reason);
         s'.state == c.state && s'.event == c.event
    ensures var s' := Alone(s, t, k);
      if !TakesEffect(op, s.state) then s'.state == s.state && s'.event == s.event
      else match op
           case Pause => s'.state == PausedManual && !s'.event
           case Disconnect => s'.state == PausedNetworkLost && !s'.event
           case Resume => s'.state == Running && s'.event
           case Cancel => s'.state == Cancelled && s'.event
  {
    var s1 := Goto(s.(lock := Some(t)), t, Test(op, false));
    assert Do(s, Move(t, Go)) == s1;
    if Refused(op, s.state) {
      RefusedSection(s1, t, op);
      k := 3;
      assert Alone(s, t, 3) == Alone(s1, t, 2);
    } else {
      var s2 := Goto(s1, t, Write(op, false));
      assert Do(s1, Move(t, Go)) == s2;
      WrittenSection(s2, t, op);
      k := 5;
      assert Alone(s, t, 5) == Alone(s1, t, 4) == Alone(s2, t, 3);
    }
  }
}
