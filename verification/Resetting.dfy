/** RESET against a device in any reachable state, an operation running, an interrupt raised or a fault
    injected, with the timer free to fire between any two register accesses of `vnpu_hw_reset`.
 */
module Resetting {
  import opened Words
  import opened Device
  import opened DeviceInvariant
  import opened DeviceFacts
  import opened Machine
  import opened Protocol

  /** Nothing is left of whatever the device was doing. */
  predicate Clean(d: Dev) {
    && d.timer.Stopped? && d.status.Idle? && d.irqStatus == NO_FLAGS && d.irqEnable == NO_FLAGS && !d.line
    && d.errCode == ERR_NONE && d.faultControl == 0
  }

  predicate Progress(s: Sys, resets: nat, to: ResetPoint) {
    && s.counters.resets == resets + (if to.ToUnlock? then 1 else 0)
    && match to
       case ToLock => true
       case ToDisable => true
       case ToReset => s.dev.irqEnable == NO_FLAGS
       case ToClear => Clean(s.dev)
       case ToStatus => Clean(s.dev)
       case ToIrqStatus(status) => Clean(s.dev) && status == 0
       case ToError(status, irq) => Clean(s.dev) && status == 0 && irq == 0
       case ToVerify(status, irq, error) => Clean(s.dev) && status == 0 && irq == 0 && error == 0
       case ToReinit => Clean(s.dev)
       case ToCount => Clean(s.dev) && s.done == 0
       case ToUnlock(code) => Clean(s.dev) && s.done == 0 && code == 0
  }

  predicate Heading(s: Sys, resets: nat, c: Client) {
    match c
    case Resetting(to) => Progress(s, resets, to)
    case Returned(reply) => reply == Success && Clean(s.dev) && s.done == 0 && s.counters.resets == resets + 1
    case _ => false
  }

  lemma ResetStepHeads(s: Sys, resets: nat, to: ResetPoint)
    requires Reachable(s.dev) && CanReset(s, to) && Progress(s, resets, to)
    ensures var (s', c') := ResetStep(s, 0, to); Reachable(s'.dev) && Heading(s', resets, c')
  {
    hide Write, ReadValue, Reachable;
    StatusRead(s.dev);
    match to {
      case ToDisable =>
        Listen(s.dev, s.now);
        WriteReachable(s.dev, 0x018, 0, s.now);
      case ToReset =>
        ResetWrite(s.dev, s.now);
        WriteReachable(s.dev, 0x00C, 2, s.now);
      case ToClear =>
        Acknowledge(s.dev, s.now);
        WriteReachable(s.dev, 0x014, 3, s.now);
      case _ =>
    }
  }

  /** The timer and the handler cannot raise the line again once interrupts are off, and find nothing to
      do once RESET is written. */
  lemma DeviceHeads(s: Sys, resets: nat, c: Client)
    requires Reachable(s.dev) && Heading(s, resets, c)
    ensures Reachable(Handler(s).dev) && Heading(Handler(s), resets, c)
    ensures s.dev.timer.Running? ==> Reachable(Fire(s.dev)) && Heading(s.(dev := Fire(s.dev)), resets, c)
  {
    HandlerReachable(s);
    FireReachable(s.dev);
    FireKeepsEnable(s.dev);
    if s.dev.irqStatus == NO_FLAGS {
      ReachableParts(s.dev);
      IdleHandler(s);
    } else {
      RaisedHandler(s);
    }
    hide Handler, Fire, Reachable;
  }

  lemma FireKeepsEnable(d: Dev)
    ensures Fire(d).irqEnable == d.irqEnable
  {
    hide ResultOf, Bit, Overlap;
  }

  lemma StepHeads(s: State, resets: nat, a: Action)
    requires |s.clients| == 1 && Reachable(s.sys.dev) && Heading(s.sys, resets, s.clients[0])
    requires Enabled(s, a) && a != Return(0)
    ensures var s' := Apply(s, a);
            |s'.clients| == 1 && Reachable(s'.sys.dev) && Heading(s'.sys, resets, s'.clients[0])
  {
    hide Reachable, Handler, Fire, ResetStep;
    match a {
      case Go(i) => ResetStepHeads(s.sys, resets, s.clients[0].to);
      case Expire => DeviceHeads(s.sys, resets, s.clients[0]);
      case Handle => DeviceHeads(s.sys, resets, s.clients[0]);
      case _ =>
    }
  }

  lemma {:induction false} RunHeads(s: State, resets: nat, acts: seq<Action>)
    requires |s.clients| == 1 && Reachable(s.sys.dev) && Heading(s.sys, resets, s.clients[0])
    requires Legal(s, acts) && Return(0) !in acts
    ensures var s' := Execute(s, acts);
            |s'.clients| == 1 && Reachable(s'.sys.dev) && Heading(s'.sys, resets, s'.clients[0])
    decreases acts
  {
    hide Reachable, Heading, Enabled, Apply;
    if acts != [] {
      StepHeads(s, resets, acts[0]);
      RunHeads(Apply(s, acts[0]), resets, acts[1..]);
    }
  }

  /** From every reachable device state a RESET that returns has succeeded, and has left the device idle,
      fault free and silent, with no completion pending. */
  lemma ResetFromAnywhere(s: State, acts: seq<Action>)
    requires s.clients == [Resetting(ToLock)] && Reachable(s.sys.dev) && Legal(s, acts) && Return(0) !in acts
    ensures var s' := Execute(s, acts);
            |s'.clients| == 1 && (s'.clients[0].Returned? ==>
              && s'.clients[0].reply == Success && Clean(s'.sys.dev) && s'.sys.done == 0
              && s'.sys.counters.resets == s.sys.counters.resets + 1)
  {
    RunHeads(s, s.sys.counters.resets, acts);
  }
}
