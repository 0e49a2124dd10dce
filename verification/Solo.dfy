/** One caller at a time, as the C++ HAL is: what a complete ioctl leaves behind in the device and in
    the driver's counters.
 */
module Solo {
  import opened Words
  import opened Device
  import opened DeviceInvariant
  import opened DeviceFacts
  import opened Machine
  import opened Protocol
  import opened Accounting
  import opened Outcome

  // ---------------------------------------------------------------- RUN_DOT

  /** The counters of a submitted call whose ending is not booked yet. */
  function Booked(k0: Counters, s: Sys): Counters {
    k0.(submitted := k0.submitted + 1, deviceErrors := k0.deviceErrors + Flagged(s))
  }

  /** The device after a failed call: a forced error, or as it was when it refused the START. */
  predicate ErrorState(d0: Dev, d: Dev) {
    if d0.status.Idle? then d.status.Error? && d.errCode == ERR_FORCED
    else d.status == d0.status && d.errCode == if d0.status.Error? then d0.errCode else ERR_BUSY
  }

  predicate Settling(d0: Dev, s: Sys) {
    if s.errorFlag then ErrorState(d0, s.dev) else s.dev.status.Done?
  }

  /** The fault register is as found, and the status is on its way to the one the ending calls for. */
  predicate Underway(d0: Dev, s: Sys) {
    && s.dev.faultControl == d0.faultControl
    && (if s.dev.timer.Running? then d0.status.Idle?
        else if s.dev.irqStatus != NO_FLAGS then
          (if s.dev.irqStatus.error then ErrorState(d0, s.dev) else s.dev.status.Done?)
        else s.done > 0 ==> Settling(d0, s))
  }

  predicate Restored(d: Dev) {
    d.status.Idle? && d.faultControl == 0
  }

  predicate Unbooked(s0: Sys, s: Sys) {
    s.counters == Booked(s0.counters, s) && Settling(s0.dev, s) && s.dev.faultControl == s0.dev.faultControl
  }

  predicate Effects(s0: Sys, s: Sys, at: RunPoint) {
    var k0 := s0.counters;
    match at
    case AtCount => s.counters == k0.(deviceErrors := k0.deviceErrors + Flagged(s)) && Underway(s0.dev, s)
    case AtWait(_) => s.counters == Booked(k0, s) && Underway(s0.dev, s)
    case AtTimeoutReset => s.counters == Booked(k0, s)
    case AtTimeoutCount => s.counters == Booked(k0, s) && Restored(s.dev)
    case AtTimeoutUnlock => s.counters == Booked(k0, s).(timedOut := k0.timedOut + 1) && Restored(s.dev)
    case AtCheck => Unbooked(s0, s)
    case AtErrorUnlock => Unbooked(s0, s)
    case AtErrorReturn => Unbooked(s0, s)
    case AtResult => Unbooked(s0, s)
    case AtCountDone(_) =>
      s.counters == Booked(k0, s) && s.dev.status.Idle? && s.dev.faultControl == s0.dev.faultControl
    case AtUnlock(_) =>
      s.counters == Booked(k0, s).(completed := k0.completed + 1)
      && s.dev.status.Idle? && s.dev.faultControl == s0.dev.faultControl
    case _ => s.counters == k0
  }

  /** What a finished RUN_DOT leaves behind, per verdict. */
  predicate Aftermath(s0: Sys, s: Sys, v: Verdict) {
    var k0 := s0.counters;
    && !s.errorFlag
    && match v
       case Value(_) =>
         && s.counters == k0.(submitted := k0.submitted + 1, completed := k0.completed + 1)
         && s.dev.status.Idle? && s.dev.faultControl == s0.dev.faultControl
       case TimesOut =>
         s.counters == k0.(submitted := k0.submitted + 1, timedOut := k0.timedOut + 1) && Restored(s.dev)
       case Fails(_) =>
         && s.counters == k0.(submitted := k0.submitted + 1, deviceErrors := k0.deviceErrors + 1)
         && ErrorState(s0.dev, s.dev) && s.dev.faultControl == s0.dev.faultControl
  }

  predicate Leaving(s0: Sys, s: Sys, req: Request, c: Client) {
    match c
    case Run(_, at) => Effects(s0, s, at)
    case Returned(_) => Aftermath(s0, s, Expected(s0.dev, req))
    case _ => false
  }

  /** A RUN_DOT of the only client, begun on a device that is idle or holds an earlier error. */
  predicate SoloRun(s0: Sys, s: State, req: Request) {
    && Followed(FoundBy(s0), s, 0, req) && |s.clients| == 1
    && !s0.errorFlag && Leaving(s0, s.sys, req, s.clients[0])
  }

  lemma EffectsPrepare(s0: Sys, s: Sys, req: Request, at: RunPoint)
    requires Global(s) && Local(s, 0, Run(req, at)) && CanRun(s, at)
    requires Track(FoundBy(s0), s, req, at) && Effects(s0, s, at)
    requires Preparing(at)
    requires !s0.errorFlag
    ensures var (s', c') := RunStep(s, 0, req, at); Leaving(s0, s', req, c')
  {
    AcceptedLength(s, req);
    if at.AtStart? {
      StartWrite(s.dev, s.now);
    }
    hide Write, Reachable, Expected, Copied;
  }

  lemma EffectsFinish(s0: Sys, s: Sys, req: Request, at: RunPoint)
    requires Global(s) && Local(s, 0, Run(req, at)) && CanRun(s, at)
    requires Track(FoundBy(s0), s, req, at) && Effects(s0, s, at)
    requires !Preparing(at)
    requires !s0.errorFlag
    ensures var (s', c') := RunStep(s, 0, req, at); Leaving(s0, s', req, c')
  {
    hide Write, AfterRead, ReadValue, Reachable, Expected, Copied, Quiet, Outstanding;
    ResetWrite(s.dev, s.now);
    ResultRead(s.dev);
  }

  lemma EffectsWait(s0: Sys, s: Sys, req: Request, at: RunPoint)
    requires Local(s, 0, Run(req, at)) && at.AtWait? && Effects(s0, s, at)
    ensures s.done > 0 ==> Effects(s0, Woken(s), AtCheck)
    ensures Effects(s0, s.(expired := true), AtTimeoutReset)
  {}

  lemma EffectsExpire(s0: Sys, s: Sys, req: Request, at: RunPoint)
    requires Global(s) && Local(s, 0, Run(req, at)) && s.dev.timer.Running?
    requires at.AtCount? || at.AtWait? || at.AtTimeoutReset?
    requires Effects(s0, s, at)
    ensures Effects(s0, s.(dev := Fire(s.dev)), at)
  {
    ReachableParts(s.dev);
    FireEnds(s.dev);
    hide Fire, Reachable, ResultOf;
  }

  lemma EffectsHandle(s0: Sys, s: Sys, req: Request, at: RunPoint)
    requires Local(s, 0, Run(req, at)) && s.dev.irqStatus != NO_FLAGS && (at.AtCount? || at.AtWait?)
    requires Effects(s0, s, at) && Track(FoundBy(s0), s, req, at)
    requires !s0.errorFlag
    ensures Effects(s0, Handler(s), at)
  {
    RaisedHandler(s);
    hide Handler, Expected, Copied;
  }

  lemma LeavingTick(s0: Sys, s: Sys, req: Request, c: Client, ms: nat)
    requires Leaving(s0, s, req, c)
    ensures Leaving(s0, s.(now := s.now + ms), req, c)
  {
    hide Expected;
  }

  lemma SoloOwnStep(s0: Sys, s: State, req: Request, a: Action)
    requires SoloRun(s0, s, req) && Enabled(s, a) && TimelyStep(s, a)
    requires a == Go(0) || a == Wake(0) || a == Timeout(0)
    ensures Leaving(s0, Apply(s, a).sys, req, Apply(s, a).clients[0])
  {
    hide Global, Local, Track, Effects, RunStep, Expected;
    var c := s.clients[0];
    assert Local(s.sys, 0, c);
    match a {
      case Go(_) =>
        if Preparing(c.at) {
          EffectsPrepare(s0, s.sys, req, c.at);
        } else {
          EffectsFinish(s0, s.sys, req, c.at);
        }
      case Wake(_) => EffectsWait(s0, s.sys, req, c.at);
      case Timeout(_) => EffectsWait(s0, s.sys, req, c.at);
    }
  }

  lemma SoloDeviceStep(s0: Sys, s: State, req: Request, a: Action)
    requires SoloRun(s0, s, req) && Enabled(s, a) && (a.Expire? || a.Handle?)
    ensures Leaving(s0, Apply(s, a).sys, req, s.clients[0])
  {
    hide Global, Local, Track, Effects, Expected;
    var c := s.clients[0];
    assert Local(s.sys, 0, c);
    if s.sys.dev.timer.Stopped? && s.sys.dev.irqStatus == NO_FLAGS {
      StoppedHandler(s);
    } else if s.sys.holder.Free? {
      FreeIsQuiet(s.sys);
      assert false;
    } else {
      assert s.sys.holder == Held(0);
      ActivityMeansAwaiting(s.sys, 0, c);
      if a.Expire? {
        EffectsExpire(s0, s.sys, req, c.at);
      } else if s.sys.dev.irqStatus != NO_FLAGS {
        NotExpired(FoundBy(s0), s.sys, req, c.at);
        EffectsHandle(s0, s.sys, req, c.at);
      } else {
        LineDown(s.sys);
        IdleHandler(s.sys);
      }
    }
  }

  lemma SoloStep(s0: Sys, s: State, req: Request, a: Action)
    requires SoloRun(s0, s, req) && Enabled(s, a) && SerialStep(s, a) && TimelyStep(s, a)
    requires Determined(FoundBy(s0), req) && a != Return(0)
    ensures SoloRun(s0, Apply(s, a), req)
  {
    hide Inv, Effects, Track, Expected, Aftermath;
    StepOnCourse(FoundBy(s0), s, 0, req, a);
    StepClients(s, a);
    match a {
      case Go(i) => SoloOwnStep(s0, s, req, a);
      case Wake(i) => SoloOwnStep(s0, s, req, a);
      case Timeout(i) => SoloOwnStep(s0, s, req, a);
      case Expire => SoloDeviceStep(s0, s, req, a);
      case Handle => SoloDeviceStep(s0, s, req, a);
      case Tick(ms) => LeavingTick(s0, s.sys, req, s.clients[0], ms);
      case Call(_, _) =>
      case Return(_) =>
    }
  }

  /** With one client every schedule is serial. */
  lemma SoloSerial(s: State, a: Action)
    requires |s.clients| <= 1
    ensures SerialStep(s, a)
  {}

  lemma {:induction false} SoloRunOn(s0: Sys, s: State, req: Request, acts: seq<Action>)
    requires SoloRun(s0, s, req) && Legal(s, acts) && Timely(s, acts)
    requires Determined(FoundBy(s0), req) && Return(0) !in acts
    ensures SoloRun(s0, Execute(s, acts), req)
    decreases acts
  {
    if acts != [] {
      SoloSerial(s, acts[0]);
      hide SoloRun, Apply, Enabled, SerialStep, TimelyStep;
      SoloStep(s0, s, req, acts[0]);
      SoloRunOn(s0, Apply(s, acts[0]), req, acts[1..]);
    }
  }

  // ---------------------------------------------------------------- the other calls

  predicate SameDevice(s0: Sys, s: Sys) {
    s.dev.status == s0.dev.status && s.dev.errCode == s0.dev.errCode
  }

  predicate Unchanged(s0: Sys, s: Sys) {
    s.counters == s0.counters && SameDevice(s0, s) && s.dev.faultControl == s0.dev.faultControl
  }

  function FaultOf(mask: u32): u32 {
    LowestBit(LowNibble(mask))
  }

  /** The accepted masks are no fault and the four single ones, and each goes into the register as is. */
  lemma AcceptedMasks(mask: u32)
    ensures !MaskRejected(mask) <==> mask in {0, 1, 2, 4, 8}
    ensures !MaskRejected(mask) ==> FaultOf(mask) == mask
  {
    HighBits(mask);
    if mask < 0x10 {
      LowMasks(mask);
    }
    hide And, LowNibble, LowestBit;
  }

  lemma HighBits(mask: u32)
    ensures Complement(0xF) == 0xFFFF_FFF0 && (And(mask, 0xFFFF_FFF0) == 0 <==> mask < 0x10)
  {
    hide And;
    HighPart(mask);
    WithinMask(mask / 2 / 2 / 2 / 2);
  }

  lemma HighPart(mask: u32)
    ensures And(mask, 0xFFFF_FFF0) == 0x10 * And(mask / 2 / 2 / 2 / 2, 0x0FFF_FFFF)
  {
    hide And;
    AndEven(mask, 0x7FFF_FFF8);
    AndEven(mask / 2, 0x3FFF_FFFC);
    AndEven(mask / 2 / 2, 0x1FFF_FFFE);
    AndEven(mask / 2 / 2 / 2, 0x0FFF_FFFF);
  }

  lemma WithinMask(x: nat)
    requires x < 0x1000_0000
    ensures And(x, 0x0FFF_FFFF) == x
  {
    hide And;
    BytePowers();
    assert Pow2(28) == 0x10 * Pow2(24);
    AndMask(x, 28);
  }

  lemma LowMasks(mask: u32)
    requires mask < 0x10
    ensures And(mask, if mask == 0 then 0xFFFF_FFFF else mask - 1) == 0 <==> mask in {0, 1, 2, 4, 8}
    ensures mask in {0, 1, 2, 4, 8} ==> FaultOf(mask) == mask
  {
    hide And, Lowest, FaultOf, LowNibble;
    if mask in {0, 1, 2, 4, 8} {
      SingleFaults(mask);
    }
    if mask == 0 {
      AndFromZero(0xFFFF_FFFF);
    } else {
      AndPredecessor(mask);
      Bits(mask);
      SingleBit(mask % 2, mask / 2 % 2, mask / 4 % 2, mask / 8 % 2);
    }
  }

  lemma Bits(mask: nat)
    requires mask < 0x10
    ensures mask == mask % 2 + 2 * (mask / 2 % 2 + 2 * (mask / 4 % 2 + 2 * (mask / 8 % 2)))
  {}

  lemma SingleBit(b0: nat, b1: nat, b2: nat, b3: nat)
    requires b0 < 2 && b1 < 2 && b2 < 2 && b3 < 2
    requires b0 + 2 * (b1 + 2 * (b2 + 2 * b3)) != 0
    ensures var m := b0 + 2 * (b1 + 2 * (b2 + 2 * b3)); Lowest(m) == m <==> m in {1, 2, 4, 8}
  {
    hide Lowest;
    LowestOfBits(b0, b1, b2, b3);
  }

  lemma SingleFaults(mask: u32)
    requires mask in {0, 1, 2, 4, 8}
    ensures FaultOf(mask) == mask
  {
    NibbleOfSmall(mask);
    LowestOfSingle(mask);
    hide LowNibble, LowestBit;
  }

  lemma NibbleOfSmall(mask: u32)
    requires mask < 0x10
    ensures LowNibble(mask) == mask
  {
    Bits(mask);
  }

  lemma LowestOfSingle(mask: u32)
    requires mask in {0, 1, 2, 4, 8}
    ensures LowestBit(mask) == mask
  {}

  predicate Written(to: ResetPoint) {
    !to.ToLock? && !to.ToDisable? && !to.ToReset?
  }

  /** A call other than RUN_DOT, made by the only client when the shared state was `s0`. */
  predicate Calm(s0: Sys, s: Sys, cmd: Command, c: Client) {
    && s.errorFlag == s0.errorFlag
    && match cmd
       case ResetDevice =>
         (match c
          case Resetting(to) =>
            && s.counters == (if to.ToUnlock? then s0.counters.(resets := s0.counters.resets + 1) else s0.counters)
            && (Written(to) ==> Restored(s.dev))
          case Returned(reply) =>
            reply == Success && Restored(s.dev) && s.counters == s0.counters.(resets := s0.counters.resets + 1)
          case _ => false)
       case SetFault(mask) =>
         (match c
          case Faulting(m, fp) =>
            && m == mask && !MaskRejected(mask) && s.counters == s0.counters && SameDevice(s0, s)
            && (fp.FaultUnlock? ==> s.dev.faultControl == FaultOf(mask))
          case Returned(reply) =>
            if MaskRejected(mask) then reply == Failed(-EINVAL) && Unchanged(s0, s)
            else
              && reply == Success && s.counters == s0.counters && SameDevice(s0, s)
              && s.dev.faultControl == FaultOf(mask)
          case _ => false)
       case GetStat =>
         && Unchanged(s0, s)
         && (match c
             case Reading(ReadTimedOut) => true
             case Reading(ReadCompleted(t)) => t == s0.counters.timedOut
             case Reading(ReadErrors(t, k)) => t == s0.counters.timedOut && k == s0.counters.completed
             case Reading(ReadSubmitted(t, k, e)) =>
               t == s0.counters.timedOut && k == s0.counters.completed && e == s0.counters.deviceErrors
             case Reading(ReadResets(t, k, e, n)) =>
               && t == s0.counters.timedOut && k == s0.counters.completed && e == s0.counters.deviceErrors
               && n == s0.counters.submitted
             case Returned(reply) => reply == Snapshot(s0.counters)
             case _ => false)
       case GetInfo => Unchanged(s0, s) && c == Returned(Info(1, 0x564E5055))
       case RunDot(_) => false
  }

  lemma CalmReset(s0: Sys, s: Sys, to: ResetPoint)
    requires Global(s) && Local(s, 0, Resetting(to)) && CanReset(s, to) && Calm(s0, s, ResetDevice, Resetting(to))
    ensures var (s', c') := ResetStep(s, 0, to); Calm(s0, s', ResetDevice, c')
  {
    hide Write, ReadValue, Reachable, Quiet;
    Listen(s.dev, s.now);
    Acknowledge(s.dev, s.now);
    ResetWrite(s.dev, s.now);
  }

  lemma CalmFault(s0: Sys, s: Sys, mask: u32, fp: FaultPoint)
    requires CanFault(s, fp) && Calm(s0, s, SetFault(mask), Faulting(mask, fp))
    ensures var (s', c') := FaultStep(s, 0, mask, fp); Calm(s0, s', SetFault(mask), c')
  {
    hide Write, MaskRejected, LowNibble, LowestBit;
    DeviceFacts.FaultWrite(s.dev, LowNibble(mask), s.now);
  }

  lemma CalmGo(s0: Sys, s: Sys, cmd: Command, c: Client)
    requires Global(s) && Local(s, 0, c) && CanGo(s, c) && Calm(s0, s, cmd, c)
    ensures var (s', c') := ClientStep(s, 0, c); Calm(s0, s', cmd, c')
  {
    hide ResetStep, FaultStep, Global, Local, MaskRejected, FaultOf;
    match cmd {
      case ResetDevice => CalmReset(s0, s, c.to);
      case SetFault(mask) => CalmFault(s0, s, mask, c.fp);
      case _ =>
    }
  }

  lemma CalmTick(s0: Sys, s: Sys, cmd: Command, c: Client, ms: nat)
    requires Calm(s0, s, cmd, c)
    ensures Calm(s0, s.(now := s.now + ms), cmd, c)
  {
    hide MaskRejected, FaultOf;
  }

  lemma CalmIsQuiet(s0: Sys, s: State, cmd: Command)
    requires Inv(s) && |s.clients| == 1 && Calm(s0, s.sys, cmd, s.clients[0])
    ensures Quiet(s.sys.dev)
  {
    hide Quiet, MaskRejected, FaultOf;
    assert Local(s.sys, 0, s.clients[0]);
  }

  lemma CalmStep(s0: Sys, s: State, cmd: Command, a: Action)
    requires Inv(s) && |s.clients| == 1 && Calm(s0, s.sys, cmd, s.clients[0])
    requires Enabled(s, a) && a != Return(0)
    ensures Inv(Apply(s, a)) && |Apply(s, a).clients| == 1
    ensures Calm(s0, Apply(s, a).sys, cmd, Apply(s, a).clients[0])
  {
    StepKeeps(s, a);
    StepClients(s, a);
    CalmIsQuiet(s0, s, cmd);
    CalmClient(s0, s.sys, cmd, s.clients[0]);
    assert Local(s.sys, 0, s.clients[0]);
    hide Global, Local, Calm, Handler, ClientStep;
    match a {
      case Go(i) => CalmGo(s0, s.sys, cmd, s.clients[0]);
      case Handle => QuietHandler(s.sys);
      case Tick(ms) => CalmTick(s0, s.sys, cmd, s.clients[0], ms);
      case _ =>
    }
  }

  lemma CalmClient(s0: Sys, s: Sys, cmd: Command, c: Client)
    requires Calm(s0, s, cmd, c)
    ensures !c.User? && !c.Run?
  {}

  lemma {:induction false} CalmRun(s0: Sys, s: State, cmd: Command, acts: seq<Action>)
    requires Inv(s) && |s.clients| == 1 && Calm(s0, s.sys, cmd, s.clients[0])
    requires Legal(s, acts) && Return(0) !in acts
    ensures var s' := Execute(s, acts);
            Inv(s') && |s'.clients| == 1 && Calm(s0, s'.sys, cmd, s'.clients[0])
    decreases acts
  {
    hide Inv, Calm, Apply, Enabled;
    if acts != [] {
      CalmStep(s0, s, cmd, acts[0]);
      CalmRun(s0, Apply(s, acts[0]), cmd, acts[1..]);
    }
  }

  // ---------------------------------------------------------------- whole calls

  /** A complete call of the only client: entered, carried through a timely schedule, returned from. */
  predicate Executes(s: State, cmd: Command, body: seq<Action>, reply: Reply, s': State) {
    && s.clients == [User] && Return(0) !in body
    && var entered := s.(clients := [Entered(s.sys, cmd)]);
    && Legal(entered, body) && Timely(entered, body)
    && Execute(entered, body).clients == [Returned(reply)]
    && s' == Execute(entered, body).(clients := [User])
  }

  /** Waiting for the mutex, which nobody holds: only time passes. */
  predicate AtTheDoor(s0: Sys, s: State, req: Request) {
    Inv(s) && s.clients == [Run(req, AtLock)] && s.sys == s0.(now := s.sys.now)
  }

  lemma DoorStep(s0: Sys, s: State, req: Request, a: Action)
    requires AtTheDoor(s0, s, req) && Enabled(s, a) && !s0.errorFlag
    ensures AtTheDoor(s0, Apply(s, a), req) || SoloRun(s0, Apply(s, a), req)
  {
    StepKeeps(s, a);
    assert Local(s.sys, 0, s.clients[0]);
    assert s.sys.holder.Free?;
    FreeIsQuiet(s.sys);
    QuietHandler(s.sys);
    hide Global, Local, Handler, Expected, Fire;
  }

  lemma {:induction false} SoloCall(s0: Sys, s: State, req: Request, acts: seq<Action>)
    requires AtTheDoor(s0, s, req) && !s0.errorFlag
    requires Legal(s, acts) && Timely(s, acts) && Determined(FoundBy(s0), req) && Return(0) !in acts
    ensures AtTheDoor(s0, Execute(s, acts), req) || SoloRun(s0, Execute(s, acts), req)
    decreases acts
  {
    hide AtTheDoor, SoloRun, Apply, Enabled, TimelyStep;
    if acts != [] {
      DoorStep(s0, s, req, acts[0]);
      var s1 := Apply(s, acts[0]);
      if AtTheDoor(s0, s1, req) {
        SoloCall(s0, s1, req, acts[1..]);
      } else {
        SoloRunOn(s0, s1, req, acts[1..]);
      }
    }
  }

  /** Between calls: nobody inside, the books balanced, the error flag clear. */
  predicate AtRest(s: State) {
    Inv(s) && s.clients == [User] && !s.sys.errorFlag
  }

  lemma WholeRun(s: State, req: Request, body: seq<Action>, reply: Reply, s': State)
    requires AtRest(s) && RequestAccepted(s.sys, req) && Determined(FoundBy(s.sys), req)
    requires Executes(s, RunDot(req), body, reply, s')
    ensures AtRest(s') && reply == ReplyOf(Expected(s.sys.dev, req))
    ensures Aftermath(s.sys, s'.sys, Expected(s.sys.dev, req))
  {
    hide Aftermath, Expected;
    StepKeeps(s, Call(0, RunDot(req)));
    var entered := s.(clients := [Entered(s.sys, RunDot(req))]);
    assert Apply(s, Call(0, RunDot(req))) == entered;
    SoloCall(s.sys, entered, req, body);
    var t := Execute(entered, body);
    StepKeeps(t, Return(0));
    assert Apply(t, Return(0)) == s';
    AftermathFlag(s.sys, t.sys, Expected(s.sys.dev, req));
  }

  lemma AftermathFlag(s0: Sys, s: Sys, v: Verdict)
    requires Aftermath(s0, s, v)
    ensures !s.errorFlag
  {}

  lemma EntersCalm(s: Sys, cmd: Command)
    requires !cmd.RunDot?
    ensures Calm(s, s, cmd, Entered(s, cmd))
  {
    hide ReadValue, MaskRejected, FaultOf;
    StatusRead(s.dev);
  }

  lemma WholeCalm(s: State, cmd: Command, body: seq<Action>, reply: Reply, s': State)
    requires AtRest(s) && !cmd.RunDot? && Executes(s, cmd, body, reply, s')
    ensures AtRest(s') && Calm(s.sys, s'.sys, cmd, Returned(reply))
  {
    hide Calm;
    StepKeeps(s, Call(0, cmd));
    var entered := s.(clients := [Entered(s.sys, cmd)]);
    assert Apply(s, Call(0, cmd)) == entered;
    EntersCalm(s.sys, cmd);
    CalmRun(s.sys, entered, cmd, body);
    var t := Execute(entered, body);
    StepKeeps(t, Return(0));
    assert Apply(t, Return(0)) == s';
    CalmFlag(s.sys, t.sys, cmd, t.clients[0]);
  }

  lemma CalmFlag(s0: Sys, s: Sys, cmd: Command, c: Client)
    requires Calm(s0, s, cmd, c)
    ensures s.errorFlag == s0.errorFlag
  {}
}
