/** The driver of linux-driver/src/vnpu_drv.c as the C functions are written: an object whose fields
    the ioctls and the interrupt handler update in place, on top of the device object. Between any two
    statements the device timer may fire, the handler may run and time may pass. Every ioctl is proved
    to be a run of the transition system for one client, statement by statement; what is proved about
    those runs then holds of the code.
 */
module Driver {
  import opened Words
  import opened Device
  import opened DeviceInvariant
  import opened Machine
  import opened Resetting
  import opened Protocol
  import opened Outcome
  import opened Solo

  const IRQ_STATUS: nat := 0x014
  const IRQ_ENABLE: nat := 0x018
  const CONTROL: nat := 0x00C

  lemma OnlyClient(s: Sys, c: Client)
    requires CanGo(s, c)
    ensures Enabled(State(s, [c]), Go(0))
    ensures Apply(State(s, [c]), Go(0)) == State(ClientStep(s, 0, c).0, [ClientStep(s, 0, c).1])
  {
    hide ClientStep, CanGo;
  }

  /** A timely run of the transition system that starts and ends with one call is a whole call. */
  lemma RunReturns(s0: Sys, dot: Request, acts: seq<Action>, reply: Reply, s1: Sys)
    requires AtRest(State(s0, [User])) && RequestAccepted(s0, dot) && Determined(FoundBy(s0), dot)
    requires var entry := State(s0, [Entered(s0, RunDot(dot))]);
             && Legal(entry, acts) && Timely(entry, acts) && Return(0) !in acts
             && Execute(entry, acts) == State(s1, [Returned(reply)])
    ensures reply == ReplyOf(Expected(s0.dev, dot)) && Aftermath(s0, s1, Expected(s0.dev, dot))
  {
    hide AtRest, Aftermath, Expected, Entered, RequestAccepted, Determined;
    var s := State(s0, [User]);
    assert s.(clients := [Entered(s0, RunDot(dot))]) == State(s0, [Entered(s0, RunDot(dot))]);
    assert Executes(s, RunDot(dot), acts, reply, State(s1, [User]));
    WholeRun(s, dot, acts, reply, State(s1, [User]));
  }

  /** The same for the other calls, which no schedule can disturb. */
  lemma CalmReturns(s0: Sys, cmd: Command, acts: seq<Action>, reply: Reply, s1: Sys)
    requires AtRest(State(s0, [User])) && !cmd.RunDot?
    requires var entry := State(s0, [Entered(s0, cmd)]);
             && Legal(entry, acts) && Return(0) !in acts
             && Execute(entry, acts) == State(s1, [Returned(reply)])
    ensures Calm(s0, s1, cmd, Returned(reply))
  {
    hide Calm, Inv;
    var s := State(s0, [User]);
    StepKeeps(s, Call(0, cmd));
    assert Apply(s, Call(0, cmd)) == State(s0, [Entered(s0, cmd)]);
    EntersCalm(s0, cmd);
    CalmRun(s0, State(s0, [Entered(s0, cmd)]), cmd, acts);
  }

  // ---------------------------------------------------------------- submissions

  /** What a request must not look like. */
  predicate Refused(revision: u32, dot: Request) {
    || dot.abiVersion != 1
    || (revision == 1 && dot.vectorLength != 8)
    || (revision == 2 && dot.vectorLength != 8 && dot.vectorLength != 16)
    || dot.timeoutMs < 1 || dot.timeoutMs > 1000
  }

  predicate Submitting(s: Sys, submitted: nat, c: Client) {
    s.repaired &&
    match c
    case Run(req, at) =>
      && (req.vectorLength == 8 || req.vectorLength == 16)
      && s.counters.submitted == submitted + (if at.AtLock? || Preparing(at) || at.AtCount? then 0 else 1)
    case Returned(_) => s.counters.submitted == submitted + 1
    case _ => false
  }

  lemma SubmittingGo(s: Sys, submitted: nat, req: Request, at: RunPoint)
    requires Submitting(s, submitted, Run(req, at)) && CanRun(s, at)
    ensures var (s', c') := RunStep(s, 0, req, at); Submitting(s', submitted, c')
  {
    hide Write, ReadValue, AfterRead;
  }

  lemma SubmittingHandler(s: Sys)
    ensures Handler(s).counters.submitted == s.counters.submitted && Handler(s).repaired == s.repaired
  {
    hide Write, ReadValue;
  }

  lemma SubmittingStep(s: State, submitted: nat, a: Action)
    requires |s.clients| == 1 && Submitting(s.sys, submitted, s.clients[0]) && Enabled(s, a) && a != Return(0)
    ensures |Apply(s, a).clients| == 1 && Submitting(Apply(s, a).sys, submitted, Apply(s, a).clients[0])
  {
    SubmittingHandler(s.sys);
    hide RunStep, Handler, Fire;
    match a {
      case Go(_) => SubmittingGo(s.sys, submitted, s.clients[0].req, s.clients[0].at);
      case _ =>
    }
  }

  /** A call that gets past the checks submits exactly once, whatever its ending. */
  lemma {:induction false} SubmitsOnce(s: State, submitted: nat, acts: seq<Action>)
    requires |s.clients| == 1 && Submitting(s.sys, submitted, s.clients[0])
    requires Legal(s, acts) && Return(0) !in acts
    ensures var t := Execute(s, acts); |t.clients| == 1 && Submitting(t.sys, submitted, t.clients[0])
    decreases acts
  {
    hide Submitting, Enabled, Apply;
    if acts != [] {
      SubmittingStep(s, submitted, acts[0]);
      SubmitsOnce(Apply(s, acts[0]), submitted, acts[1..]);
    }
  }

  class VnpuDriver {
    const device: VnpuDevice
    var now: int
    var mutex: Owner
    var irqRaised: nat
    var errorFlag: bool
    var deviceError: u32
    var deviceStatus: u32
    var submittedNum: nat
    var completedNum: nat
    var timedOutNum: nat
    var deviceErrorNum: nat
    var resetNum: nat
    var deviceRevision: u32
    const repaired: bool

    ghost var expired: bool
    ghost var late: nat

    /** The ioctl in progress: where it was entered, the steps since, the point it has reached. */
    ghost var entry: State
    ghost var trace: seq<Action>
    ghost var point: Client

    ghost function Footprint(): set<object>
    {
      {this, device, device.inputA, device.inputB}
    }

    ghost function Sys(): Sys
      reads this, device, device.inputA, device.inputB
      requires device.Valid()
    {
      Machine.Sys(device.State(), now, mutex, irqRaised, errorFlag, deviceError,
          Counters(submittedNum, completedNum, timedOutNum, deviceErrorNum, resetNum), deviceRevision,
          expired, late, repaired)
    }

    /** The object is where the transition system is. */
    ghost predicate Follows()
      reads this, device, device.inputA, device.inputB
    {
      && device.Valid() && Return(0) !in trace
      && Legal(entry, trace) && Execute(entry, trace) == State(Sys(), [point])
    }

    constructor (version: u32, repaired: bool)
      requires version == REVISION_A || version == REVISION_B
      ensures device.Valid() && fresh(Footprint() - {this})
      ensures Initial(State(Sys(), [User])) && Sys().repaired == repaired
    {
      device := new VnpuDevice(version);
      now, mutex, irqRaised, errorFlag, deviceError, deviceStatus := 0, Free, 0, false, 0, 0;
      submittedNum, completedNum, timedOutNum, deviceErrorNum, resetNum := 0, 0, 0, 0, 0;
      deviceRevision := version;
      this.repaired := repaired;
      expired, late := false, 0;
    }

    // -------------------------------------------------------------- bookkeeping

    ghost method Enter(cmd: Command)
      requires device.Valid()
      modifies this`entry, this`trace, this`point
      ensures Follows() && Sys() == old(Sys()) && point == Entered(Sys(), cmd) && entry == State(Sys(), [point])
    {
      hide Entered;
      point := Entered(Sys(), cmd);
      entry, trace := State(Sys(), [point]), [];
    }

    ghost method Record(a: Action, before: Sys, next: Client)
      requires device.Valid() && Return(0) !in trace && a != Return(0)
      requires Legal(entry, trace) && Execute(entry, trace) == State(before, [point])
      requires Enabled(State(before, [point]), a) && Apply(State(before, [point]), a) == State(Sys(), [next])
      modifies this`trace, this`point
      ensures Follows() && Sys() == old(Sys()) && point == next
    {
      hide Apply, Enabled;
      Single(Execute(entry, trace), a);
      Chain(entry, trace, [a]);
      trace := trace + [a];
      point := next;
    }

    /** The statement just executed is the next step of the ioctl. */
    ghost method Step(before: Sys)
      requires device.Valid() && Return(0) !in trace
      requires Legal(entry, trace) && Execute(entry, trace) == State(before, [point])
      requires CanGo(before, point) && ClientStep(before, 0, point).0 == Sys()
      modifies this`trace, this`point
      ensures Follows() && Sys() == old(Sys()) && point == ClientStep(before, 0, old(point)).1
    {
      hide ClientStep, CanGo;
      OnlyClient(before, point);
      Record(Go(0), before, ClientStep(before, 0, point).1);
    }

    // -------------------------------------------------------------- the environment

    /** A register read; none that the driver makes changes anything but the one of RESULT. */
    method Peek(addr: nat) returns (val: u32)
      requires device.Valid() && addr != 0x140
      modifies device`status
      ensures device.Valid() && val == Readl(Sys(), addr) && Sys() == old(Sys())
    {
      hide ReadValue;
      val := device.MmioRead(addr, 4);
    }

    method ReportError()
      requires device.Valid()
      modifies this`deviceError, this`deviceStatus, this`deviceErrorNum, this`errorFlag, this`late, device`status
      ensures device.Valid() && Sys() == Reported(old(Sys())) && deviceStatus == Readl(Sys(), 0x010)
    {
      hide ReadValue, VnpuDevice.State;
      var code := Peek(0x01C);
      var status := Peek(0x010);
      deviceError, deviceStatus := code, status;
      deviceErrorNum := deviceErrorNum + 1;
      late := if expired then late + 1 else late;
      errorFlag := true;
    }

    method IrqHandler() returns (handled: bool)
      requires device.Valid()
      modifies this`deviceError, this`deviceStatus, this`deviceErrorNum, this`errorFlag, this`irqRaised, this`late
      modifies device, device.inputA, device.inputB
      ensures device.Valid() && Sys() == Handler(old(Sys()))
      ensures handled <==> FlagsOf(Readl(old(Sys()), IRQ_STATUS)) != NO_FLAGS
      ensures FlagsOf(Readl(old(Sys()), IRQ_STATUS)).error ==> deviceStatus == Readl(Sys(), 0x010)
    {
      hide Write, ReadValue, Reported;
      var irqStatus := Peek(IRQ_STATUS);
      device.MmioWrite(IRQ_STATUS, IRQ_ALL, 4, now);
      var pending := FlagsOf(irqStatus);
      if pending == NO_FLAGS {
        return false;
      }
      if pending.error {
        ReportError();
      }
      irqRaised := irqRaised + 1;
      handled := true;
    }

    method Interrupt()
      requires Follows()
      modifies this`deviceError, this`deviceStatus, this`deviceErrorNum, this`errorFlag, this`irqRaised, this`late
      modifies device, device.inputA, device.inputB, this`trace, this`point
      ensures Follows() && point == old(point)
    {
      hide Handler;
      ghost var before := Sys();
      var _ := IrqHandler();
      Record(Handle, before, point);
    }

    method TimerExpires()
      requires Follows() && device.timer.Running? && device.timer.deadline <= now
      modifies device, this`trace, this`point
      ensures Follows() && point == old(point)
    {
      hide Fire;
      ghost var before := Sys();
      device.DotTimer();
      Record(Expire, before, point);
    }

    method Pass(ms: nat)
      requires Follows()
      modifies this`now, this`trace, this`point
      ensures Follows() && point == old(point) && now == old(now) + ms
    {
      ghost var before := Sys();
      now := now + ms;
      Record(Tick(ms), before, point);
    }

    /** Anything that can happen between two statements, any number of times. */
    method Preempt()
      requires Follows()
      modifies this, device, device.inputA, device.inputB
      ensures Follows() && point == old(point) && entry == old(entry)
      ensures Sys().holder == old(Sys()).holder && Sys().revision == old(Sys()).revision && Sys().repaired == repaired
      ensures now >= old(now)
    {
      var rounds: nat := *;
      while rounds > 0
        invariant Follows() && point == old(point) && entry == old(entry)
        invariant mutex == old(mutex) && deviceRevision == old(deviceRevision) && now >= old(now)
      {
        if * {
          Interrupt();
        } else if device.timer.Running? && device.timer.deadline <= now {
          TimerExpires();
        } else {
          Pass(1);
        }
        rounds := rounds - 1;
      }
    }

    // -------------------------------------------------------------- steps the ioctls share

    method WriteRegister(addr: nat, val: u32)
      requires Follows() && CanGo(Sys(), point) && ClientStep(Sys(), 0, point).0 == Writel(Sys(), val, addr)
      modifies device, device.inputA, device.inputB, this`trace, this`point
      ensures Follows() && Sys() == Writel(old(Sys()), val, addr)
      ensures point == ClientStep(old(Sys()), 0, old(point)).1
    {
      hide Write, ClientStep, CanGo;
      ghost var before := Sys();
      device.MmioWrite(addr, val, 4, now);
      Step(before);
    }

    method ReadRegister(addr: nat) returns (val: u32)
      requires Follows() && addr != 0x140 && CanGo(Sys(), point) && ClientStep(Sys(), 0, point).0 == Sys()
      modifies device`status, this`trace, this`point
      ensures Follows() && Sys() == old(Sys()) && val == Readl(Sys(), addr)
      ensures point == ClientStep(Sys(), 0, old(point)).1
    {
      hide ReadValue, ClientStep, CanGo;
      ghost var before := Sys();
      val := Peek(addr);
      Step(before);
    }

    method Lock()
      requires Follows() && Sys().holder.Free? && CanGo(Sys(), point)
      requires ClientStep(Sys(), 0, point).0 == Sys().(holder := Held(0))
      modifies this`mutex, this`trace, this`point
      ensures Follows() && Sys() == old(Sys()).(holder := Held(0)) && point == ClientStep(old(Sys()), 0, old(point)).1
    {
      hide ClientStep, CanGo;
      ghost var before := Sys();
      mutex := Held(0);
      Step(before);
    }

    method Unlock()
      requires Follows() && CanGo(Sys(), point) && ClientStep(Sys(), 0, point).0 == Sys().(holder := Free)
      modifies this`mutex, this`trace, this`point
      ensures Follows() && Sys() == old(Sys()).(holder := Free) && point == ClientStep(old(Sys()), 0, old(point)).1
    {
      hide ClientStep, CanGo;
      ghost var before := Sys();
      mutex := Free;
      Step(before);
    }

    method ReinitCompletion()
      requires Follows() && CanGo(Sys(), point) && ClientStep(Sys(), 0, point).0 == Sys().(done := 0)
      modifies this`irqRaised, this`trace, this`point
      ensures Follows() && Sys() == old(Sys()).(done := 0) && point == ClientStep(old(Sys()), 0, old(point)).1
    {
      hide ClientStep, CanGo;
      ghost var before := Sys();
      irqRaised := 0;
      Step(before);
    }

    // -------------------------------------------------------------- RESET

    method Quench()
      requires Follows() && point == Resetting(ToDisable)
      modifies this, device, device.inputA, device.inputB
      ensures Follows() && entry == old(entry) && Sys().holder == old(Sys()).holder
      ensures point == Resetting(ToStatus)
    {
      hide Sys, Follows, Write, ReadValue;
      WriteRegister(IRQ_ENABLE, 0);
      Preempt();
      WriteRegister(CONTROL, 2);
      Preempt();
      WriteRegister(IRQ_STATUS, IRQ_ALL);
      Preempt();
    }

    method ReadBack() returns (status: u32, irqStatus: u32, err: u32)
      requires Follows() && point == Resetting(ToStatus)
      modifies this, device, device.inputA, device.inputB
      ensures Follows() && entry == old(entry) && Sys().holder == old(Sys()).holder
      ensures point == Resetting(ToVerify(status, irqStatus, err))
    {
      hide Sys, Follows, ReadValue;
      status := ReadRegister(0x010);
      Preempt();
      irqStatus := ReadRegister(IRQ_STATUS);
      Preempt();
      err := ReadRegister(0x01C);
      Preempt();
    }

    ghost method Compare()
      requires Follows() && point.Resetting? && point.to.ToVerify?
      modifies this`trace, this`point
      ensures Follows() && Sys() == old(Sys()) && point == ResetStep(Sys(), 0, old(point).to).1
    {
      Step(Sys());
    }

    method HwReset() returns (ret: int)
      requires Follows() && point == Resetting(ToDisable)
      modifies this, device, device.inputA, device.inputB
      ensures Follows() && entry == old(entry) && Sys().holder == old(Sys()).holder
      ensures point == Resetting(if ret == 0 then ToCount else ToUnlock(ret))
    {
      hide Sys, Follows;
      Quench();
      var status, irqStatus, err := ReadBack();
      Compare();
      if status != 0 {
        return -EIO;
      }
      if FlagsOf(irqStatus) != NO_FLAGS {
        return -EIO;
      }
      if err != 0 {
        return -EIO;
      }
      Preempt();
      ReinitCompletion();
      return 0;
    }

    /** The ioctl has run to completion from `s0` and returned `reply`. */
    ghost predicate Carried(s0: Sys, cmd: Command, reply: Reply)
      reads this, device, device.inputA, device.inputB
    {
      Follows() && entry == State(s0, [Entered(s0, cmd)]) && point == Returned(reply)
    }

    method IoctlReset() returns (reply: Reply)
      requires device.Valid() && mutex.Free?
      modifies this, device, device.inputA, device.inputB
      ensures Carried(old(Sys()), ResetDevice, reply)
      ensures Reachable(old(Sys()).dev) ==>
                && reply == Success && Clean(Sys().dev) && Sys().done == 0
                && Sys().counters.resets == old(Sys()).counters.resets + 1
    {
      ghost var s0 := Sys();
      var ret := ResetCall();
      if Reachable(s0.dev) {
        ResetFromAnywhere(entry, trace);
      }
      reply := if ret == 0 then Success else Failed(ret);
    }

    method ResetCall() returns (ret: int)
      requires device.Valid() && mutex.Free?
      modifies this, device, device.inputA, device.inputB
      ensures Follows() && entry == State(old(Sys()), [Resetting(ToLock)])
      ensures point == Returned(if ret == 0 then Success else Failed(ret))
    {
      assert Sys().holder.Free?;
      hide Sys, Follows, Write, ReadValue, ResetStep;
      Enter(ResetDevice);
      LockForReset();
      ret := HwReset();
      FinishReset(ret);
    }

    method LockForReset()
      requires Follows() && point == Resetting(ToLock) && Sys().holder.Free?
      modifies this, device, device.inputA, device.inputB
      ensures Follows() && entry == old(entry) && point == Resetting(ToDisable)
    {
      hide Follows, Write, ReadValue;
      Preempt();
      Lock();
      Preempt();
    }

    method FinishReset(ret: int)
      requires Follows() && point == Resetting(if ret == 0 then ToCount else ToUnlock(ret))
      modifies this, device, device.inputA, device.inputB
      ensures Follows() && entry == old(entry) && point == Returned(if ret == 0 then Success else Failed(ret))
    {
      hide Sys, Follows, Write, ReadValue;
      Preempt();
      if ret == 0 {
        CountReset();
        Preempt();
      }
      Unlock();
    }

    method CountReset()
      requires Follows() && point == Resetting(ToCount)
      modifies this`resetNum, this`trace, this`point
      ensures Follows() && point == Resetting(ToUnlock(0)) && Sys().holder == old(Sys()).holder
    {
      ghost var before := Sys();
      resetNum := resetNum + 1;
      Step(before);
    }

    lemma FollowsRun()
      requires Follows()
      ensures Legal(entry, trace) && Execute(entry, trace) == State(Sys(), [point]) && Return(0) !in trace
    {}

    // -------------------------------------------------------------- RUN_DOT

    method LockForRun(dot: Request)
      requires Follows() && point == Run(dot, AtLock) && Sys().holder.Free?
      modifies this, device, device.inputA, device.inputB
      ensures Follows() && entry == old(entry) && point == Run(dot, AtClear)
    {
      hide Sys, Follows, Write, ReadValue;
      Preempt();
      Lock();
      Preempt();
      ReinitCompletion();
      Preempt();
    }

    method Prepare(dot: Request)
      requires Follows() && point == Run(dot, AtLock) && Sys().holder.Free?
      modifies this, device, device.inputA, device.inputB
      ensures Follows() && entry == old(entry)
      ensures var vecLen := if repaired then dot.vectorLength else 0;
              point == if vecLen == 8 || vecLen == 16 then Run(dot, AtCopy(0, false)) else Returned(Failed(-EINVAL))
    {
      hide Sys, Follows, Write, ReadValue;
      LockForRun(dot);
      WriteRegister(IRQ_STATUS, IRQ_ALL);
      Preempt();
      WriteRegister(IRQ_ENABLE, IRQ_ALL);
      Preempt();
    }

    method CopyWords(dot: Request, words: nat)
      requires Follows() && point == Run(dot, AtCopy(0, false)) && repaired && 0 < words == WordCount(dot.vectorLength)
      modifies this, device, device.inputA, device.inputB
      ensures Follows() && entry == old(entry) && point == Run(dot, AtLength)
    {
      hide Sys, Follows, Write, ReadValue;
      for i := 0 to words
        invariant Follows() && entry == old(entry)
        invariant point == Run(dot, if i < words then AtCopy(i, false) else AtLength)
      {
        WriteRegister(0x100 + 4 * i, dot.input.a[i]);
        Preempt();
        WriteRegister(0x120 + 4 * i, dot.input.b[i]);
        Preempt();
      }
    }

    method Submit(dot: Request)
      requires Follows() && point == Run(dot, AtLength)
      modifies this, device, device.inputA, device.inputB
      ensures Follows() && entry == old(entry) && point == Run(dot, AtWait(now + dot.timeoutMs))
    {
      hide Sys, Follows, Write, ReadValue;
      WriteRegister(0x024, dot.vectorLength);
      Preempt();
      WriteRegister(CONTROL, 1);
      Preempt();
      CountSubmitted(dot);
    }

    method CountSubmitted(dot: Request)
      requires Follows() && point == Run(dot, AtCount)
      modifies this`submittedNum, this`trace, this`point
      ensures Follows() && point == Run(dot, AtWait(now + dot.timeoutMs))
    {
      ghost var before := Sys();
      submittedNum := submittedNum + 1;
      Step(before);
    }

    /** `wait_for_completion_timeout`: the completion is taken if there is one when the wait ends. */
    method WaitForCompletion(dot: Request, timeout: nat) returns (remaining: bool)
      requires Follows() && point == Run(dot, AtWait(now + timeout))
      modifies this, device, device.inputA, device.inputB
      ensures Follows() && entry == old(entry)
      ensures point == Run(dot, if remaining then AtCheck else AtTimeoutReset)
    {
      hide Sys, Follows;
      var expiry := now + timeout;
      while irqRaised == 0 && now < expiry
        invariant Follows() && entry == old(entry) && point == Run(dot, AtWait(expiry))
        decreases expiry - now
      {
        Preempt();
        Pass(1);
      }
      if irqRaised > 0 {
        TakeCompletion(dot, expiry);
        return true;
      }
      GiveUp(dot, expiry);
      return false;
    }

    method TakeCompletion(dot: Request, ghost expiry: int)
      requires Follows() && point == Run(dot, AtWait(expiry)) && irqRaised > 0
      modifies this`irqRaised, this`trace, this`point
      ensures Follows() && point == Run(dot, AtCheck)
    {
      ghost var before := Sys();
      irqRaised := irqRaised - 1;
      Record(Wake(0), before, Run(dot, AtCheck));
    }

    ghost method GiveUp(dot: Request, expiry: int)
      requires Follows() && point == Run(dot, AtWait(expiry)) && irqRaised == 0 && now >= expiry
      modifies this`expired, this`trace, this`point
      ensures Follows() && point == Run(dot, AtTimeoutReset)
    {
      var before := Sys();
      expired := true;
      Record(Timeout(0), before, Run(dot, AtTimeoutReset));
    }

    // -------------------------------------------------------------- how a RUN_DOT ends

    method Recover(dot: Request)
      requires Follows() && point == Run(dot, AtTimeoutReset)
      modifies this, device, device.inputA, device.inputB
      ensures Follows() && entry == old(entry) && point == Returned(Failed(-ETIMEDOUT))
    {
      hide Sys, Follows, Write, ReadValue;
      Preempt();
      WriteTimeoutReset(dot);
      Preempt();
      CountTimedOut(dot);
      Preempt();
      Unlock();
      Preempt();
    }

    method WriteTimeoutReset(dot: Request)
      requires Follows() && point == Run(dot, AtTimeoutReset)
      modifies this`expired, device, device.inputA, device.inputB, this`trace, this`point
      ensures Follows() && point == Run(dot, AtTimeoutCount)
    {
      hide Write;
      ghost var before := Sys();
      device.MmioWrite(CONTROL, 2, 4, now);
      expired := false;
      Step(before);
    }

    method CountTimedOut(dot: Request)
      requires Follows() && point == Run(dot, AtTimeoutCount)
      modifies this`timedOutNum, this`trace, this`point
      ensures Follows() && point == Run(dot, AtTimeoutUnlock)
    {
      ghost var before := Sys();
      timedOutNum := timedOutNum + 1;
      Step(before);
    }

    method CheckError(dot: Request) returns (flag: bool)
      requires Follows() && point == Run(dot, AtCheck)
      modifies this`trace, this`point
      ensures Follows() && point == Run(dot, if flag then AtErrorUnlock else AtResult)
    {
      flag := errorFlag;
      Step(Sys());
    }

    method DeviceErrorHandler(dot: Request) returns (code: int)
      requires Follows() && point == Run(dot, AtErrorReturn)
      modifies this`errorFlag, this`trace, this`point
      ensures Follows() && point == Returned(Failed(code)) && !errorFlag
      ensures code == if deviceError == 1 then -22 else if deviceError == 2 then -16
                      else if deviceError == 4 then -95 else -5
    {
      ghost var before := Sys();
      match deviceError {
        case 1 => code := -EINVAL;
        case 2 => code := -EBUSY;
        case 3 => code := -EIO;
        case 4 => code := -EOPNOTSUPP;
        case 5 => code := -EIO;
        case _ => code := -EIO;
      }
      errorFlag := false;
      Step(before);
    }

    method FailWithDeviceError(dot: Request) returns (code: int)
      requires Follows() && point == Run(dot, AtErrorUnlock)
      modifies this, device, device.inputA, device.inputB
      ensures Follows() && entry == old(entry) && point == Returned(Failed(code))
    {
      hide Sys, Follows, Write, ReadValue;
      Preempt();
      Unlock();
      Preempt();
      code := DeviceErrorHandler(dot);
    }

    method ReadResult(dot: Request) returns (result: int32)
      requires Follows() && point == Run(dot, AtResult)
      modifies device`status, this`trace, this`point
      ensures Follows() && point == Run(dot, AtCountDone(result))
    {
      hide AfterRead, ReadValue;
      ghost var before := Sys();
      var word := device.MmioRead(0x140, 4);
      result := Signed(word);
      Step(before);
    }

    method CountCompleted(dot: Request, result: int32)
      requires Follows() && point == Run(dot, AtCountDone(result))
      modifies this`completedNum, this`trace, this`point
      ensures Follows() && point == Run(dot, AtUnlock(result))
    {
      ghost var before := Sys();
      completedNum := completedNum + 1;
      Step(before);
    }

    method DeliverResult(dot: Request) returns (result: int32)
      requires Follows() && point == Run(dot, AtResult)
      modifies this, device, device.inputA, device.inputB
      ensures Follows() && entry == old(entry) && point == Returned(Delivered(result))
    {
      hide Sys, Follows, Write, ReadValue;
      Preempt();
      result := ReadResult(dot);
      Preempt();
      CountCompleted(dot, result);
      Preempt();
      Unlock();
    }

    method Finish(dot: Request) returns (reply: Reply)
      requires Follows() && point == Run(dot, AtWait(now + dot.timeoutMs))
      modifies this, device, device.inputA, device.inputB
      ensures Follows() && entry == old(entry) && point == Returned(reply)
    {
      hide Sys, Follows;
      var remaining := WaitForCompletion(dot, dot.timeoutMs);
      if !remaining {
        Recover(dot);
        return Failed(-ETIMEDOUT);
      }
      Preempt();
      var flag := CheckError(dot);
      if flag {
        var code := FailWithDeviceError(dot);
        return Failed(code);
      }
      var result := DeliverResult(dot);
      reply := Delivered(result);
    }

    method RunValidated(dot: Request) returns (reply: Reply)
      requires Follows() && point == Run(dot, AtLock) && Sys().holder.Free?
      modifies this, device, device.inputA, device.inputB
      ensures Follows() && entry == old(entry) && point == Returned(reply)
    {
      hide Sys, Follows;
      var vecLen := if repaired then dot.vectorLength else 0;
      Prepare(dot);
      if vecLen == 8 {
        CopyWords(dot, 2);
      } else if vecLen == 16 {
        CopyWords(dot, 4);
      } else {
        return Failed(-EINVAL);
      }
      Submit(dot);
      reply := Finish(dot);
    }

    method IoctlRunDot(dot: Request) returns (reply: Reply)
      requires device.Valid() && mutex.Free?
      modifies this, device, device.inputA, device.inputB
      ensures Carried(old(Sys()), RunDot(dot), reply)
      ensures dot.abiVersion != 1 || dot.timeoutMs < 1 || dot.timeoutMs > 1000
              || (old(deviceRevision) == 1 && dot.vectorLength != 8)
              || (old(deviceRevision) == 2 && dot.vectorLength != 8 && dot.vectorLength != 16) ==>
                reply == Failed(-22) && Sys() == old(Sys())
      ensures repaired && dot.abiVersion == 1 && 1 <= dot.timeoutMs <= 1000
              && (dot.vectorLength == 8 || (dot.vectorLength == 16 && old(deviceRevision) != 1)) ==>
                Sys().counters.submitted == old(Sys()).counters.submitted + 1
      ensures var s0 := old(Sys());
              && AtRest(State(s0, [User])) && RequestAccepted(s0, dot) && Determined(FoundBy(s0), dot)
              && Timely(entry, trace) ==>
                reply == ReplyOf(Expected(s0.dev, dot)) && Aftermath(s0, Sys(), Expected(s0.dev, dot))
    {
      ghost var s0 := Sys();
      reply := RunDotCall(dot);
      if !Refused(old(deviceRevision), dot) && repaired && (dot.vectorLength == 8 || dot.vectorLength == 16) {
        SubmitsOnce(entry, s0.counters.submitted, trace);
      }
      hide AtRest, Expected, Aftermath, RequestAccepted, Determined, Entered, Timely, Sys;
      if
        && AtRest(State(s0, [User])) && RequestAccepted(s0, dot) && Determined(FoundBy(s0), dot)
        && Timely(entry, trace)
      {
        RunReturns(s0, dot, trace, reply, Sys());
      }
    }

    method RunDotCall(dot: Request) returns (reply: Reply)
      requires device.Valid() && mutex.Free?
      modifies this, device, device.inputA, device.inputB
      ensures Carried(old(Sys()), RunDot(dot), reply)
      ensures Refused(old(deviceRevision), dot) ==> reply == Failed(-22) && Sys() == old(Sys())
    {
      Enter(RunDot(dot));
      if dot.abiVersion != 1 {
        return Failed(-EINVAL);
      }
      if deviceRevision == REVISION_A {
        if dot.vectorLength != 8 {
          return Failed(-EINVAL);
        }
      } else if deviceRevision == REVISION_B {
        if !(dot.vectorLength == 8 || dot.vectorLength == 16) {
          return Failed(-EINVAL);
        }
      }
      if dot.timeoutMs == 0 || dot.timeoutMs > 1000 {
        return Failed(-EINVAL);
      }
      reply := RunValidated(dot);
    }

    // -------------------------------------------------------------- SET_FAULT, GET_STAT, GET_INFO

    method IoctlSetFault(mask: u32) returns (reply: Reply)
      requires device.Valid() && mutex.Free?
      modifies this, device, device.inputA, device.inputB
      ensures Carried(old(Sys()), SetFault(mask), reply)
      ensures AtRest(State(old(Sys()), [User])) ==>
                if mask in {0, 1, 2, 4, 8}
                then reply == Success && Sys().dev.faultControl == mask
                else reply == Failed(-22) && Unchanged(old(Sys()), Sys())
    {
      ghost var s0 := Sys();
      reply := SetFaultCall(mask);
      hide Sys, Follows, AtRest, MaskRejected, FaultOf;
      AcceptedMasks(mask);
      FollowsRun();
      if AtRest(State(s0, [User])) {
        CalmReturns(s0, SetFault(mask), trace, reply, Sys());
      }
    }

    method SetFaultCall(mask: u32) returns (reply: Reply)
      requires device.Valid() && mutex.Free?
      modifies this, device, device.inputA, device.inputB
      ensures Carried(old(Sys()), SetFault(mask), reply)
    {
      Enter(SetFault(mask));
      hide And, Complement;
      if And(mask, if mask == 0 then 0xFFFF_FFFF else mask - 1) != 0 {
        return Failed(-EINVAL);
      }
      if And(mask, Complement(0xF)) != 0 {
        return Failed(-EINVAL);
      }
      WriteFault(mask);
      reply := Success;
    }

    method WriteFault(mask: u32)
      requires Follows() && point == Faulting(mask, FaultLock) && Sys().holder.Free?
      modifies this, device, device.inputA, device.inputB
      ensures Follows() && entry == old(entry) && point == Returned(Success)
    {
      hide Sys, Follows, Write, LowNibble;
      Preempt();
      Lock();
      Preempt();
      WriteRegister(0x180, LowNibble(mask));
      Preempt();
      Unlock();
    }

    /** A counter has been read, without the mutex. */
    ghost method Sampled()
      requires Follows() && point.Reading?
      modifies this`trace, this`point
      ensures Follows() && point == StatStep(Sys(), old(point).sp)
      ensures Sys().counters == Counters(submittedNum, completedNum, timedOutNum, deviceErrorNum, resetNum)
    {
      hide StatStep;
      Step(Sys());
    }

    method ReadEndings() returns (timedOut: nat, completed: nat, errors: nat)
      requires Follows() && point == Reading(ReadTimedOut)
      modifies this, device, device.inputA, device.inputB
      ensures Follows() && entry == old(entry) && point == Reading(ReadSubmitted(timedOut, completed, errors))
    {
      hide Sys, Follows;
      Preempt();
      timedOut := timedOutNum;
      Sampled();
      Preempt();
      completed := completedNum;
      Sampled();
      Preempt();
      errors := deviceErrorNum;
      Sampled();
    }

    method ReadAll() returns (reply: Reply)
      requires Follows() && point == Reading(ReadTimedOut)
      modifies this, device, device.inputA, device.inputB
      ensures Follows() && entry == old(entry) && point == Returned(reply)
    {
      hide Sys, Follows;
      var timedOut, completed, errors := ReadEndings();
      Preempt();
      var submitted := submittedNum;
      Sampled();
      Preempt();
      var resets := resetNum;
      Sampled();
      reply := Snapshot(Counters(submitted, completed, timedOut, errors, resets));
    }

    method IoctlGetStat() returns (reply: Reply)
      requires device.Valid()
      modifies this, device, device.inputA, device.inputB
      ensures Carried(old(Sys()), GetStat, reply)
      ensures AtRest(State(old(Sys()), [User])) ==> reply == Snapshot(old(Sys()).counters)
    {
      ghost var s0 := Sys();
      hide Sys, Follows, AtRest;
      Enter(GetStat);
      reply := ReadAll();
      FollowsRun();
      if AtRest(State(s0, [User])) {
        CalmReturns(s0, GetStat, trace, reply, Sys());
      }
    }

    method IoctlGetInfo() returns (reply: Reply)
      requires device.Valid()
      modifies this, device, device.inputA, device.inputB
      ensures Carried(old(Sys()), GetInfo, reply) && reply == Info(1, 0x564E5055)
    {
      Enter(GetInfo);
      var id := Peek(0x000);
      reply := Info(1, id);
    }
  }
}
