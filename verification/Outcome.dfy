/** The answer of one RUN_DOT, for every interleaving with the timer, the handler, time and the other
    clients: what the device and the request were when the mutex was taken decides it.
 */
module Outcome {
  import opened Words
  import opened Lanes
  import opened Device
  import opened DeviceInvariant
  import opened DeviceFacts
  import opened Machine
  import opened Protocol
  import opened Accounting

  datatype Verdict = Value(result: int32) | TimesOut | Fails(code: int)

  /** What an operation on an idle device comes to, per injected fault. */
  function OperationVerdict(fault: u32, dot: int32): Verdict {
    if fault == FAULT_IRQ_DROP || fault == FAULT_STUCK_BUSY then TimesOut
    else if fault == FAULT_CORRUPT_RESULT then Value(FlipLowBit(dot))
    else if fault == FAULT_FORCE_ERROR then Fails(-EIO)
    else Value(dot)
  }

  /** The verdict on a request, from the registers found when the mutex is taken. A device left in ERROR
      or DONE by an earlier call refuses the START. */
  function Expected(d: Dev, req: Request): Verdict {
    match d.status
    case Idle => OperationVerdict(d.faultControl, OperandDot(req.input, req.vectorLength))
    case Error => Fails(ErrorReturn(d.errCode))
    case Done => Fails(-EBUSY)
    case Busy => TimesOut
  }

  function ReplyOf(v: Verdict): Reply {
    match v
    case Value(r) => Delivered(r)
    case TimesOut => Failed(-ETIMEDOUT)
    case Fails(code) => Failed(code)
  }

  /** What a call found when it took the mutex: the device, and whether an old error flag was up. */
  datatype Found = Found(dev: Dev, stale: bool)

  /** When the verdict is the only possible reply. An operation that will answer must be given the time
      the device takes, and an error flag left up must not turn a result into a failure. */
  predicate Determined(found: Found, req: Request) {
    var v := Expected(found.dev, req);
    && (found.dev.status.Idle? && !v.TimesOut? ==> req.timeoutMs >= LATENCY)
    && (found.stale ==> !v.Value?)
  }

  /** The schedule condition on time: a wait is abandoned only when the device has nothing due any more,
      that is, a timer that should have fired has fired and a raised interrupt has been handled. */
  predicate TimelyStep(s: State, a: Action) {
    a.Timeout? ==>
      && !(s.sys.dev.timer.Running? && s.sys.dev.timer.deadline <= s.sys.now)
      && s.sys.dev.irqStatus == NO_FLAGS
  }

  predicate Timely(s: State, acts: seq<Action>)
    requires Legal(s, acts)
    decreases acts
  {
    acts == [] || (TimelyStep(s, acts[0]) && Timely(Apply(s, acts[0]), acts[1..]))
  }

  // ---------------------------------------------------------------- following one call

  /** The input words written before point `(k, second)` of the copy loop. */
  predicate Copied(d: Dev, input: Operands, k: nat, second: bool) {
    && (forall m :: 0 <= m < 4 && m < k ==> d.input.a[m] == input.a[m] && d.input.b[m] == input.b[m])
    && (second && k < 4 ==> d.input.a[k] == input.a[k])
  }

  predicate Loaded(d: Dev, req: Request) {
    Copied(d, req.input, WordCount(req.vectorLength), false)
  }

  predicate Unstarted(d0: Dev, d: Dev) {
    d.status == d0.status && d.errCode == d0.errCode && d.faultControl == d0.faultControl
  }

  /** The error flag is down, or is an old one that cannot be taken for this call's. */
  predicate Harmless(d0: Found, s: Sys, req: Request) {
    s.errorFlag ==> d0.stale && !Expected(d0.dev, req).Value?
  }

  /** Where the answer is, in each phase of the operation. */
  predicate Answering(d0: Found, s: Sys, req: Request) {
    var v := Expected(d0.dev, req);
    if s.dev.timer.Running? then
      && d0.dev.status.Idle? && s.dev.faultControl == d0.dev.faultControl
      && Loaded(s.dev, req) && s.dev.vecLen == req.vectorLength && Harmless(d0, s, req)
    else if s.dev.irqStatus != NO_FLAGS then
      && Harmless(d0, s, req)
      && (if s.dev.irqStatus.error then v == Fails(ErrorReturn(s.dev.errCode)) else v == Value(s.dev.result))
    else if s.done > 0 then Answered(s, v)
    else v == TimesOut && Harmless(d0, s, req)
  }

  predicate Answered(s: Sys, v: Verdict) {
    if s.errorFlag then v == Fails(ErrorReturn(s.deviceError)) else v == Value(s.dev.result)
  }

  /** A wait given up: whatever is still running ends without an interrupt. */
  predicate Abandoned(d0: Found, s: Sys) {
    && s.dev.irqStatus == NO_FLAGS
    && (s.dev.timer.Running? ==> d0.dev.status.Idle? && s.dev.faultControl == d0.dev.faultControl)
  }

  predicate Track(d0: Found, s: Sys, req: Request, at: RunPoint) {
    var v := Expected(d0.dev, req);
    match at
    case AtLock => false
    case AtReinit => Unstarted(d0.dev, s.dev) && Harmless(d0, s, req)
    case AtClear => Unstarted(d0.dev, s.dev) && Harmless(d0, s, req)
    case AtEnable => Unstarted(d0.dev, s.dev) && Harmless(d0, s, req)
    case AtCopy(k, second) => Unstarted(d0.dev, s.dev) && Harmless(d0, s, req) && Copied(s.dev, req.input, k, second)
    case AtLength => Unstarted(d0.dev, s.dev) && Harmless(d0, s, req) && Loaded(s.dev, req)
    case AtStart =>
      && Unstarted(d0.dev, s.dev) && Harmless(d0, s, req)
      && Loaded(s.dev, req) && s.dev.vecLen == req.vectorLength
    case AtCount => Answering(d0, s, req) && (s.dev.timer.Running? ==> s.dev.timer.deadline <= s.now + LATENCY)
    case AtWait(expiry) =>
      Answering(d0, s, req) && (s.dev.timer.Running? && !v.TimesOut? ==> s.dev.timer.deadline <= expiry)
    case AtTimeoutReset => v == TimesOut && Harmless(d0, s, req) && Abandoned(d0, s)
    case AtTimeoutCount => v == TimesOut && Harmless(d0, s, req)
    case AtTimeoutUnlock => v == TimesOut && Harmless(d0, s, req)
    case AtCheck => Answered(s, v)
    case AtErrorUnlock => s.errorFlag && v == Fails(ErrorReturn(s.deviceError))
    case AtErrorReturn => s.errorFlag && v == Fails(ErrorReturn(s.deviceError))
    case AtResult => !s.errorFlag && v == Value(s.dev.result)
    case AtCountDone(r) => !s.errorFlag && v == Value(r)
    case AtUnlock(r) => !s.errorFlag && v == Value(r)
  }

  /** The call is on its way to the expected reply, or has returned it. */
  predicate OnCourse(d0: Found, s: Sys, req: Request, c: Client) {
    match c
    case Run(r, at) => r == req && Track(d0, s, req, at)
    case Returned(reply) => reply == ReplyOf(Expected(d0.dev, req))
    case _ => false
  }

  // ---------------------------------------------------------------- the call's own steps

  lemma TrackPrepare(d0: Found, s: Sys, i: nat, req: Request, at: RunPoint)
    requires Global(s) && Local(s, i, Run(req, at)) && CanRun(s, at) && Track(d0, s, req, at)
    requires at.AtReinit? || at.AtClear? || at.AtEnable? || at.AtLength?
    ensures var (s', c') := RunStep(s, i, req, at); OnCourse(d0, s', req, c')
  {
    hide Write, Reachable, Quiet;
    AcceptedLength(s, req);
    Acknowledge(s.dev, s.now);
    Listen(s.dev, s.now);
    ReachableParts(s.dev);
    SelectLength(s.dev, req.vectorLength, s.now);
  }

  lemma TrackCopy(d0: Found, s: Sys, i: nat, req: Request, at: RunPoint)
    requires Global(s) && Local(s, i, Run(req, at)) && CanRun(s, at) && Track(d0, s, req, at) && at.AtCopy?
    ensures var (s', c') := RunStep(s, i, req, at); OnCourse(d0, s', req, c')
  {
    hide Write, Reachable, Quiet;
    AcceptedLength(s, req);
    if at.second {
      CopyWord(s.dev, at.index, req.input.b[at.index], s.now);
    } else {
      CopyWord(s.dev, at.index, req.input.a[at.index], s.now);
    }
  }

  lemma TrackStart(d0: Found, s: Sys, i: nat, req: Request)
    requires Global(s) && Local(s, i, Run(req, AtStart)) && Track(d0, s, req, AtStart)
    ensures var (s', c') := RunStep(s, i, req, AtStart); OnCourse(d0, s', req, c')
  {
    hide Write, Reachable, OperandDot;
    StartWrite(s.dev, s.now);
  }

  lemma TrackFinish(d0: Found, s: Sys, i: nat, req: Request, at: RunPoint)
    requires Global(s) && Local(s, i, Run(req, at)) && CanRun(s, at) && Track(d0, s, req, at)
    requires !Preparing(at) && Determined(d0, req)
    ensures var (s', c') := RunStep(s, i, req, at); OnCourse(d0, s', req, c')
  {
    hide Write, Reachable, Expected, Copied, Outstanding, Quiet, AfterRead, ReadValue;
    StatusRead(s.dev);
    SignedImage(s.dev.result);
  }

  lemma TrackWake(d0: Found, s: Sys, i: nat, req: Request, at: RunPoint)
    requires Local(s, i, Run(req, at)) && CanWake(s, Run(req, at)) && Track(d0, s, req, at)
    ensures Track(d0, Woken(s), req, AtCheck)
  {
    hide Expected, Copied;
  }

  /** An expiry with nothing due means the operation ended without an interrupt. */
  lemma TrackTimeout(d0: Found, s: Sys, i: nat, req: Request, at: RunPoint)
    requires Local(s, i, Run(req, at)) && CanTimeout(s, Run(req, at)) && Track(d0, s, req, at)
    requires !(s.dev.timer.Running? && s.dev.timer.deadline <= s.now) && s.dev.irqStatus == NO_FLAGS
    ensures Track(d0, s.(expired := true), req, AtTimeoutReset)
  {
    hide Expected, Copied;
  }

  // ---------------------------------------------------------------- the environment

  /** The device computes on exactly the lanes the driver copied. */
  lemma LoadedDot(d: Dev, req: Request)
    requires Loaded(d, req) && d.vecLen == req.vectorLength
    requires req.vectorLength == 8 || req.vectorLength == 16
    ensures ResultOf(d) == OperandDot(req.input, req.vectorLength)
  {
    if req.vectorLength == 8 {
      LowWordsOnly(d.input.a, d.input.b, req.input.a, req.input.b, 8);
    } else {
      assert d.input.a == req.input.a && d.input.b == req.input.b;
    }
    hide LaneDot;
  }

  lemma TrackExpire(d0: Found, s: Sys, i: nat, req: Request, at: RunPoint)
    requires Global(s) && Local(s, i, Run(req, at)) && s.holder == Held(i) && s.dev.timer.Running?
    requires Track(d0, s, req, at) && (at.AtCount? || at.AtWait? || at.AtTimeoutReset?)
    ensures Track(d0, s.(dev := Fire(s.dev)), req, at)
  {
    AcceptedLength(s, req);
    if !at.AtTimeoutReset? {
      LoadedDot(s.dev, req);
    }
    ReachableParts(s.dev);
    FireEnds(s.dev);
    hide Fire, Reachable, ResultOf, OperandDot, Copied;
  }

  lemma TrackHandle(d0: Found, s: Sys, i: nat, req: Request, at: RunPoint)
    requires Local(s, i, Run(req, at)) && s.holder == Held(i) && s.dev.irqStatus != NO_FLAGS
    requires Track(d0, s, req, at) && (at.AtCount? || at.AtWait?)
    ensures Track(d0, Handler(s), req, at)
  {
    RaisedHandler(s);
    hide Handler, Expected, Copied;
  }

  /** Only an operation under way has a running timer or a raised interrupt. */
  lemma ActivityMeansAwaiting(s: Sys, i: nat, c: Client)
    requires Global(s) && Local(s, i, c) && s.holder == Held(i)
    requires s.dev.timer.Running? || s.dev.irqStatus != NO_FLAGS
    ensures Awaiting(c)
  {}

  // ---------------------------------------------------------------- the others

  /** No step of a client outside RUN_DOT touches the error bookkeeping. */
  lemma PassiveErrors(s: Sys, i: nat, c: Client)
    requires CanGo(s, c) && !c.Run?
    ensures var (s', c') := ClientStep(s, i, c);
            s'.errorFlag == s.errorFlag && s'.deviceError == s.deviceError && s'.now == s.now
  {
    hide Write, ReadValue, LowNibble;
  }

  lemma TrackPassive(d0: Found, s: Sys, s': Sys, i: nat, req: Request, at: RunPoint)
    requires Local(s, i, Run(req, at)) && Track(d0, s, req, at)
    requires s'.errorFlag == s.errorFlag && s'.deviceError == s.deviceError && s'.now == s.now
    requires s.holder == Held(i) ==> s'.dev == s.dev && s'.done == s.done
    ensures Track(d0, s', req, at)
  {
    hide Expected, Copied;
  }

  lemma TrackTick(d0: Found, s: Sys, req: Request, at: RunPoint, ms: nat)
    requires Track(d0, s, req, at)
    ensures Track(d0, s.(now := s.now + ms), req, at)
  {
    hide Expected, Copied;
  }

  // ---------------------------------------------------------------- every step, every run

  lemma OneActiveKeeps(s: State, a: Action)
    requires OneActive(s) && Enabled(s, a) && SerialStep(s, a)
    ensures OneActive(Apply(s, a))
  {
    hide ResetStep, FaultStep, StatStep, Handler, Fire, MaskRejected, ReadValue, Write, RequestAccepted;
    match a {
      case Go(i) => StepActivity(s.sys, i, s.clients[i]);
      case _ =>
    }
    hide ClientStep;
  }

  lemma StepActivity(s: Sys, i: nat, c: Client)
    requires CanGo(s, c)
    ensures Active(ClientStep(s, i, c).1) ==> c.Run?
  {
    hide Write, ReadValue, AfterRead;
  }

  predicate Followed(d0: Found, s: State, i: nat, req: Request) {
    && Inv(s) && OneActive(s) && i < |s.clients|
    && OnCourse(d0, s.sys, req, s.clients[i])
  }

  lemma OwnStep(d0: Found, s: State, i: nat, req: Request, a: Action)
    requires Followed(d0, s, i, req) && Enabled(s, a) && TimelyStep(s, a) && Determined(d0, req)
    requires a == Go(i) || a == Wake(i) || a == Timeout(i)
    ensures OnCourse(d0, Apply(s, a).sys, req, Apply(s, a).clients[i])
  {
    hide Global, Local, Track, RunStep, Expected;
    var c := s.clients[i];
    assert Local(s.sys, i, c);
    match a {
      case Go(_) =>
        if c.at.AtCopy? {
          TrackCopy(d0, s.sys, i, req, c.at);
        } else if c.at.AtStart? {
          TrackStart(d0, s.sys, i, req);
        } else if Preparing(c.at) {
          TrackPrepare(d0, s.sys, i, req, c.at);
        } else {
          TrackFinish(d0, s.sys, i, req, c.at);
        }
      case Wake(_) => TrackWake(d0, s.sys, i, req, c.at);
      case Timeout(_) => TrackTimeout(d0, s.sys, i, req, c.at);
    }
  }

  lemma OthersStep(d0: Found, s: State, i: nat, req: Request, a: Action)
    requires Followed(d0, s, i, req) && Enabled(s, a) && SerialStep(s, a)
    requires a.Go? && a.i != i && Active(s.clients[i])
    ensures OnCourse(d0, Apply(s, a).sys, req, s.clients[i])
  {
    hide Global, Local, Track, Expected, ClientStep;
    var j := a.i;
    assert Local(s.sys, i, s.clients[i]) && Local(s.sys, j, s.clients[j]);
    if s.clients[j].Run? {
      ActiveOnly(s, i);
      assert false;
    }
    PassiveErrors(s.sys, j, s.clients[j]);
    ClientKeeps(s.sys, j, s.clients[j]);
    TrackPassive(d0, s.sys, Apply(s, a).sys, i, req, s.clients[i].at);
  }

  lemma WaitersAreActive(s: State, i: nat, a: Action)
    requires OneActive(s) && i < |s.clients| && Active(s.clients[i]) && Enabled(s, a)
    requires a.Wake? || a.Timeout?
    ensures a.i == i
  {
    ActiveOnly(s, i);
  }

  lemma DeviceStep(d0: Found, s: State, i: nat, req: Request, a: Action)
    requires Followed(d0, s, i, req) && Enabled(s, a) && (a.Expire? || a.Handle?) && Active(s.clients[i])
    ensures OnCourse(d0, Apply(s, a).sys, req, s.clients[i])
  {
    hide Global, Local, Track, Expected;
    var c := s.clients[i];
    assert Local(s.sys, i, c);
    ActiveOnly(s, i);
    if s.sys.dev.timer.Stopped? && s.sys.dev.irqStatus == NO_FLAGS {
      StoppedHandler(s);
    } else if s.sys.holder.Free? {
      FreeIsQuiet(s.sys);
      assert false;
    } else {
      var j := s.sys.holder.client;
      assert Local(s.sys, j, s.clients[j]);
      ActivityMeansAwaiting(s.sys, j, s.clients[j]);
      if a.Expire? {
        TrackExpire(d0, s.sys, i, req, c.at);
      } else if s.sys.dev.irqStatus != NO_FLAGS {
        NotExpired(d0, s.sys, req, c.at);
        TrackHandle(d0, s.sys, i, req, c.at);
      } else {
        LineDown(s.sys);
        IdleHandler(s.sys);
      }
    }
  }

  lemma StoppedHandler(s: State)
    requires Inv(s) && s.sys.dev.irqStatus == NO_FLAGS
    ensures Handler(s.sys) == s.sys
  {
    LineDown(s.sys);
    IdleHandler(s.sys);
  }

  /** A wait that was given up in time has no interrupt left to come. */
  lemma NotExpired(d0: Found, s: Sys, req: Request, at: RunPoint)
    requires Track(d0, s, req, at) && s.dev.irqStatus != NO_FLAGS
    ensures !at.AtTimeoutReset?
  {}

  lemma StepOnCourse(d0: Found, s: State, i: nat, req: Request, a: Action)
    requires Followed(d0, s, i, req) && Enabled(s, a) && SerialStep(s, a) && TimelyStep(s, a)
    requires Determined(d0, req) && a != Return(i)
    ensures Followed(d0, Apply(s, a), i, req)
  {
    hide Inv, OneActive, Track, Expected;
    StepKeeps(s, a);
    OneActiveKeeps(s, a);
    var c := s.clients[i];
    if c.Returned? {
      ReturnedStays(s, a, i);
    } else {
      TrackedIsActive(d0, s.sys, req, c);
      match a {
        case Go(j) => if j == i { OwnStep(d0, s, i, req, a); } else { OthersStep(d0, s, i, req, a); }
        case Wake(j) =>
          WaitersAreActive(s, i, a);
          OwnStep(d0, s, i, req, a);
        case Timeout(j) =>
          WaitersAreActive(s, i, a);
          OwnStep(d0, s, i, req, a);
        case Expire => DeviceStep(d0, s, i, req, a);
        case Handle => DeviceStep(d0, s, i, req, a);
        case Tick(ms) => TrackTick(d0, s.sys, req, c.at, ms);
        case Call(_, _) =>
        case Return(_) =>
      }
    }
  }

  lemma TrackedIsActive(d0: Found, s: Sys, req: Request, c: Client)
    requires OnCourse(d0, s, req, c) && !c.Returned?
    ensures Active(c)
  {}

  lemma ReturnedStays(s: State, a: Action, i: nat)
    requires Enabled(s, a) && i < |s.clients| && s.clients[i].Returned? && a != Return(i)
    ensures i < |Apply(s, a).clients| && Apply(s, a).clients[i] == s.clients[i]
  {
    hide ClientStep, Handler, Fire, MaskRejected;
  }

  lemma {:induction false} RunOnCourse(d0: Found, s: State, i: nat, req: Request, acts: seq<Action>)
    requires Followed(d0, s, i, req) && Legal(s, acts) && Serial(s, acts) && Timely(s, acts)
    requires Determined(d0, req) && Return(i) !in acts
    ensures Followed(d0, Execute(s, acts), i, req)
    decreases acts
  {
    hide Followed, Apply, Enabled, SerialStep, TimelyStep;
    if acts != [] {
      StepOnCourse(d0, s, i, req, acts[0]);
      RunOnCourse(d0, Apply(s, acts[0]), i, req, acts[1..]);
    }
  }

  // ---------------------------------------------------------------- the main result

  function FoundBy(s: Sys): Found {
    Found(s.dev, s.errorFlag)
  }

  /** From the moment a RUN_DOT has taken the mutex and its verdict is determined, every serial and
      timely schedule that completes the call gives the expected reply, whatever the other clients do
      meanwhile. */
  lemma RunDotOutcome(s0: State, before: seq<Action>, after: seq<Action>, i: nat)
    requires Initial(s0) && s0.sys.repaired && Legal(s0, before) && Serial(s0, before)
    requires var s := Execute(s0, before);
             && i < |s.clients| && s.clients[i].Run? && s.clients[i].at.AtReinit?
             && Determined(FoundBy(s.sys), s.clients[i].req)
             && Legal(s, after) && Serial(s, after) && Timely(s, after) && Return(i) !in after
    ensures var s := Execute(s0, before);
            var s' := Execute(s, after);
            i < |s'.clients| && (s'.clients[i].Returned? ==>
              s'.clients[i].reply == ReplyOf(Expected(s.sys.dev, s.clients[i].req)))
  {
    InitialInv(s0);
    InitialLedger(s0);
    RunBooksOn(s0, before);
    var s := Execute(s0, before);
    RunOnCourse(FoundBy(s.sys), s, i, s.clients[i].req, after);
  }
}
