/** The driver of linux-driver/src/vnpu_drv.c as a transition system: any number of clients inside
    `vnpu_ioctl`, each at a program point, interleaved with the device timer, the interrupt handler and
    the passing of time. Every register access and every update of a driver field is a step of its own;
    the interrupt handler runs as one step.

    `repaired` selects between the driver as written, where the local `vec_len` of RUN_DOT stays 0, and
    the driver as evidently meant, where it is the validated length of the request.
 */
module Machine {
  import opened Words
  import opened Device

  const EIO: int := 5
  const EBUSY: int := 16
  const EINVAL: int := 22
  const EOPNOTSUPP: int := 95
  const ETIMEDOUT: int := 110

  const IRQ_ALL: u32 := 3

  datatype Counters = Counters(submitted: nat, completed: nat, timedOut: nat, deviceErrors: nat, resets: nat)

  datatype Owner = Free | Held(client: nat)

  /** Everything the clients share. `expired` and `late` are history: whether the current wait has
      expired without its RESET being written yet, and how many error interrupts arrived in that window. */
  datatype Sys = Sys(
    dev: Dev, now: int, holder: Owner,
    done: nat, errorFlag: bool, deviceError: u32, counters: Counters, revision: u32,
    expired: bool, late: nat, repaired: bool)

  datatype Request = Request(abiVersion: u32, vectorLength: u32, timeoutMs: u32, input: Operands)

  datatype Command = RunDot(req: Request) | ResetDevice | SetFault(mask: u32) | GetStat | GetInfo

  datatype Reply =
    | Failed(code: int)
    | Success
    | Delivered(result: int32)
    | Snapshot(counters: Counters)
    | Info(abiVersion: u32, deviceId: u32)

  datatype RunPoint =
    | AtLock | AtReinit | AtClear | AtEnable | AtCopy(index: nat, second: bool) | AtLength | AtStart | AtCount
    | AtWait(expiry: int)
    | AtTimeoutReset | AtTimeoutCount | AtTimeoutUnlock
    | AtCheck | AtErrorUnlock | AtErrorReturn
    | AtResult | AtCountDone(result: int32) | AtUnlock(result: int32)

  datatype ResetPoint =
    | ToLock | ToDisable | ToReset | ToClear | ToStatus | ToIrqStatus(status: u32) | ToError(status: u32, irq: u32)
    | ToVerify(status: u32, irq: u32, error: u32) | ToReinit | ToCount | ToUnlock(code: int)

  datatype FaultPoint = FaultLock | FaultWrite | FaultUnlock

  datatype StatPoint =
    | ReadTimedOut
    | ReadCompleted(timedOut: nat)
    | ReadErrors(timedOut: nat, completed: nat)
    | ReadSubmitted(timedOut: nat, completed: nat, errors: nat)
    | ReadResets(timedOut: nat, completed: nat, errors: nat, submitted: nat)

  datatype Client =
    | User
    | Run(req: Request, at: RunPoint)
    | Resetting(to: ResetPoint)
    | Faulting(mask: u32, fp: FaultPoint)
    | Reading(sp: StatPoint)
    | Returned(reply: Reply)

  datatype State = State(sys: Sys, clients: seq<Client>)

  datatype Action =
    | Call(i: nat, cmd: Command)
    | Go(i: nat)
    | Wake(i: nat)
    | Timeout(i: nat)
    | Return(i: nat)
    | Expire
    | Handle
    | Tick(ms: nat)

  // ---------------------------------------------------------------- register access from the driver

  function Writel(s: Sys, val: u32, addr: nat): Sys {
    s.(dev := Write(s.dev, addr, val, s.now))
  }

  function Readl(s: Sys, addr: nat): u32 {
    ReadValue(s.dev, addr)
  }

  // ---------------------------------------------------------------- the interrupt handler

  /** `vnpu_irq_handler`. The line is shared, so it may be called when nothing is pending. */
  function Handler(s: Sys): Sys {
    var irq := FlagsOf(Readl(s, 0x014));
    var s1 := Writel(s, IRQ_ALL, 0x014);
    if irq == NO_FLAGS then s1
    else
      var s2 := if irq.error then Reported(s1) else s1;
      s2.(done := s2.done + 1)
  }

  /** The bookkeeping of an error interrupt. */
  function Reported(s: Sys): Sys {
    s.(deviceError := Readl(s, 0x01C),
       counters := s.counters.(deviceErrors := s.counters.deviceErrors + 1),
       errorFlag := true,
       late := if s.expired then s.late + 1 else s.late)
  }

  // ---------------------------------------------------------------- entering an ioctl

  predicate RequestAccepted(s: Sys, req: Request) {
    && req.abiVersion == 1
    && (s.revision == REVISION_A ==> req.vectorLength == 8)
    && (s.revision == REVISION_B ==> req.vectorLength == 8 || req.vectorLength == 16)
    && 0 < req.timeoutMs <= 1000
  }

  /** Which requests are taken, in numbers. */
  lemma RequestAcceptedIff(s: Sys, req: Request)
    requires s.revision == 1 || s.revision == 2
    ensures RequestAccepted(s, req) <==>
            && req.abiVersion == 1 && 1 <= req.timeoutMs <= 1000
            && (req.vectorLength == 8 || (s.revision == 2 && req.vectorLength == 16))
  {}

  /** More than one bit, or a bit above the low four. */
  predicate MaskRejected(mask: u32) {
    And(mask, if mask == 0 then 0xFFFF_FFFF else mask - 1) != 0 || And(mask, Complement(0xF)) != 0
  }

  /** Up to the first point that touches shared state: argument checks, and the whole of GET_INFO. */
  function Entered(s: Sys, cmd: Command): Client {
    match cmd
    case RunDot(req) => if RequestAccepted(s, req) then Run(req, AtLock) else Returned(Failed(-EINVAL))
    case ResetDevice => Resetting(ToLock)
    case SetFault(mask) => if MaskRejected(mask) then Returned(Failed(-EINVAL)) else Faulting(mask, FaultLock)
    case GetStat => Reading(ReadTimedOut)
    case GetInfo => Returned(Info(1, Readl(s, 0x000)))
  }

  /** A refused request comes back with -EINVAL and has touched nothing. */
  lemma RefusedRequest(s: State, i: nat, req: Request)
    requires i < |s.clients| && s.clients[i].User? && !RequestAccepted(s.sys, req)
    ensures Enabled(s, Call(i, RunDot(req)))
    ensures Apply(s, Call(i, RunDot(req))) == State(s.sys, s.clients[i := Returned(Failed(-22))])
  {}

  // ---------------------------------------------------------------- one step of a client

  function ErrorReturn(deviceError: u32): int {
    if deviceError == 1 then -EINVAL
    else if deviceError == 2 then -EBUSY
    else if deviceError == 3 then -EIO
    else if deviceError == 4 then -EOPNOTSUPP
    else -EIO
  }

  /** The codes a device error turns into. */
  lemma ErrorCodes(deviceError: u32)
    ensures ErrorReturn(deviceError) ==
            if deviceError == 1 then -22 else if deviceError == 2 then -16 else if deviceError == 4 then -95 else -5
  {}

  function VecLen(s: Sys, req: Request): u32 {
    if s.repaired then req.vectorLength else 0
  }

  function WordCount(vecLen: u32): nat {
    if vecLen == 8 then 2 else 4
  }

  predicate CanRun(s: Sys, at: RunPoint) {
    (at.AtLock? ==> s.holder.Free?) && !at.AtWait? && (at.AtCopy? ==> at.index < 4)
  }

  function RunStep(s: Sys, i: nat, req: Request, at: RunPoint): (Sys, Client)
    requires CanRun(s, at)
  {
    match at
    case AtLock => (s.(holder := Held(i)), Run(req, AtReinit))
    case AtReinit => (s.(done := 0), Run(req, AtClear))
    case AtClear => (Writel(s, IRQ_ALL, 0x014), Run(req, AtEnable))
    case AtEnable =>
      (Writel(s, IRQ_ALL, 0x018),
       if VecLen(s, req) == 8 || VecLen(s, req) == 16 then Run(req, AtCopy(0, false))
       else Returned(Failed(-EINVAL)))
    case AtCopy(k, false) => (Writel(s, req.input.a[k], 0x100 + 4 * k), Run(req, AtCopy(k, true)))
    case AtCopy(k, true) =>
      (Writel(s, req.input.b[k], 0x120 + 4 * k),
       Run(req, if k + 1 < WordCount(VecLen(s, req)) then AtCopy(k + 1, false) else AtLength))
    case AtLength => (Writel(s, req.vectorLength, 0x024), Run(req, AtStart))
    case AtStart => (Writel(s, 1, 0x00C), Run(req, AtCount))
    case AtCount =>
      (s.(counters := s.counters.(submitted := s.counters.submitted + 1)), Run(req, AtWait(s.now + req.timeoutMs)))
    case AtTimeoutReset => (Writel(s, 2, 0x00C).(expired := false), Run(req, AtTimeoutCount))
    case AtTimeoutCount =>
      (s.(counters := s.counters.(timedOut := s.counters.timedOut + 1)), Run(req, AtTimeoutUnlock))
    case AtTimeoutUnlock => (s.(holder := Free), Returned(Failed(-ETIMEDOUT)))
    case AtCheck => (s, Run(req, if s.errorFlag then AtErrorUnlock else AtResult))
    case AtErrorUnlock => (s.(holder := Free), Run(req, AtErrorReturn))
    case AtErrorReturn => (s.(errorFlag := false), Returned(Failed(ErrorReturn(s.deviceError))))
    case AtResult =>
      (s.(dev := AfterRead(s.dev, 0x140)), Run(req, AtCountDone(Signed(Readl(s, 0x140)))))
    case AtCountDone(result) =>
      (s.(counters := s.counters.(completed := s.counters.completed + 1)), Run(req, AtUnlock(result)))
    case AtUnlock(result) => (s.(holder := Free), Returned(Delivered(result)))
  }

  predicate CanReset(s: Sys, to: ResetPoint) {
    to.ToLock? ==> s.holder.Free?
  }

  /** The RESET ioctl around `vnpu_hw_reset`. */
  function ResetStep(s: Sys, i: nat, to: ResetPoint): (Sys, Client)
    requires CanReset(s, to)
  {
    match to
    case ToLock => (s.(holder := Held(i)), Resetting(ToDisable))
    case ToDisable => (Writel(s, 0, 0x018), Resetting(ToReset))
    case ToReset => (Writel(s, 2, 0x00C), Resetting(ToClear))
    case ToClear => (Writel(s, IRQ_ALL, 0x014), Resetting(ToStatus))
    case ToStatus => (s, Resetting(ToIrqStatus(Readl(s, 0x010))))
    case ToIrqStatus(status) => (s, Resetting(ToError(status, Readl(s, 0x014))))
    case ToError(status, irq) => (s, Resetting(ToVerify(status, irq, Readl(s, 0x01C))))
    case ToVerify(status, irq, error) =>
      (s, Resetting(if status != 0 || FlagsOf(irq) != NO_FLAGS || error != 0 then ToUnlock(-EIO) else ToReinit))
    case ToReinit => (s.(done := 0), Resetting(ToCount))
    case ToCount => (s.(counters := s.counters.(resets := s.counters.resets + 1)), Resetting(ToUnlock(0)))
    case ToUnlock(code) => (s.(holder := Free), Returned(if code == 0 then Success else Failed(code)))
  }

  predicate CanFault(s: Sys, fp: FaultPoint) {
    fp.FaultLock? ==> s.holder.Free?
  }

  function FaultStep(s: Sys, i: nat, mask: u32, fp: FaultPoint): (Sys, Client)
    requires CanFault(s, fp)
  {
    match fp
    case FaultLock => (s.(holder := Held(i)), Faulting(mask, FaultWrite))
    case FaultWrite => (Writel(s, LowNibble(mask), 0x180), Faulting(mask, FaultUnlock))
    case FaultUnlock => (s.(holder := Free), Returned(Success))
  }

  /** GET_STAT reads the five counters one by one, without the mutex. */
  function StatStep(s: Sys, sp: StatPoint): Client {
    match sp
    case ReadTimedOut => Reading(ReadCompleted(s.counters.timedOut))
    case ReadCompleted(t) => Reading(ReadErrors(t, s.counters.completed))
    case ReadErrors(t, c) => Reading(ReadSubmitted(t, c, s.counters.deviceErrors))
    case ReadSubmitted(t, c, e) => Reading(ReadResets(t, c, e, s.counters.submitted))
    case ReadResets(t, c, e, n) => Returned(Snapshot(Counters(n, c, t, e, s.counters.resets)))
  }

  predicate CanGo(s: Sys, c: Client) {
    match c
    case Run(_, at) => CanRun(s, at)
    case Resetting(to) => CanReset(s, to)
    case Faulting(_, fp) => CanFault(s, fp)
    case Reading(_) => true
    case User => false
    case Returned(_) => false
  }

  function ClientStep(s: Sys, i: nat, c: Client): (Sys, Client)
    requires CanGo(s, c)
  {
    match c
    case Run(req, at) => RunStep(s, i, req, at)
    case Resetting(to) => ResetStep(s, i, to)
    case Faulting(mask, fp) => FaultStep(s, i, mask, fp)
    case Reading(sp) => (s, StatStep(s, sp))
  }

  // ---------------------------------------------------------------- the wait

  /** The two ways `wait_for_completion_timeout` ends: it consumes a completion, or the time is up and
      there is none. */
  predicate CanWake(s: Sys, c: Client) {
    c.Run? && c.at.AtWait? && s.done > 0
  }

  function Woken(s: Sys): Sys
    requires s.done > 0
  {
    s.(done := s.done - 1)
  }

  predicate CanTimeout(s: Sys, c: Client) {
    c.Run? && c.at.AtWait? && s.done == 0 && s.now >= c.at.expiry
  }

  // ---------------------------------------------------------------- the whole system

  predicate Enabled(s: State, a: Action) {
    match a
    case Call(i, _) => i < |s.clients| && s.clients[i].User?
    case Go(i) => i < |s.clients| && CanGo(s.sys, s.clients[i])
    case Wake(i) => i < |s.clients| && CanWake(s.sys, s.clients[i])
    case Timeout(i) => i < |s.clients| && CanTimeout(s.sys, s.clients[i])
    case Return(i) => i < |s.clients| && s.clients[i].Returned?
    case Expire => s.sys.dev.timer.Running? && s.sys.dev.timer.deadline <= s.sys.now
    case Handle => true
    case Tick(_) => true
  }

  function Apply(s: State, a: Action): State
    requires Enabled(s, a)
  {
    match a
    case Call(i, cmd) => s.(clients := s.clients[i := Entered(s.sys, cmd)])
    case Go(i) =>
      var (sys, c) := ClientStep(s.sys, i, s.clients[i]);
      State(sys, s.clients[i := c])
    case Wake(i) => State(Woken(s.sys), s.clients[i := s.clients[i].(at := AtCheck)])
    case Timeout(i) => State(s.sys.(expired := true), s.clients[i := s.clients[i].(at := AtTimeoutReset)])
    case Return(i) => s.(clients := s.clients[i := User])
    case Expire => s.(sys := s.sys.(dev := Fire(s.sys.dev)))
    case Handle => s.(sys := Handler(s.sys))
    case Tick(ms) => s.(sys := s.sys.(now := s.sys.now + ms))
  }

  predicate Legal(s: State, acts: seq<Action>)
    decreases acts
  {
    acts == [] || (Enabled(s, acts[0]) && Legal(Apply(s, acts[0]), acts[1..]))
  }

  function Execute(s: State, acts: seq<Action>): State
    requires Legal(s, acts)
    decreases acts
  {
    if acts == [] then s else Execute(Apply(s, acts[0]), acts[1..])
  }

  lemma Single(s: State, a: Action)
    requires Enabled(s, a)
    ensures Legal(s, [a]) && Execute(s, [a]) == Apply(s, a)
  {
    hide Enabled, Apply;
    assert [a][1..] == [];
  }

  /** Runs compose. */
  lemma {:induction false} Chain(s: State, first: seq<Action>, last: seq<Action>)
    requires Legal(s, first) && Legal(Execute(s, first), last)
    ensures Legal(s, first + last) && Execute(s, first + last) == Execute(Execute(s, first), last)
    decreases first
  {
    hide Enabled, Apply;
    if first == [] {
      assert first + last == last;
    } else {
      assert (first + last)[1..] == first[1..] + last;
      Chain(Apply(s, first[0]), first[1..], last);
    }
  }

  /** After probe: a device that has just been reset, no call in progress, all counters zero. */
  predicate Initial(s: State) {
    && (s.sys.revision == REVISION_A || s.sys.revision == REVISION_B)
    && s.sys == Sys(Fresh(s.sys.revision), s.sys.now, Free, 0, false, s.sys.deviceError, Counters(0, 0, 0, 0, 0),
                    s.sys.revision, false, 0, s.sys.repaired)
    && forall i :: 0 <= i < |s.clients| ==> s.clients[i].User?
  }
}
