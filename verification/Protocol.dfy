/** What every step of the driver keeps, for any number of clients and any interleaving: mutual
    exclusion, quiescence of the device while the mutex is free, no lost wakeup, and the accounting
    behind the five counters.
 */
module Protocol {
  import opened Words
  import opened Device
  import opened DeviceInvariant
  import opened DeviceFacts
  import opened Machine

  // ---------------------------------------------------------------- the phases of an operation

  /** The device is computing; the completion is still to come. */
  predicate InFlight(s: Sys) {
    s.dev.timer.Running? && s.dev.status.Busy? && s.dev.irqStatus == NO_FLAGS && !s.dev.line && s.done == 0
  }

  /** The interrupt is asserted and the handler has not run yet. */
  predicate Raised(s: Sys) {
    && s.dev.timer.Stopped? && !s.dev.status.Busy? && s.dev.line && s.done == 0
    && (s.dev.irqStatus == IRQ_COMPLETION || s.dev.irqStatus == IRQ_ERROR)
  }

  /** The handler has run; the completion is there to be consumed. */
  predicate Signalled(s: Sys) {
    Quiet(s.dev) && s.done > 0
  }

  /** The operation is over and no interrupt will come: it ended under irq-drop or stuck-busy. */
  predicate Silent(s: Sys) {
    && s.dev.timer.Stopped? && s.dev.irqStatus == NO_FLAGS && !s.dev.line && s.done == 0
    && EndedSilently(s.dev)
  }

  /** How irq-drop and stuck-busy leave the device when they end an operation. */
  predicate EndedSilently(d: Dev) {
    || (d.faultControl == FAULT_IRQ_DROP && d.status.Done?)
    || (d.faultControl == FAULT_STUCK_BUSY && d.status.Busy?)
  }

  /** Between START and the end of the wait an operation is in exactly one of four phases. */
  predicate Outstanding(s: Sys) {
    s.dev.irqEnable == BOTH && (InFlight(s) || Raised(s) || Signalled(s) || Silent(s))
  }

  /** An error interrupt may still be counted for the outstanding operation. */
  predicate Unreported(s: Sys) {
    s.dev.timer.Running? || s.dev.irqStatus != NO_FLAGS
  }

  // ---------------------------------------------------------------- the books

  /** No operation is being accounted for. */
  predicate Settled(k: Counters) {
    k.completed + k.timedOut <= k.submitted && k.deviceErrors <= k.submitted
  }

  /** One submitted operation has not been booked as completed or timed out yet. */
  predicate Open(k: Counters) {
    k.completed + k.timedOut + 1 <= k.submitted && k.deviceErrors <= k.submitted
  }

  predicate OpenUnreported(k: Counters) {
    k.completed + k.timedOut + 1 <= k.submitted && k.deviceErrors + 1 <= k.submitted
  }

  function Submitted(k: Counters): Counters {
    k.(submitted := k.submitted + 1)
  }

  // ---------------------------------------------------------------- the invariant

  /** Between acquiring and releasing the mutex. */
  predicate InSection(c: Client) {
    match c
    case Run(_, at) => !at.AtLock? && !at.AtErrorReturn?
    case Resetting(to) => !to.ToLock?
    case Faulting(_, fp) => !fp.FaultLock?
    case _ => false
  }

  predicate Preparing(at: RunPoint) {
    at.AtReinit? || at.AtClear? || at.AtEnable? || at.AtCopy? || at.AtLength? || at.AtStart?
  }

  predicate RunSection(s: Sys, req: Request, at: RunPoint) {
    var books := s.counters;
    if Preparing(at) then
      && Quiet(s.dev) && Settled(books)
      && (!at.AtReinit? ==> s.done == 0)
      && (at.AtCopy? || at.AtLength? || at.AtStart? ==> s.dev.irqEnable == BOTH)
      && (at.AtCopy? ==> at.index < WordCount(req.vectorLength))
    else if at.AtCount? then
      Outstanding(s) && (if Unreported(s) then OpenUnreported(Submitted(books)) else Open(Submitted(books)))
    else if at.AtWait? || at.AtTimeoutReset? then
      Outstanding(s) && (if Unreported(s) then OpenUnreported(books) else Open(books))
    else if at.AtTimeoutUnlock? || at.AtUnlock? then Quiet(s.dev) && Settled(books)
    else Quiet(s.dev) && Open(books)
  }

  /** A reset that has written its registers finds what it expects when it reads them back. */
  predicate ResetSection(s: Sys, to: ResetPoint) {
    && Quiet(s.dev) && Settled(s.counters)
    && (to.ToClear? || to.ToStatus? || to.ToIrqStatus? || to.ToError? || to.ToVerify? || to.ToReinit? || to.ToCount? ==>
          s.dev.status.Idle? && s.dev.errCode == ERR_NONE && s.dev.faultControl == 0 && s.dev.irqEnable == NO_FLAGS)
    && (to.ToReset? ==> s.dev.irqEnable == NO_FLAGS)
    && (to.ToIrqStatus? ==> to.status == 0)
    && (to.ToError? ==> to.status == 0 && to.irq == 0)
    && (to.ToVerify? ==> to.status == 0 && to.irq == 0 && to.error == 0)
    && (to.ToUnlock? ==> to.code == 0)
  }

  predicate Section(s: Sys, c: Client)
    requires InSection(c)
  {
    match c
    case Run(req, at) => RunSection(s, req, at)
    case Resetting(to) => ResetSection(s, to)
    case Faulting(_, _) => Quiet(s.dev) && Settled(s.counters)
  }

  /** A snapshot under way holds values the counters have already reached. */
  predicate SnapshotSoFar(k: Counters, sp: StatPoint) {
    match sp
    case ReadTimedOut => true
    case ReadCompleted(t) => t <= k.timedOut
    case ReadErrors(t, c) => t <= k.timedOut && c <= k.completed
    case ReadSubmitted(t, c, e) => t <= k.timedOut && c <= k.completed && e <= k.deviceErrors
    case ReadResets(t, c, e, n) => c + t <= n && e <= n + 1
  }

  predicate ReplyConsistent(r: Reply) {
    match r
    case Snapshot(k) => k.completed + k.timedOut <= k.submitted && k.deviceErrors <= k.submitted + 1
    case Info(abi, id) => abi == 1 && id == 0x564E5055
    case _ => true
  }

  /** What holds of one client's program point, its locals, and the state it shares. */
  predicate Local(s: Sys, i: nat, c: Client) {
    && (InSection(c) <==> s.holder == Held(i))
    && (InSection(c) ==> Section(s, c))
    && (c.Run? ==> RequestAccepted(s, c.req))
    && (c.Reading? ==> SnapshotSoFar(s.counters, c.sp))
    && (c.Returned? ==> ReplyConsistent(c.reply))
  }

  predicate Global(s: Sys) {
    && Reachable(s.dev) && s.revision == s.dev.id.revision && s.repaired
    && (s.holder.Free? ==> Quiet(s.dev) && Settled(s.counters))
    && s.counters.completed + s.counters.timedOut <= s.counters.submitted
    && s.counters.deviceErrors <= s.counters.submitted + 1
  }

  predicate Inv(s: State) {
    && Global(s.sys)
    && (s.sys.holder.Held? ==> s.sys.holder.client < |s.clients|)
    && forall i :: 0 <= i < |s.clients| ==> Local(s.sys, i, s.clients[i])
  }

  // ---------------------------------------------------------------- interference between clients

  predicate Grows(k: Counters, k': Counters) {
    k.completed <= k'.completed && k.timedOut <= k'.timedOut && k.deviceErrors <= k'.deviceErrors
    && k.submitted <= k'.submitted
  }

  /** What a step of client `i` leaves to the others: the owner's state, the order of the counters. */
  predicate Respects(s: Sys, s': Sys, i: nat) {
    && s'.revision == s.revision && s'.dev.id == s.dev.id && s'.repaired == s.repaired
    && Grows(s.counters, s'.counters)
    && (s.holder == s'.holder || (s.holder.Free? && s'.holder == Held(i)) || (s.holder == Held(i) && s'.holder.Free?))
    && (s.holder.Held? && s.holder.client != i ==>
          s'.dev == s.dev && s'.done == s.done && s'.counters == s.counters)
  }

  /** A client's own condition survives every step of another client. */
  lemma LocalStable(s: Sys, s': Sys, i: nat, j: nat, c: Client)
    requires i != j && Local(s, j, c) && Respects(s, s', i)
    ensures Local(s', j, c)
  {
    hide Quiet, Outstanding;
    if InSection(c) {
      SectionStable(s, s', c);
    }
  }

  lemma SectionStable(s: Sys, s': Sys, c: Client)
    requires InSection(c) && Section(s, c)
    requires s'.dev == s.dev && s'.done == s.done && s'.counters == s.counters
    ensures Section(s', c)
  {
    hide Quiet;
  }

  // ---------------------------------------------------------------- steps of a client

  lemma EnterKeeps(s: Sys, i: nat, req: Request, at: RunPoint)
    requires Global(s) && Local(s, i, Run(req, at)) && CanRun(s, at)
    requires at.AtLock? || at.AtReinit? || at.AtClear? || at.AtEnable?
    ensures var (s', c') := RunStep(s, i, req, at);
            Global(s') && Local(s', i, c') && Respects(s, s', i)
  {
    hide Write, Reachable;
    match at {
      case AtClear =>
        Acknowledge(s.dev, s.now);
        WriteReachable(s.dev, 0x014, 3, s.now);
      case AtEnable =>
        Listen(s.dev, s.now);
        WriteReachable(s.dev, 0x018, 3, s.now);
        AcceptedLength(s, req);
      case _ =>
    }
  }

  lemma ProgramKeeps(s: Sys, i: nat, req: Request, at: RunPoint)
    requires Global(s) && Local(s, i, Run(req, at)) && (at.AtCopy? || at.AtLength?) && CanRun(s, at)
    ensures var (s', c') := RunStep(s, i, req, at);
            Global(s') && Local(s', i, c') && Respects(s, s', i)
  {
    hide Write, Reachable;
    AcceptedLength(s, req);
    match at {
      case AtCopy(k, second) =>
        var (value, offset) := if second then (req.input.b[k], 0x120 + 4 * k) else (req.input.a[k], 0x100 + 4 * k);
        CopyWord(s.dev, k, value, s.now);
        WriteReachable(s.dev, offset, value, s.now);
      case AtLength =>
        ReachableParts(s.dev);
        SelectLength(s.dev, req.vectorLength, s.now);
        WriteReachable(s.dev, 0x024, req.vectorLength, s.now);
    }
  }

  lemma AcceptedLength(s: Sys, req: Request)
    requires Global(s) && RequestAccepted(s, req)
    ensures VecLen(s, req) == req.vectorLength && (req.vectorLength == 8 || req.vectorLength == 16)
    ensures LengthAccepted(s.dev, req.vectorLength)
  {}

  lemma StartKeeps(s: Sys, i: nat, req: Request)
    requires Global(s) && Local(s, i, Run(req, AtStart))
    ensures var (s', c') := RunStep(s, i, req, AtStart);
            Global(s') && Local(s', i, c') && Respects(s, s', i)
  {
    hide Write, Reachable;
    StartWrite(s.dev, s.now);
    WriteReachable(s.dev, 0x00C, 1, s.now);
  }

  lemma CountKeeps(s: Sys, i: nat, req: Request)
    requires Global(s) && Local(s, i, Run(req, AtCount))
    ensures var (s', c') := RunStep(s, i, req, AtCount);
            Global(s') && Local(s', i, c') && Respects(s, s', i)
  {
    hide Reachable;
  }

  predicate Recovering(at: RunPoint) {
    at.AtTimeoutReset? || at.AtTimeoutCount? || at.AtTimeoutUnlock?
  }

  lemma RecoverKeeps(s: Sys, i: nat, req: Request, at: RunPoint)
    requires Global(s) && Local(s, i, Run(req, at)) && Recovering(at)
    ensures var (s', c') := RunStep(s, i, req, at);
            Global(s') && Local(s', i, c') && Respects(s, s', i)
  {
    hide Write, Reachable;
    if at.AtTimeoutReset? {
      ResetWrite(s.dev, s.now);
      WriteReachable(s.dev, 0x00C, 2, s.now);
    }
  }

  predicate Concluding(at: RunPoint) {
    at.AtCheck? || at.AtErrorUnlock? || at.AtErrorReturn? || at.AtResult? || at.AtCountDone? || at.AtUnlock?
  }

  lemma ConcludeKeeps(s: Sys, i: nat, req: Request, at: RunPoint)
    requires Global(s) && Local(s, i, Run(req, at)) && Concluding(at)
    ensures var (s', c') := RunStep(s, i, req, at);
            Global(s') && Local(s', i, c') && Respects(s, s', i)
  {
    hide Reachable, AfterRead, ReadValue;
    if at.AtResult? {
      ReadReachable(s.dev, 0x140);
      ResultRead(s.dev);
    }
  }

  lemma ResultRead(d: Dev)
    ensures AfterRead(d, 0x140) == d.(status := if d.status.Done? then Idle else d.status)
  {}

  lemma ResetKeeps(s: Sys, i: nat, to: ResetPoint)
    requires Global(s) && Local(s, i, Resetting(to)) && CanReset(s, to)
    ensures var (s', c') := ResetStep(s, i, to);
            Global(s') && Local(s', i, c') && Respects(s, s', i)
  {
    hide Write, Reachable, ReadValue;
    StatusRead(s.dev);
    match to {
      case ToDisable =>
        Listen(s.dev, s.now);
        WriteReachable(s.dev, 0x018, 0, s.now);
      case ToReset =>
        ResetWrite(s.dev, s.now);
        WriteReachable(s.dev, 0x00C, 2, s.now);
      case ToClear =>
        Acknowledge(s.dev, s.now);
        WriteReachable(s.dev, 0x014, 3, s.now);
      case _ =>
    }
  }

  lemma FaultKeeps(s: Sys, i: nat, mask: u32, fp: FaultPoint)
    requires Global(s) && Local(s, i, Faulting(mask, fp)) && CanFault(s, fp)
    ensures var (s', c') := FaultStep(s, i, mask, fp);
            Global(s') && Local(s', i, c') && Respects(s, s', i)
  {
    hide Write, Reachable, LowNibble, LowestBit;
    if fp.FaultWrite? {
      DeviceFacts.FaultWrite(s.dev, LowNibble(mask), s.now);
      WriteReachable(s.dev, 0x180, LowNibble(mask), s.now);
    }
  }

  lemma ClientKeeps(s: Sys, i: nat, c: Client)
    requires Global(s) && Local(s, i, c) && CanGo(s, c)
    ensures var (s', c') := ClientStep(s, i, c);
            Global(s') && Local(s', i, c') && Respects(s, s', i)
  {
    hide Global, RunStep, ResetStep, FaultStep;
    match c {
      case Run(req, at) =>
        match at {
          case AtLock => EnterKeeps(s, i, req, at);
          case AtReinit => EnterKeeps(s, i, req, at);
          case AtClear => EnterKeeps(s, i, req, at);
          case AtEnable => EnterKeeps(s, i, req, at);
          case AtCopy(_, _) => ProgramKeeps(s, i, req, at);
          case AtLength => ProgramKeeps(s, i, req, at);
          case AtStart => StartKeeps(s, i, req);
          case AtCount => CountKeeps(s, i, req);
          case _ =>
            if Recovering(at) {
              RecoverKeeps(s, i, req, at);
            } else {
              ConcludeKeeps(s, i, req, at);
            }
        }
      case Resetting(to) => ResetKeeps(s, i, to);
      case Faulting(mask, fp) => FaultKeeps(s, i, mask, fp);
      case Reading(sp) => ReadingKeeps(s, i, sp);
    }
  }

  lemma ReadingKeeps(s: Sys, i: nat, sp: StatPoint)
    requires Global(s) && Local(s, i, Reading(sp))
    ensures Local(s, i, StatStep(s, sp)) && Respects(s, s, i)
  {
    hide Reachable;
  }

  // ---------------------------------------------------------------- the wait, and the environment

  lemma WakeKeeps(s: Sys, i: nat, c: Client)
    requires Global(s) && Local(s, i, c) && CanWake(s, c)
    ensures Global(Woken(s)) && Local(Woken(s), i, c.(at := AtCheck)) && Respects(s, Woken(s), i)
  {
    hide Reachable;
  }

  lemma TimeoutKeeps(s: Sys, i: nat, c: Client)
    requires Global(s) && Local(s, i, c) && CanTimeout(s, c)
    ensures var s' := s.(expired := true);
            Global(s') && Local(s', i, c.(at := AtTimeoutReset)) && Respects(s, s', i)
  {
    hide Reachable;
  }

  /** Entering an ioctl and returning from it touch nothing shared. */
  lemma EntryKeeps(s: Sys, i: nat, cmd: Command)
    requires Global(s) && Local(s, i, User)
    ensures Local(s, i, Entered(s, cmd)) && Respects(s, s, i)
  {
    hide Reachable, MaskRejected, ReadValue;
    StatusRead(s.dev);
  }

  predicate Awaiting(c: Client) {
    c.Run? && (c.at.AtCount? || c.at.AtWait? || c.at.AtTimeoutReset?)
  }

  /** Outside the wait the device is quiet, so the handler finds nothing to do. */
  lemma QuietHandler(s: Sys)
    requires Quiet(s.dev)
    ensures Handler(s) == s
  {
    IdleHandler(s);
  }

  lemma LineDown(s: Sys)
    requires Global(s) && s.dev.irqStatus == NO_FLAGS
    ensures !s.dev.line
  {}

  /** A raised interrupt is acknowledged, booked if it is an error, and turned into a completion. */
  lemma RaisedHandler(s: Sys)
    requires s.dev.irqStatus != NO_FLAGS
    ensures Handler(s) ==
            (if s.dev.irqStatus.error then
               s.(dev := s.dev.(irqStatus := NO_FLAGS, line := false), done := s.done + 1,
                  deviceError := s.dev.errCode, errorFlag := true,
                  counters := s.counters.(deviceErrors := s.counters.deviceErrors + 1),
                  late := if s.expired then s.late + 1 else s.late)
             else s.(dev := s.dev.(irqStatus := NO_FLAGS, line := false), done := s.done + 1))
  {
    hide Write, ReadValue;
    StatusRead(s.dev);
    FlagsRoundTrip(s.dev.irqStatus);
    Acknowledge(s.dev, s.now);
    StatusRead(s.dev.(irqStatus := NO_FLAGS, line := false));
  }

  lemma HandlerReachable(s: Sys)
    requires Reachable(s.dev)
    ensures Reachable(Handler(s).dev) && Handler(s).dev.id == s.dev.id
  {
    hide Write, ReadValue, Reachable;
    WriteReachable(s.dev, 0x014, 3, s.now);
  }

  lemma HandleKeeps(s: Sys, i: nat, c: Client)
    requires Global(s) && s.holder == Held(i) && Local(s, i, c)
    ensures Global(Handler(s)) && Local(Handler(s), i, c)
    ensures Respects(s, Handler(s), i)
  {
    HandlerReachable(s);
    hide Handler, Reachable;
    if s.dev.irqStatus == NO_FLAGS {
      IdleHandler(s);
    } else {
      RaisedHandler(s);
    }
  }

  lemma IdleHandler(s: Sys)
    requires s.dev.irqStatus == NO_FLAGS && !s.dev.line
    ensures Handler(s) == s
  {
    hide Write, ReadValue;
    StatusRead(s.dev);
    FlagsRoundTrip(s.dev.irqStatus);
    Acknowledge(s.dev, s.now);
  }

  lemma ExpireKeeps(s: Sys, i: nat, c: Client)
    requires Global(s) && s.holder == Held(i) && Local(s, i, c) && s.dev.timer.Running?
    ensures var s' := s.(dev := Fire(s.dev));
            Global(s') && Local(s', i, c) && Respects(s, s', i)
  {
    ReachableParts(s.dev);
    FireReachable(s.dev);
    FireEnds(s.dev);
    hide Fire, Reachable, ResultOf;
  }

  // ---------------------------------------------------------------- every step, every run

  lemma OthersKeep(s: State, sys': Sys, i: nat, c': Client)
    requires Inv(s) && i < |s.clients| && Global(sys') && Local(sys', i, c') && Respects(s.sys, sys', i)
    ensures Inv(State(sys', s.clients[i := c']))
  {
    hide Global, Local;
    var clients' := s.clients[i := c'];
    forall j | 0 <= j < |clients'|
      ensures Local(sys', j, clients'[j])
    {
      if j != i {
        LocalStable(s.sys, sys', i, j, s.clients[j]);
      }
    }
  }

  lemma StepKeeps(s: State, a: Action)
    requires Inv(s) && Enabled(s, a)
    ensures Inv(Apply(s, a))
  {
    hide Global, Local, Respects;
    match a {
      case Call(i, cmd) =>
        EntryKeeps(s.sys, i, cmd);
        OthersKeep(s, s.sys, i, Entered(s.sys, cmd));
      case Go(i) =>
        ClientKeeps(s.sys, i, s.clients[i]);
        var (sys', c') := ClientStep(s.sys, i, s.clients[i]);
        OthersKeep(s, sys', i, c');
      case Wake(i) =>
        WakeKeeps(s.sys, i, s.clients[i]);
        OthersKeep(s, Woken(s.sys), i, s.clients[i].(at := AtCheck));
      case Timeout(i) =>
        TimeoutKeeps(s.sys, i, s.clients[i]);
        OthersKeep(s, s.sys.(expired := true), i, s.clients[i].(at := AtTimeoutReset));
      case Return(i) =>
        ReturnKeeps(s.sys, i, s.clients[i]);
        OthersKeep(s, s.sys, i, User);
      case Expire => EnvironmentKeeps(s, a);
      case Handle => EnvironmentKeeps(s, a);
      case Tick(ms) => TickKeeps(s, ms);
    }
  }

  lemma ReturnKeeps(s: Sys, i: nat, c: Client)
    requires Local(s, i, c) && c.Returned?
    ensures Local(s, i, User) && Respects(s, s, i)
  {}

  lemma FreeIsQuiet(s: Sys)
    requires Global(s) && s.holder.Free?
    ensures Quiet(s.dev)
  {}

  /** The timer and the handler act for the client that holds the mutex. */
  lemma EnvironmentKeeps(s: State, a: Action)
    requires Inv(s) && Enabled(s, a) && (a.Expire? || a.Handle?)
    ensures Inv(Apply(s, a))
  {
    hide Global, Local, Respects;
    match s.sys.holder {
      case Free =>
        FreeIsQuiet(s.sys);
        if a.Handle? {
          QuietHandler(s.sys);
        }
      case Held(i) =>
        var c := s.clients[i];
        if a.Handle? {
          HandleKeeps(s.sys, i, c);
        } else {
          ExpireKeeps(s.sys, i, c);
        }
        OthersKeep(s, Apply(s, a).sys, i, c);
        assert s.clients[i := c] == s.clients;
    }
  }

  lemma TickKeeps(s: State, ms: nat)
    requires Inv(s)
    ensures Inv(s.(sys := s.sys.(now := s.sys.now + ms)))
  {
    var sys' := s.sys.(now := s.sys.now + ms);
    forall j | 0 <= j < |s.clients|
      ensures Local(sys', j, s.clients[j])
    {
      LocalTick(s.sys, ms, j, s.clients[j]);
    }
  }

  lemma LocalTick(s: Sys, ms: nat, j: nat, c: Client)
    requires Local(s, j, c)
    ensures Local(s.(now := s.now + ms), j, c)
  {}

  lemma {:induction false} RunKeeps(s: State, acts: seq<Action>)
    requires Inv(s) && Legal(s, acts)
    ensures Inv(Execute(s, acts))
    decreases acts
  {
    hide Inv, Apply, Enabled;
    if acts != [] {
      StepKeeps(s, acts[0]);
      RunKeeps(Apply(s, acts[0]), acts[1..]);
    }
  }

  lemma InitialInv(s: State)
    requires Initial(s) && s.sys.repaired
    ensures Inv(s)
  {
    FreshReachable(s.sys.revision);
  }

  // ---------------------------------------------------------------- what this means

  /** Whenever the mutex is free, no operation is running, nothing is pending and the line is low; and
      two clients are never in the critical section together. */
  lemma Quiescence(s0: State, acts: seq<Action>)
    requires Initial(s0) && s0.sys.repaired && Legal(s0, acts)
    ensures var s := Execute(s0, acts);
            && (s.sys.holder.Free? ==>
                  && s.sys.dev.timer.Stopped? && !s.sys.dev.status.Busy?
                  && s.sys.dev.irqStatus == NO_FLAGS && !s.sys.dev.line)
            && (forall i, j :: 0 <= i < j < |s.clients| ==> !(InSection(s.clients[i]) && InSection(s.clients[j])))
  {
    InitialInv(s0);
    RunKeeps(s0, acts);
  }

  /** While a client waits, its operation is running, or its interrupt is asserted, or its completion is
      there to be taken, or the operation has ended under a fault that drops the interrupt, which shows
      in the status: DONE under irq-drop, BUSY under stuck-busy. */
  lemma NoLostWakeup(s0: State, acts: seq<Action>, i: nat)
    requires Initial(s0) && s0.sys.repaired && Legal(s0, acts) && i < |s0.clients|
    ensures var s := Execute(s0, acts);
            i < |s.clients| && (s.clients[i].Run? && s.clients[i].at.AtWait? ==>
              || s.sys.dev.timer.Running?
              || s.sys.dev.line
              || s.sys.done > 0
              || (s.sys.dev.timer.Stopped? && EndedSilently(s.sys.dev)))
  {
    InitialInv(s0);
    RunKeeps(s0, acts);
    SameClients(s0, acts);
    var s := Execute(s0, acts);
    assert Local(s.sys, i, s.clients[i]);
  }

  lemma {:induction false} SameClients(s: State, acts: seq<Action>)
    requires Legal(s, acts)
    ensures |Execute(s, acts).clients| == |s.clients|
    decreases acts
  {
    if acts != [] {
      StepClients(s, acts[0]);
      hide Apply, Enabled;
      SameClients(Apply(s, acts[0]), acts[1..]);
    }
  }

  lemma StepClients(s: State, a: Action)
    requires Enabled(s, a)
    ensures |Apply(s, a).clients| == |s.clients|
  {
    hide ClientStep, Handler, Fire;
  }

  /** A completion never outlives the operation it belongs to: when a START is about to be written there
      is none left, so only this operation's interrupt can end the wait. */
  lemma NoStaleCompletion(s0: State, acts: seq<Action>, i: nat)
    requires Initial(s0) && s0.sys.repaired && Legal(s0, acts) && i < |s0.clients|
    ensures var s := Execute(s0, acts);
            i < |s.clients| && (s.clients[i].Run? && s.clients[i].at.AtStart? ==>
              && s.sys.done == 0 && s.sys.dev.irqStatus == NO_FLAGS
              && s.sys.dev.irqEnable == BOTH && s.sys.dev.timer.Stopped?)
  {
    InitialInv(s0);
    RunKeeps(s0, acts);
    SameClients(s0, acts);
    var s := Execute(s0, acts);
    assert Local(s.sys, i, s.clients[i]);
  }

  /** Every snapshot GET_STAT returns, although taken without the mutex, counter by counter, is
      consistent: completed and timed out operations never exceed the submitted ones, and the errors
      exceed them by at most the one operation being submitted. */
  lemma SnapshotsConsistent(s0: State, acts: seq<Action>, i: nat)
    requires Initial(s0) && s0.sys.repaired && Legal(s0, acts) && i < |s0.clients|
    ensures var s := Execute(s0, acts);
            i < |s.clients| && (s.clients[i].Returned? && s.clients[i].reply.Snapshot? ==>
              var k := s.clients[i].reply.counters;
              k.completed + k.timedOut <= k.submitted && k.deviceErrors <= k.submitted + 1)
  {
    InitialInv(s0);
    RunKeeps(s0, acts);
    SameClients(s0, acts);
    var s := Execute(s0, acts);
    assert Local(s.sys, i, s.clients[i]);
  }

  /** A RESET never fails, whatever the device was doing: when the client is about to verify what it read
      back, it read IDLE, nothing pending and no error, and the device is fault free with interrupts off. */
  lemma ResetSucceeds(s0: State, acts: seq<Action>, i: nat)
    requires Initial(s0) && s0.sys.repaired && Legal(s0, acts) && i < |s0.clients|
    ensures var s := Execute(s0, acts);
            i < |s.clients| && (s.clients[i].Resetting? ==>
              && (s.clients[i].to.ToUnlock? ==> s.clients[i].to.code == 0)
              && (s.clients[i].to.ToVerify? ==>
                    && s.clients[i].to == ToVerify(0, 0, 0)
                    && s.sys.dev.status.Idle? && s.sys.dev.errCode == ERR_NONE && s.sys.dev.faultControl == 0
                    && s.sys.dev.timer.Stopped? && s.sys.dev.irqEnable == NO_FLAGS && !s.sys.dev.line))
  {
    InitialInv(s0);
    RunKeeps(s0, acts);
    SameClients(s0, acts);
    var s := Execute(s0, acts);
    assert Local(s.sys, i, s.clients[i]);
  }
}
