/** Runs of the driver, put together piece by piece: from every state in which a call can proceed there
    is a schedule that carries it through. The pieces serve to show that calls can return at all, and
    that the conditions of the other theorems cannot be weakened.
 */
module Runs {
  import opened Words
  import opened Device
  import opened DeviceInvariant
  import opened DeviceFacts
  import opened Machine
  import opened Protocol
  import opened Accounting
  import opened Outcome

  /** What else is asked of a timely run: that calls do not overlap, that nobody returns to user space,
      how long every RUN_DOT must be willing to wait. */
  datatype Rules = Rules(serial: bool, staying: bool, patience: nat)

  predicate Waits(a: Action, patience: nat) {
    a.Call? && a.cmd.RunDot? ==> a.cmd.req.timeoutMs >= patience
  }

  predicate Allowed(r: Rules, s: State, a: Action) {
    && TimelyStep(s, a) && (r.serial ==> SerialStep(s, a)) && (r.staying ==> !a.Return?) && Waits(a, r.patience)
  }

  predicate Keeping(r: Rules, s: State, acts: seq<Action>)
    requires Legal(s, acts)
    decreases acts
  {
    acts == [] || (Allowed(r, s, acts[0]) && Keeping(r, Apply(s, acts[0]), acts[1..]))
  }

  /** A run from one state to another. */
  predicate Leads(r: Rules, s: State, acts: seq<Action>, t: State) {
    Legal(s, acts) && Keeping(r, s, acts) && Execute(s, acts) == t
  }

  lemma One(r: Rules, s: State, a: Action)
    requires Enabled(s, a) && Allowed(r, s, a)
    ensures Leads(r, s, [a], Apply(s, a))
  {
    Single(s, a);
    hide Enabled, Apply, Allowed;
    assert [a][0] == a && [a][1..] == [];
    assert Keeping(r, Apply(s, a), [a][1..]);
  }

  lemma {:induction false} Join(r: Rules, s: State, first: seq<Action>, t: State, last: seq<Action>, u: State)
    requires Leads(r, s, first, t) && Leads(r, t, last, u)
    ensures Leads(r, s, first + last, u)
    decreases first
  {
    Chain(s, first, last);
    hide Enabled, Apply, Allowed;
    if first == [] {
      assert first + last == last;
    } else {
      assert (first + last)[1..] == first[1..] + last;
      Join(r, Apply(s, first[0]), first[1..], t, last, u);
    }
  }

  /** One more step at the end of a run. */
  lemma Then(r: Rules, s: State, acts: seq<Action>, t: State, a: Action, u: State)
    requires Leads(r, s, acts, t) && Enabled(t, a) && Allowed(r, t, a) && Apply(t, a) == u
    ensures Leads(r, s, acts + [a], u)
  {
    hide Leads, Enabled, Apply, Allowed;
    One(r, t, a);
    Join(r, s, acts, t, [a], u);
  }

  /** What the rules amount to. */
  lemma {:induction false} KeepingMeans(r: Rules, s: State, acts: seq<Action>)
    requires Legal(s, acts) && Keeping(r, s, acts)
    ensures Timely(s, acts) && (r.serial ==> Serial(s, acts))
    ensures r.staying ==> forall a :: a in acts ==> !a.Return?
    ensures forall a :: a in acts ==> Waits(a, r.patience)
    decreases acts
  {
    hide Enabled, Apply, TimelyStep, SerialStep, Waits;
    if acts != [] {
      KeepingMeans(r, Apply(s, acts[0]), acts[1..]);
      assert forall a :: a in acts ==> a == acts[0] || a in acts[1..];
    }
  }

  lemma DeviceOf(s: State)
    requires Inv(s)
    ensures Reachable(s.sys.dev) && Configured(s.sys.dev)
  {}

  // ---------------------------------------------------------------- getting to the wait

  /** Steps left before START. */
  function Distance(req: Request, at: RunPoint): int {
    var words := if req.vectorLength == 8 then 2 else 4;
    match at
    case AtReinit => 2 * words + 5
    case AtClear => 2 * words + 4
    case AtEnable => 2 * words + 3
    case AtCopy(k, second) => 2 * (words - k) + (if second then 0 else 1)
    case AtLength => 1
    case _ => 0
  }

  /** What preparing a request leaves alone. */
  predicate Kept(s: Sys, s': Sys, i: nat) {
    && Unstarted(s.dev, s'.dev) && s'.dev.result == s.dev.result
    && s'.holder == Held(i) && s'.now == s.now && s'.counters == s.counters && s'.errorFlag == s.errorFlag
    && s'.deviceError == s.deviceError && s'.expired == s.expired && s'.late == s.late && s'.revision == s.revision
  }

  lemma PrepareStep(s: Sys, i: nat, req: Request, at: RunPoint)
    requires Global(s) && Local(s, i, Run(req, at)) && Preparing(at) && !at.AtStart?
    ensures CanRun(s, at)
    ensures var (s', c') := RunStep(s, i, req, at);
            && c'.Run? && c'.req == req && Preparing(c'.at) && 0 <= Distance(req, c'.at) < Distance(req, at)
            && Kept(s, s', i)
  {
    AcceptedLength(s, req);
    match at {
      case AtClear => Acknowledge(s.dev, s.now);
      case AtEnable => Listen(s.dev, s.now);
      case AtCopy(k, second) =>
        CopyWord(s.dev, k, req.input.a[k], s.now);
        CopyWord(s.dev, k, req.input.b[k], s.now);
      case AtLength =>
        ReachableParts(s.dev);
        SelectLength(s.dev, req.vectorLength, s.now);
      case _ =>
    }
    hide Write, Reachable, Quiet, Settled;
  }

  lemma HolderOf(s: State, i: nat, req: Request)
    requires Inv(s) && i < |s.clients| && s.clients[i].Run? && Preparing(s.clients[i].at)
    ensures s.sys.holder == Held(i)
  {
    assert Local(s.sys, i, s.clients[i]);
  }

  lemma {:induction false} Prepare(r: Rules, s: State, i: nat, req: Request) returns (acts: seq<Action>, t: State)
    requires Inv(s) && i < |s.clients| && s.clients[i].Run? && s.clients[i].req == req && Preparing(s.clients[i].at)
    ensures Leads(r, s, acts, t) && Inv(t)
    ensures t.clients == s.clients[i := Run(req, AtStart)] && Kept(s.sys, t.sys, i)
    decreases Distance(req, s.clients[i].at)
  {
    HolderOf(s, i, req);
    if s.clients[i].at.AtStart? {
      acts, t := [], s;
      assert s.clients[i := Run(req, AtStart)] == s.clients;
    } else {
      assert Local(s.sys, i, s.clients[i]);
      PrepareStep(s.sys, i, req, s.clients[i].at);
      StepKeeps(s, Go(i));
      One(r, s, Go(i));
      hide Global, Local, RunStep, Distance, Unstarted, Leads;
      var s1 := Apply(s, Go(i));
      acts, t := Prepare(r, s1, i, req);
      Join(r, s, [Go(i)], s1, acts, t);
      acts := [Go(i)] + acts;
    }
  }

  /** A request submitted: the device is computing, or has refused at once. */
  predicate Begun(s: Sys, t: Sys, i: nat) {
    && t.holder == Held(i) && t.now == s.now && t.errorFlag == s.errorFlag && t.deviceError == s.deviceError
    && t.expired == s.expired && t.late == s.late && t.revision == s.revision && t.done == 0
    && t.counters == Submitted(s.counters) && t.dev.irqEnable == BOTH
    && t.dev.faultControl == s.dev.faultControl && t.dev.result == s.dev.result
    && (if s.dev.status.Idle? then
          t.dev.status.Busy? && t.dev.timer == Running(s.now + LATENCY) && t.dev.irqStatus == NO_FLAGS
        else
          t.dev.status == s.dev.status && t.dev.timer.Stopped? && t.dev.irqStatus == IRQ_ERROR
          && (s.dev.status.Error? ==> t.dev.errCode == s.dev.errCode))
  }

  lemma Launch(r: Rules, s: State, i: nat, req: Request) returns (t: State)
    requires Inv(s) && i < |s.clients| && s.clients[i] == Run(req, AtStart)
    ensures Leads(r, s, [Go(i)] + [Go(i)], t) && Inv(t)
    ensures t.clients == s.clients[i := Run(req, AtWait(s.sys.now + req.timeoutMs))] && Begun(s.sys, t.sys, i)
  {
    assert Local(s.sys, i, s.clients[i]);
    StartWrite(s.sys.dev, s.sys.now);
    var s1 := State(Writel(s.sys, 1, 0x00C), s.clients[i := Run(req, AtCount)]);
    assert s1 == Apply(s, Go(i));
    StepKeeps(s, Go(i));
    t := State(s1.sys.(counters := Submitted(s1.sys.counters)),
               s1.clients[i := Run(req, AtWait(s.sys.now + req.timeoutMs))]);
    assert t == Apply(s1, Go(i));
    StepKeeps(s1, Go(i));
    hide Inv, Write, Apply;
    One(r, s, Go(i));
    Then(r, s, [Go(i)], s1, Go(i), t);
  }

  /** From taking the mutex to the wait. */
  lemma Begin(r: Rules, s: State, i: nat, req: Request) returns (acts: seq<Action>, t: State)
    requires Inv(s) && i < |s.clients| && s.clients[i] == Run(req, AtReinit)
    ensures Leads(r, s, acts, t) && Inv(t)
    ensures t.clients == s.clients[i := Run(req, AtWait(s.sys.now + req.timeoutMs))] && Begun(s.sys, t.sys, i)
  {
    hide Inv, Leads;
    var s1;
    acts, s1 := Prepare(r, s, i, req);
    t := Launch(r, s1, i, req);
    Join(r, s, acts, s1, [Go(i)] + [Go(i)], t);
    acts := acts + ([Go(i)] + [Go(i)]);
    assert s1.clients[i := Run(req, AtWait(s.sys.now + req.timeoutMs))] == t.clients;
  }

  lemma Locks(r: Rules, s: State, i: nat, req: Request) returns (t: State)
    requires Inv(s) && i < |s.clients| && s.clients[i] == Run(req, AtLock) && s.sys.holder.Free?
    requires r.serial ==> NoneActive(s)
    ensures Leads(r, s, [Go(i)], t) && Inv(t)
    ensures t == State(s.sys.(holder := Held(i)), s.clients[i := Run(req, AtReinit)])
  {
    t := State(s.sys.(holder := Held(i)), s.clients[i := Run(req, AtReinit)]);
    One(r, s, Go(i));
    StepKeeps(s, Go(i));
    hide Inv, Leads;
  }

  lemma Calls(r: Rules, s: State, i: nat, req: Request) returns (acts: seq<Action>, t: State)
    requires Inv(s) && i < |s.clients| && s.clients[i].User? && s.sys.holder.Free? && RequestAccepted(s.sys, req)
    requires (r.serial ==> NoneActive(s)) && req.timeoutMs >= r.patience
    ensures Leads(r, s, acts, t) && Inv(t)
    ensures t == State(s.sys.(holder := Held(i)), s.clients[i := Run(req, AtReinit)])
  {
    hide Inv, Leads, RequestAccepted;
    var s1 := s.(clients := s.clients[i := Run(req, AtLock)]);
    One(r, s, Call(i, RunDot(req)));
    StepKeeps(s, Call(i, RunDot(req)));
    assert NoneActive(s) ==> NoneActive(s1);
    t := Locks(r, s1, i, req);
    Join(r, s, [Call(i, RunDot(req))], s1, [Go(i)], t);
    acts := [Call(i, RunDot(req))] + [Go(i)];
    assert s1.clients[i := Run(req, AtReinit)] == s.clients[i := Run(req, AtReinit)];
  }

  lemma Submits(r: Rules, s: State, i: nat, req: Request) returns (acts: seq<Action>, t: State)
    requires Inv(s) && i < |s.clients| && s.clients[i].User? && s.sys.holder.Free? && RequestAccepted(s.sys, req)
    requires (r.serial ==> NoneActive(s)) && req.timeoutMs >= r.patience
    ensures Leads(r, s, acts, t) && Inv(t)
    ensures t.clients == s.clients[i := Run(req, AtWait(s.sys.now + req.timeoutMs))] && Begun(s.sys, t.sys, i)
  {
    hide Inv, Leads, RequestAccepted;
    var first, s1 := Calls(r, s, i, req);
    acts, t := Begin(r, s1, i, req);
    Join(r, s, first, s1, acts, t);
    acts := first + acts;
    assert s1.clients[i := Run(req, AtWait(s.sys.now + req.timeoutMs))] == t.clients;
  }

  // ---------------------------------------------------------------- how an operation ends

  /** The timer of an operation under way runs out. */
  lemma Ends(r: Rules, s: State) returns (acts: seq<Action>, t: State)
    requires Inv(s) && s.sys.dev.timer.Running? && s.sys.now <= s.sys.dev.timer.deadline && s.sys.dev.irqEnable == BOTH
    ensures Leads(r, s, acts, t) && Inv(t) && t.clients == s.clients
    ensures Configured(s.sys.dev) && t.sys == s.sys.(dev := Ended(s.sys.dev), now := s.sys.dev.timer.deadline)
  {
    DeviceOf(s);
    FireEnds(s.sys.dev);
    hide Inv, Leads, Fire, Ended, Reachable;
    var ms := s.sys.dev.timer.deadline - s.sys.now;
    var s1 := State(s.sys.(now := s.sys.dev.timer.deadline), s.clients);
    One(r, s, Tick(ms));
    StepKeeps(s, Tick(ms));
    t := State(s1.sys.(dev := Ended(s.sys.dev)), s.clients);
    Then(r, s, [Tick(ms)], s1, Expire, t);
    StepKeeps(s1, Expire);
    acts := [Tick(ms)] + [Expire];
  }

  /** How the handler leaves the shared state when an interrupt is raised. */
  function Heard(s: Sys): Sys {
    var s1 := s.(dev := s.dev.(irqStatus := NO_FLAGS, line := false));
    if s.dev.irqStatus.error then
      s1.(deviceError := s.dev.errCode, errorFlag := true,
          counters := s.counters.(deviceErrors := s.counters.deviceErrors + 1),
          late := if s.expired then s.late + 1 else s.late)
    else s1
  }

  /** The handler runs and the waiting client takes the completion. */
  lemma Notices(r: Rules, s: State, i: nat, req: Request, expiry: int) returns (acts: seq<Action>, t: State)
    requires Inv(s) && i < |s.clients| && s.clients[i] == Run(req, AtWait(expiry))
    requires s.sys.dev.irqStatus != NO_FLAGS && s.sys.done == 0
    ensures Leads(r, s, acts, t) && Inv(t) && t == State(Heard(s.sys), s.clients[i := Run(req, AtCheck)])
  {
    RaisedHandler(s.sys);
    hide Inv, Leads, Handler;
    var s1 := State(Handler(s.sys), s.clients);
    One(r, s, Handle);
    StepKeeps(s, Handle);
    t := State(s1.sys.(done := 0), s.clients[i := Run(req, AtCheck)]);
    Then(r, s, [Handle], s1, Wake(i), t);
    StepKeeps(s1, Wake(i));
    acts := [Handle] + [Wake(i)];
  }

  /** The handler runs with nobody to wake any more. */
  lemma ReportsLate(r: Rules, s: State) returns (t: State)
    requires Inv(s) && s.sys.dev.irqStatus != NO_FLAGS
    ensures Leads(r, s, [Handle], t) && Inv(t) && t == State(Heard(s.sys).(done := s.sys.done + 1), s.clients)
  {
    RaisedHandler(s.sys);
    hide Inv, Leads, Handler;
    t := State(Handler(s.sys), s.clients);
    One(r, s, Handle);
    StepKeeps(s, Handle);
  }

  /** The wait ends with nothing due: before the device is done, or after it has ended in silence. */
  lemma GivesUp(r: Rules, s: State, i: nat, req: Request, expiry: int) returns (acts: seq<Action>, t: State)
    requires Inv(s) && i < |s.clients| && s.clients[i] == Run(req, AtWait(expiry))
    requires s.sys.dev.irqStatus == NO_FLAGS && s.sys.done == 0
    requires s.sys.dev.timer.Running? ==> s.sys.now <= expiry < s.sys.dev.timer.deadline
    ensures Leads(r, s, acts, t) && Inv(t) && t.clients == s.clients[i := Run(req, AtTimeoutReset)]
    ensures t.sys == s.sys.(now := t.sys.now, expired := true)
    ensures t.sys.now == if s.sys.now < expiry then expiry else s.sys.now
  {
    hide Inv, Write, Leads;
    var ms := if s.sys.now < expiry then expiry - s.sys.now else 0;
    var s1 := State(s.sys.(now := s.sys.now + ms), s.clients);
    One(r, s, Tick(ms));
    StepKeeps(s, Tick(ms));
    t := State(s1.sys.(expired := true), s.clients[i := Run(req, AtTimeoutReset)]);
    Then(r, s, [Tick(ms)], s1, Timeout(i), t);
    StepKeeps(s1, Timeout(i));
    acts := [Tick(ms)] + [Timeout(i)];
  }

  // ---------------------------------------------------------------- how a call ends

  lemma Recovers(r: Rules, s: State, i: nat, req: Request) returns (acts: seq<Action>, t: State)
    requires Inv(s) && i < |s.clients| && s.clients[i] == Run(req, AtTimeoutReset)
    ensures Leads(r, s, acts, t) && Inv(t) && t.clients == s.clients[i := Returned(Failed(-ETIMEDOUT))]
    ensures t.sys == s.sys.(dev := t.sys.dev, holder := Free, expired := false,
                            counters := s.sys.counters.(timedOut := s.sys.counters.timedOut + 1))
    ensures t.sys.dev.status.Idle? && t.sys.dev.faultControl == 0
  {
    hide Inv, Write, Leads;
    ResetWrite(s.sys.dev, s.sys.now);
    var s1 := Apply(s, Go(i));
    One(r, s, Go(i));
    StepKeeps(s, Go(i));
    var s2 := Apply(s1, Go(i));
    Then(r, s, [Go(i)], s1, Go(i), s2);
    StepKeeps(s1, Go(i));
    t := Apply(s2, Go(i));
    Then(r, s, [Go(i)] + [Go(i)], s2, Go(i), t);
    StepKeeps(s2, Go(i));
    acts := [Go(i)] + [Go(i)] + [Go(i)];
    assert t.clients == s.clients[i := Returned(Failed(-ETIMEDOUT))];
  }

  /** The failing client sees the flag and gives up the mutex; the flag is still up. */
  lemma LetsGo(r: Rules, s: State, i: nat, req: Request) returns (t: State)
    requires Inv(s) && i < |s.clients| && s.clients[i] == Run(req, AtCheck) && s.sys.errorFlag
    ensures Leads(r, s, [Go(i)] + [Go(i)], t) && Inv(t)
    ensures t == State(s.sys.(holder := Free), s.clients[i := Run(req, AtErrorReturn)])
  {
    hide Inv, Leads;
    var s1 := State(s.sys, s.clients[i := Run(req, AtErrorUnlock)]);
    One(r, s, Go(i));
    StepKeeps(s, Go(i));
    t := State(s.sys.(holder := Free), s.clients[i := Run(req, AtErrorReturn)]);
    assert s1.clients[i := Run(req, AtErrorReturn)] == t.clients;
    Then(r, s, [Go(i)], s1, Go(i), t);
    StepKeeps(s1, Go(i));
  }

  lemma Blames(r: Rules, s: State, i: nat, req: Request) returns (t: State)
    requires Inv(s) && i < |s.clients| && s.clients[i] == Run(req, AtErrorReturn)
    ensures Leads(r, s, [Go(i)], t) && Inv(t)
    ensures t == State(s.sys.(errorFlag := false), s.clients[i := Returned(Failed(ErrorReturn(s.sys.deviceError)))])
  {
    hide Inv, Leads;
    t := State(s.sys.(errorFlag := false), s.clients[i := Returned(Failed(ErrorReturn(s.sys.deviceError)))]);
    One(r, s, Go(i));
    StepKeeps(s, Go(i));
  }

  lemma Fetches(r: Rules, s: State, i: nat, req: Request) returns (t: State)
    requires Inv(s) && i < |s.clients| && s.clients[i] == Run(req, AtCheck) && !s.sys.errorFlag
    ensures Leads(r, s, [Go(i)] + [Go(i)], t) && Inv(t)
    ensures t == State(s.sys.(dev := AfterRead(s.sys.dev, 0x140)),
                       s.clients[i := Run(req, AtCountDone(s.sys.dev.result))])
  {
    hide Inv, Leads, ReadValue, AfterRead;
    StatusRead(s.sys.dev);
    SignedImage(s.sys.dev.result);
    var s1 := State(s.sys, s.clients[i := Run(req, AtResult)]);
    One(r, s, Go(i));
    StepKeeps(s, Go(i));
    t := State(s.sys.(dev := AfterRead(s.sys.dev, 0x140)), s.clients[i := Run(req, AtCountDone(s.sys.dev.result))]);
    assert s1.clients[i := Run(req, AtCountDone(s.sys.dev.result))] == t.clients;
    Then(r, s, [Go(i)], s1, Go(i), t);
    StepKeeps(s1, Go(i));
  }

  lemma Delivers(r: Rules, s: State, i: nat, req: Request, result: int32) returns (t: State)
    requires Inv(s) && i < |s.clients| && s.clients[i] == Run(req, AtCountDone(result))
    ensures Leads(r, s, [Go(i)] + [Go(i)], t) && Inv(t) && t.clients == s.clients[i := Returned(Delivered(result))]
    ensures t.sys == s.sys.(holder := Free, counters := s.sys.counters.(completed := s.sys.counters.completed + 1))
  {
    hide Inv, Leads;
    var s1 := State(s.sys.(counters := s.sys.counters.(completed := s.sys.counters.completed + 1)),
                    s.clients[i := Run(req, AtUnlock(result))]);
    One(r, s, Go(i));
    StepKeeps(s, Go(i));
    t := State(s1.sys.(holder := Free), s.clients[i := Returned(Delivered(result))]);
    assert s1.clients[i := Returned(Delivered(result))] == t.clients;
    Then(r, s, [Go(i)], s1, Go(i), t);
    StepKeeps(s1, Go(i));
  }

  lemma Concludes(r: Rules, s: State, i: nat, req: Request) returns (acts: seq<Action>, t: State)
    requires Inv(s) && i < |s.clients| && s.clients[i] == Run(req, AtCheck)
    ensures Leads(r, s, acts, t) && Inv(t) && t.sys.holder.Free? && !t.sys.errorFlag
    ensures t.clients == s.clients[i := Returned(if s.sys.errorFlag then Failed(ErrorReturn(s.sys.deviceError))
                                                 else Delivered(s.sys.dev.result))]
  {
    hide Inv, Leads, AfterRead;
    if s.sys.errorFlag {
      var s1 := LetsGo(r, s, i, req);
      t := Blames(r, s1, i, req);
      acts := [Go(i)] + [Go(i)] + [Go(i)];
      Join(r, s, [Go(i)] + [Go(i)], s1, [Go(i)], t);
    } else {
      var s1 := Fetches(r, s, i, req);
      t := Delivers(r, s1, i, req, s.sys.dev.result);
      acts := [Go(i)] + [Go(i)] + ([Go(i)] + [Go(i)]);
      Join(r, s, [Go(i)] + [Go(i)], s1, [Go(i)] + [Go(i)], t);
    }
  }

  lemma Expires(r: Rules, s: State, i: nat, req: Request, expiry: int) returns (acts: seq<Action>, t: State)
    requires Inv(s) && i < |s.clients| && s.clients[i] == Run(req, AtWait(expiry))
    requires s.sys.dev.irqStatus == NO_FLAGS && s.sys.done == 0
    requires s.sys.dev.timer.Running? ==> s.sys.now <= expiry < s.sys.dev.timer.deadline
    ensures Leads(r, s, acts, t) && Inv(t) && t.sys.holder.Free? && t.sys.errorFlag == s.sys.errorFlag
    ensures t.clients == s.clients[i := Returned(Failed(-ETIMEDOUT))]
    ensures t.sys.dev.status.Idle? && t.sys.dev.faultControl == 0
  {
    hide Inv, Leads;
    var first, s1 := GivesUp(r, s, i, req, expiry);
    acts, t := Recovers(r, s1, i, req);
    Join(r, s, first, s1, acts, t);
    acts := first + acts;
    assert s1.clients[i := Returned(Failed(-ETIMEDOUT))] == t.clients;
  }

  /** The waiting client hears of the end of its operation. */
  lemma Hears(r: Rules, s: State, i: nat, req: Request, expiry: int) returns (acts: seq<Action>, t: State)
    requires Inv(s) && i < |s.clients| && s.clients[i] == Run(req, AtWait(expiry))
    requires s.sys.dev.irqStatus != NO_FLAGS && s.sys.done == 0
    ensures Leads(r, s, acts, t) && Inv(t) && t.sys.holder.Free? && !t.sys.errorFlag
    ensures t.clients == s.clients[i := Returned(if Heard(s.sys).errorFlag
                                                 then Failed(ErrorReturn(Heard(s.sys).deviceError))
                                                 else Delivered(s.sys.dev.result))]
  {
    hide Inv, Leads;
    var first, s1 := Notices(r, s, i, req, expiry);
    acts, t := Concludes(r, s1, i, req);
    Join(r, s, first, s1, acts, t);
    acts := first + acts;
    assert t.clients == s.clients[i := t.clients[i]];
  }

  /** What the reply of a call that is let run to its end depends on. */
  predicate EndReply(s: Sys, req: Request, reply: Reply) {
    Expected(s.dev, req).Value? ==>
      if s.errorFlag then reply == Failed(ErrorReturn(s.deviceError)) else reply.Delivered?
  }

  lemma EndedFlags(d: Dev)
    requires Configured(d)
    ensures var f := d.faultControl;
            Ended(d).irqStatus == if f == FAULT_IRQ_DROP || f == FAULT_STUCK_BUSY then NO_FLAGS
                                  else if f == FAULT_FORCE_ERROR then IRQ_ERROR else IRQ_COMPLETION
    ensures Ended(d).timer.Stopped?
  {
    hide ResultOf;
  }

  /** Every call that has taken the mutex can be carried through: there is a schedule, within any rules,
      on which the device ends the operation before the wait does. */
  lemma Answers(r: Rules, s: State, i: nat, req: Request) returns (acts: seq<Action>, t: State, reply: Reply)
    requires Inv(s) && i < |s.clients| && s.clients[i] == Run(req, AtReinit)
    ensures Leads(r, s, acts, t) && Inv(t) && t.sys.holder.Free? && t.clients == s.clients[i := Returned(reply)]
    ensures EndReply(s.sys, req, reply) && (!s.sys.errorFlag ==> !t.sys.errorFlag)
  {
    hide Inv, Leads, Ended, OperandDot, Configured;
    var expiry := s.sys.now + req.timeoutMs;
    var s1;
    acts, s1 := Begin(r, s, i, req);
    if s.sys.dev.status.Idle? {
      var ends, s2 := Ends(r, s1);
      Join(r, s, acts, s1, ends, s2);
      acts := acts + ends;
      EndedFlags(s1.sys.dev);
      var last;
      if s2.sys.dev.irqStatus == NO_FLAGS {
        last, t := Expires(r, s2, i, req, expiry);
      } else {
        last, t := Hears(r, s2, i, req, expiry);
      }
      Join(r, s, acts, s2, last, t);
      acts := acts + last;
    } else {
      var last;
      last, t := Hears(r, s1, i, req, expiry);
      Join(r, s, acts, s1, last, t);
      acts := acts + last;
    }
    reply := t.clients[i].reply;
    assert t.clients == s.clients[i := t.clients[i]];
  }

  /** A request that waits less than the device takes can time out on a schedule that delays nothing. */
  lemma ShortWait(r: Rules, s: State, i: nat, req: Request) returns (acts: seq<Action>, t: State)
    requires Inv(s) && i < |s.clients| && s.clients[i] == Run(req, AtReinit)
    requires s.sys.dev.status.Idle? && req.timeoutMs < LATENCY
    ensures Leads(r, s, acts, t) && Inv(t) && t.sys.holder.Free? && t.sys.errorFlag == s.sys.errorFlag
    ensures t.clients == s.clients[i := Returned(Failed(-ETIMEDOUT))]
  {
    hide Inv, Leads;
    var expiry := s.sys.now + req.timeoutMs;
    var first, s1 := Begin(r, s, i, req);
    acts, t := Expires(r, s1, i, req, expiry);
    Join(r, s, first, s1, acts, t);
    acts := first + acts;
    assert t.clients == s.clients[i := t.clients[i]];
  }

  // ---------------------------------------------------------------- the other calls

  /** Steps left in a call other than RUN_DOT. */
  function Remaining(c: Client): nat {
    match c
    case Resetting(to) =>
      (match to
       case ToLock => 11 case ToDisable => 10 case ToReset => 9 case ToClear => 8 case ToStatus => 7
       case ToIrqStatus(_) => 6 case ToError(_, _) => 5 case ToVerify(_, _, _) => 4 case ToReinit => 3
       case ToCount => 2 case ToUnlock(_) => 1)
    case Faulting(_, fp) => (match fp case FaultLock => 3 case FaultWrite => 2 case FaultUnlock => 1)
    case Reading(sp) =>
      (match sp
       case ReadTimedOut => 5 case ReadCompleted(_) => 4 case ReadErrors(_, _) => 3
       case ReadSubmitted(_, _, _) => 2 case ReadResets(_, _, _, _) => 1)
    case _ => 0
  }

  predicate InCalm(c: Client) {
    c.Resetting? || c.Faulting? || c.Reading?
  }

  predicate AtDoor(c: Client) {
    (c.Resetting? && c.to.ToLock?) || (c.Faulting? && c.fp.FaultLock?)
  }

  lemma CalmProceeds(s: Sys, i: nat, c: Client)
    requires InCalm(c) && (AtDoor(c) ==> s.holder.Free?)
    ensures CanGo(s, c)
    ensures var (s', c') := ClientStep(s, i, c);
            (c'.Returned? || (InCalm(c') && !AtDoor(c') && Remaining(c') < Remaining(c)))
            && s'.errorFlag == s.errorFlag
  {
    hide Write, ReadValue, LowNibble;
  }

  lemma {:induction false} CalmFinishes(r: Rules, s: State, i: nat) returns (acts: seq<Action>, t: State, reply: Reply)
    requires Inv(s) && i < |s.clients| && InCalm(s.clients[i])
    requires AtDoor(s.clients[i]) ==> s.sys.holder.Free?
    ensures Leads(r, s, acts, t) && Inv(t) && t.clients == s.clients[i := Returned(reply)]
    decreases Remaining(s.clients[i])
  {
    CalmProceeds(s.sys, i, s.clients[i]);
    hide Inv, Leads, ClientStep, Remaining, CanGo;
    One(r, s, Go(i));
    StepKeeps(s, Go(i));
    var s1 := Apply(s, Go(i));
    if s1.clients[i].Returned? {
      acts, t, reply := [Go(i)], s1, s1.clients[i].reply;
    } else {
      acts, t, reply := CalmFinishes(r, s1, i);
      Join(r, s, [Go(i)], s1, acts, t);
      acts := [Go(i)] + acts;
    }
    assert t.clients == s.clients[i := t.clients[i]];
  }
}
