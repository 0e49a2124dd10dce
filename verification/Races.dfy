/** Where the conditions of the other theorems come from: each is necessary as well as sufficient, by a
    run of the repaired driver that breaks what the condition protects.
 */
module Races {
  import opened Words
  import opened Device
  import opened DeviceFacts
  import opened Machine
  import opened Protocol
  import opened Accounting
  import opened Outcome
  import opened Solo
  import opened Runs
  import opened Patience

  // ---------------------------------------------------------------- one call: the exact condition

  /** The call of client `i` returns on this schedule. */
  predicate Completes(s: State, acts: seq<Action>, i: nat) {
    && Legal(s, acts) && Timely(s, acts) && Return(i) !in acts
    && i < |Execute(s, acts).clients| && Execute(s, acts).clients[i].Returned?
  }

  predicate CompletesSerially(s: State, acts: seq<Action>, i: nat) {
    Completes(s, acts, i) && Serial(s, acts)
  }

  ghost predicate AlwaysExpected(s: State, i: nat, req: Request) {
    forall acts :: CompletesSerially(s, acts, i) ==>
      Execute(s, acts).clients[i].reply == ReplyOf(Expected(s.sys.dev, req))
  }

  lemma DeterminedExpected(s: State, i: nat, req: Request, acts: seq<Action>)
    requires Inv(s) && OneActive(s) && i < |s.clients| && s.clients[i] == Run(req, AtReinit)
    requires Determined(FoundBy(s.sys), req) && CompletesSerially(s, acts, i)
    ensures Execute(s, acts).clients[i].reply == ReplyOf(Expected(s.sys.dev, req))
  {
    hide Inv, OneActive, Expected;
    RunOnCourse(FoundBy(s.sys), s, i, req, acts);
  }

  lemma LeadsCompletes(r: Rules, s: State, acts: seq<Action>, t: State, i: nat)
    requires Leads(r, s, acts, t) && r.serial && r.staying && i < |t.clients| && t.clients[i].Returned?
    ensures CompletesSerially(s, acts, i) && Execute(s, acts) == t
  {
    KeepingMeans(r, s, acts);
  }

  /** A RUN_DOT that has taken the mutex gets the expected reply on every serial and timely schedule if
      and only if its verdict is determined: an operation that will answer is given the 100 ms the device
      takes, and no old error flag is up when the verdict is a value. */
  lemma OutcomeIff(s: State, i: nat, req: Request)
    requires Inv(s) && OneActive(s) && i < |s.clients| && s.clients[i] == Run(req, AtReinit)
    ensures AlwaysExpected(s, i, req) <==> Determined(FoundBy(s.sys), req)
  {
    hide Inv, OneActive, OperandDot, Leads, Timely, Serial;
    var r := Rules(true, true, 0);
    if Determined(FoundBy(s.sys), req) {
      forall acts | CompletesSerially(s, acts, i)
        ensures Execute(s, acts).clients[i].reply == ReplyOf(Expected(s.sys.dev, req))
      {
        DeterminedExpected(s, i, req, acts);
      }
    } else if s.sys.errorFlag && Expected(s.sys.dev, req).Value? {
      var acts, t, reply := Answers(r, s, i, req);
      LeadsCompletes(r, s, acts, t, i);
    } else {
      var acts, t := ShortWait(r, s, i, req);
      LeadsCompletes(r, s, acts, t, i);
    }
  }

  // ---------------------------------------------------------------- injecting a fault

  /** A client sets force-error and returns. */
  lemma Injects(r: Rules, s: State, i: nat) returns (acts: seq<Action>, t: State)
    requires Inv(s) && i < |s.clients| && s.clients[i].User? && s.sys.holder.Free? && !r.staying
    ensures Leads(r, s, acts, t) && Inv(t) && t.clients == s.clients
    ensures t.sys == s.sys.(dev := s.sys.dev.(faultControl := FAULT_FORCE_ERROR))
  {
    AcceptedMasks(8);
    DeviceFacts.FaultWrite(s.sys.dev, LowNibble(8), s.sys.now);
    hide Inv, Write, Leads, MaskRejected, LowNibble, LowestBit;
    var s1 := State(s.sys, s.clients[i := Faulting(8, FaultLock)]);
    One(r, s, Call(i, SetFault(8)));
    StepKeeps(s, Call(i, SetFault(8)));
    var more, s2 := FaultWritten(r, s1, i);
    Join(r, s, [Call(i, SetFault(8))], s1, more, s2);
    t := s2.(clients := s2.clients[i := User]);
    Then(r, s, [Call(i, SetFault(8))] + more, s2, Return(i), t);
    StepKeeps(s2, Return(i));
    acts := [Call(i, SetFault(8))] + more + [Return(i)];
    assert t.clients == s.clients;
  }

  lemma FaultWritten(r: Rules, s: State, i: nat) returns (acts: seq<Action>, t: State)
    requires Inv(s) && i < |s.clients| && s.clients[i] == Faulting(8, FaultLock) && s.sys.holder.Free?
    ensures Leads(r, s, acts, t) && Inv(t) && t.clients == s.clients[i := Returned(Success)]
    ensures t.sys == s.sys.(dev := s.sys.dev.(faultControl := FAULT_FORCE_ERROR))
  {
    AcceptedMasks(8);
    DeviceFacts.FaultWrite(s.sys.dev, LowNibble(8), s.sys.now);
    hide Inv, Write, Leads, MaskRejected, LowNibble, LowestBit;
    var s1 := State(s.sys.(holder := Held(i)), s.clients[i := Faulting(8, FaultPoint.FaultWrite)]);
    One(r, s, Go(i));
    StepKeeps(s, Go(i));
    var s2 := State(Writel(s1.sys, LowNibble(8), 0x180), s.clients[i := Faulting(8, FaultUnlock)]);
    assert s1.clients[i := Faulting(8, FaultUnlock)] == s2.clients;
    Then(r, s, [Go(i)], s1, Go(i), s2);
    StepKeeps(s1, Go(i));
    t := State(s2.sys.(holder := Free), s.clients[i := Returned(Success)]);
    assert s2.clients[i := Returned(Success)] == t.clients;
    Then(r, s, [Go(i)] + [Go(i)], s2, Go(i), t);
    StepKeeps(s2, Go(i));
    acts := [Go(i)] + [Go(i)] + [Go(i)];
  }

  lemma EndsBroken(d: Dev)
    requires DeviceInvariant.Configured(d) && d.faultControl == FAULT_FORCE_ERROR
    ensures Ended(d).status.Error? && Ended(d).errCode == ERR_FORCED && Ended(d).irqStatus == IRQ_ERROR
  {
    hide ResultOf;
  }

  // ---------------------------------------------------------------- impatient calls

  function SomeRequest(timeout: nat): Request
    requires timeout < 0x1_0000_0000
  {
    Request(1, 8, timeout, Operands([0, 0, 0, 0], [0, 0, 0, 0]))
  }

  lemma InitialUsers(s: State)
    requires Initial(s) && s.sys.repaired
    ensures Inv(s) && s.sys.holder.Free? && NoneActive(s) && !s.sys.errorFlag && s.sys.dev.status.Idle?
    ensures forall i :: 0 <= i < |s.clients| ==> s.clients[i].User?
    ensures forall timeout: nat :: 0 < timeout <= 1000 ==> RequestAccepted(s.sys, SomeRequest(timeout))
  {
    InitialInv(s);
  }

  /** A call under force-error that gives up before the device is done; the error interrupt comes between
      the end of its wait and its RESET. It returns with the flag up, counted twice. */
  lemma LateError(r: Rules, s: State, req: Request) returns (acts: seq<Action>, t: State)
    requires Initial(s) && s.sys.repaired && 1 <= |s.clients| && RequestAccepted(s.sys, req)
    requires r.patience <= req.timeoutMs < LATENCY && !r.staying
    ensures Leads(r, s, acts, t) && Inv(t) && t.clients == s.clients[0 := Returned(Failed(-ETIMEDOUT))]
    ensures t.sys.errorFlag && t.sys.deviceError == ERR_FORCED && t.sys.late == 1
    ensures t.sys.holder.Free? && t.sys.dev.status.Idle? && t.sys.dev.faultControl == 0
    ensures t.sys.revision == s.sys.revision
    ensures t.sys.counters == Counters(1, 0, 1, 1, 0)
  {
    InitialUsers(s);
    hide Inv, Leads, RequestAccepted, Ended;
    var more, s1 := Injects(r, s, 0);
    acts := more;
    var s2;
    more, s2 := Submits(r, s1, 0, req);
    Join(r, s, acts, s1, more, s2);
    acts := acts + more;
    var s3;
    more, s3 := GivesUp(r, s2, 0, req, s1.sys.now + req.timeoutMs);
    Join(r, s, acts, s2, more, s3);
    acts := acts + more;
    more, t := LateEnd(r, s3, req);
    Join(r, s, acts, s3, more, t);
    acts := acts + more;
    assert t.clients == s.clients[0 := t.clients[0]];
  }

  lemma LateEnd(r: Rules, s: State, req: Request) returns (acts: seq<Action>, t: State)
    requires Inv(s) && 1 <= |s.clients| && s.clients[0] == Run(req, AtTimeoutReset) && s.sys.expired
    requires s.sys.dev.timer.Running? && s.sys.now <= s.sys.dev.timer.deadline && s.sys.dev.irqEnable == BOTH
    requires s.sys.dev.faultControl == FAULT_FORCE_ERROR
    ensures Leads(r, s, acts, t) && Inv(t) && t.clients == s.clients[0 := Returned(Failed(-ETIMEDOUT))]
    ensures t.sys.errorFlag && t.sys.deviceError == ERR_FORCED && t.sys.late == s.sys.late + 1 && t.sys.holder.Free?
    ensures t.sys.dev.status.Idle? && t.sys.dev.faultControl == 0 && t.sys.revision == s.sys.revision
    ensures var k := s.sys.counters;
            t.sys.counters == k.(timedOut := k.timedOut + 1, deviceErrors := k.deviceErrors + 1)
  {
    hide Inv, Leads, Ended;
    var ends, s1 := Ends(r, s);
    EndsBroken(s.sys.dev);
    var s2 := ReportsLate(r, s1);
    Join(r, s, ends, s1, [Handle], s2);
    acts, t := Recovers(r, s2, 0, req);
    Join(r, s, ends + [Handle], s2, acts, t);
    acts := ends + [Handle] + acts;
  }

  /** Serial and timely runs from probe whose calls all wait at least `patience`. */
  predicate Unhurried(s: State, acts: seq<Action>, patience: nat) {
    Legal(s, acts) && Serial(s, acts) && Timely(s, acts) && forall a :: a in acts ==> Waits(a, patience)
  }

  ghost predicate NeverLateWith(s: State, patience: nat) {
    forall acts :: Unhurried(s, acts, patience) ==> Execute(s, acts).sys.late == 0
  }

  predicate Balanced(s: State) {
    var k := s.sys.counters;
    s.sys.holder.Free? && NoneActive(s) ==> k.submitted == k.completed + k.timedOut + k.deviceErrors
  }

  ghost predicate BalancedWith(s: State, patience: nat) {
    forall acts :: Unhurried(s, acts, patience) ==> Balanced(Execute(s, acts))
  }

  lemma PatienceSuffices(s: State, acts: seq<Action>, patience: nat)
    requires Initial(s) && s.sys.repaired && patience >= LATENCY && Unhurried(s, acts, patience)
    ensures Execute(s, acts).sys.late == 0 && Balanced(Execute(s, acts))
  {
    assert forall a :: a in acts ==> Waits(a, LATENCY);
    FlagDown(s, acts);
    PatientBalance(s, acts);
    hide Serial, Timely, NoneActive;
  }

  lemma ImpatienceShows(s: State, patience: nat) returns (acts: seq<Action>)
    requires Initial(s) && s.sys.repaired && 1 <= |s.clients| && patience < LATENCY
    ensures Unhurried(s, acts, patience)
    ensures Execute(s, acts).sys.late != 0 && !Balanced(Execute(s, acts))
  {
    var r := Rules(true, false, patience);
    InitialUsers(s);
    var t;
    acts, t := LateError(r, s, SomeRequest(if patience == 0 then 1 else patience));
    hide Inv;
    KeepingMeans(r, s, acts);
    assert NoneActive(t);
  }

  /** The latency is the exact bound on patience: when every call waits at least `patience`, no error
      interrupt is ever late, and the counters always balance, if and only if `patience` is at least
      100 ms. */
  lemma PatienceIff(s: State, patience: nat)
    requires Initial(s) && s.sys.repaired && 1 <= |s.clients|
    ensures NeverLateWith(s, patience) <==> patience >= LATENCY
    ensures BalancedWith(s, patience) <==> patience >= LATENCY
  {
    hide Initial, Balanced, Serial, Timely;
    if patience >= LATENCY {
      forall acts | Unhurried(s, acts, patience)
        ensures Execute(s, acts).sys.late == 0 && Balanced(Execute(s, acts))
      {
        PatienceSuffices(s, acts, patience);
      }
    } else {
      var acts := ImpatienceShows(s, patience);
    }
  }

  /** What a late error does to the next call: it is begun after the first has returned, on an idle
      device without a fault, and fails with the first one's error. */
  lemma LateErrorPoisonsNext(s: State, first: Request, second: Request)
    requires Initial(s) && s.sys.repaired && 1 <= |s.clients|
    requires RequestAccepted(s.sys, first) && first.timeoutMs < LATENCY && RequestAccepted(s.sys, second)
    ensures exists before, m, after, t, r ::
              && Leads(r, s, before, m) && r.serial && m.clients == s.clients[0 := Run(second, AtReinit)]
              && m.sys.dev.status.Idle? && m.sys.dev.faultControl == 0 && m.sys.counters == Counters(1, 0, 1, 1, 0)
              && Leads(r, m, after, t) && t.clients == s.clients[0 := Returned(Failed(-EIO))]
  {
    var r := Rules(true, false, 0);
    InitialUsers(s);
    hide Inv, Leads, RequestAccepted, OperandDot;
    var before, s1 := LateError(r, s, first);
    var s2 := s1.(clients := s1.clients[0 := User]);
    Then(r, s, before, s1, Return(0), s2);
    StepKeeps(s1, Return(0));
    assert NoneActive(s2);
    SameRevision(s.sys, s2.sys, second);
    var calls, m := Calls(r, s2, 0, second);
    Join(r, s, before + [Return(0)], s2, calls, m);
    assert m.clients == s.clients[0 := Run(second, AtReinit)];
    var after, t, reply := Answers(r, m, 0, second);
    assert t.clients == s.clients[0 := Returned(Failed(-EIO))];
  }

  lemma SameRevision(s: Sys, s': Sys, req: Request)
    requires RequestAccepted(s, req) && s'.revision == s.revision
    ensures RequestAccepted(s', req)
  {}

  // ---------------------------------------------------------------- overlapping calls

  /** The first client's run fails; it has given up the mutex and not yet cleared the flag. */
  lemma ForcedFailure(r: Rules, s: State, req: Request) returns (acts: seq<Action>, t: State)
    requires Inv(s) && 1 <= |s.clients| && s.clients[0].User? && s.sys.holder.Free? && RequestAccepted(s.sys, req)
    requires !r.serial && r.patience <= req.timeoutMs
    requires s.sys.dev.status.Idle? && s.sys.dev.faultControl == FAULT_FORCE_ERROR && !s.sys.expired
    ensures Leads(r, s, acts, t) && Inv(t) && t.clients == s.clients[0 := Run(req, AtErrorReturn)]
    ensures t.sys.dev.status.Error? && t.sys.dev.errCode == ERR_FORCED && t.sys.deviceError == ERR_FORCED
    ensures t.sys.holder.Free? && t.sys.errorFlag && !t.sys.expired && t.sys.late == s.sys.late
    ensures t.sys.revision == s.sys.revision
    ensures t.sys.counters == Submitted(s.sys.counters).(deviceErrors := s.sys.counters.deviceErrors + 1)
  {
    hide Inv, Leads, RequestAccepted, Ended;
    var more, s1 := Submits(r, s, 0, req);
    acts := more;
    var s2;
    more, s2 := Ends(r, s1);
    EndsBroken(s1.sys.dev);
    Join(r, s, acts, s1, more, s2);
    acts := acts + more;
    var s3;
    more, s3 := Notices(r, s2, 0, req, s.sys.now + req.timeoutMs);
    Join(r, s, acts, s2, more, s3);
    acts := acts + more;
    t := LetsGo(r, s3, 0, req);
    Join(r, s, acts, s3, [Go(0)] + [Go(0)], t);
    acts := acts + ([Go(0)] + [Go(0)]);
    assert t.clients == s.clients[0 := t.clients[0]];
  }

  /** The second client's run is refused by the broken device, but the first one clears the flag before
      the second looks at it. */
  lemma Overtaken(r: Rules, s: State, first: Request, second: Request) returns (acts: seq<Action>, t: State)
    requires Inv(s) && 2 <= |s.clients|
    requires s.clients[0] == Run(first, AtErrorReturn) && s.clients[1] == Run(second, AtReinit)
    requires s.sys.dev.status.Error? && s.sys.dev.errCode == ERR_FORCED && !s.sys.expired
    ensures Leads(r, s, acts, t) && Inv(t) && t.sys.holder.Free? && t.sys.late == s.sys.late
    ensures t.clients == s.clients[0 := Returned(Failed(-EIO))][1 := Returned(Delivered(s.sys.dev.result))]
    ensures t.sys.dev.status.Error?
    ensures var k := s.sys.counters;
            t.sys.counters == k.(submitted := k.submitted + 1, deviceErrors := k.deviceErrors + 1,
                                 completed := k.completed + 1)
  {
    hide Inv, Leads;
    var more, s1 := Begin(r, s, 1, second);
    acts := more;
    var s2;
    more, s2 := Notices(r, s1, 1, second, s.sys.now + second.timeoutMs);
    Join(r, s, acts, s1, more, s2);
    acts := acts + more;
    var s3 := Blames(r, s2, 0, first);
    Join(r, s, acts, s2, [Go(0)], s3);
    acts := acts + [Go(0)];
    var s4 := Fetches(r, s3, 1, second);
    Join(r, s, acts, s3, [Go(1)] + [Go(1)], s4);
    acts := acts + ([Go(1)] + [Go(1)]);
    t := Delivers(r, s4, 1, second, s3.sys.dev.result);
    Join(r, s, acts, s4, [Go(1)] + [Go(1)], t);
    acts := acts + ([Go(1)] + [Go(1)]);
    assert t.clients == s.clients[0 := t.clients[0]][1 := t.clients[1]];
  }

  /** Two patient calls that overlap: the device refuses the second, its call returns success with an old
      result, and the counters account for more operations than were submitted although no interrupt was
      late. */
  lemma OverlapLosesError(s: State, first: Request, second: Request)
      returns (before: seq<Action>, m: State, after: seq<Action>, t: State)
    requires Initial(s) && s.sys.repaired && 2 <= |s.clients|
    requires RequestAccepted(s.sys, first) && RequestAccepted(s.sys, second)
    requires first.timeoutMs >= LATENCY && second.timeoutMs >= LATENCY
    ensures Leads(Rules(false, false, LATENCY), s, before, m) && Leads(Rules(false, true, LATENCY), m, after, t)
    ensures m.clients == s.clients[0 := Run(first, AtErrorReturn)][1 := Run(second, AtReinit)]
    ensures m.sys.dev.status.Error? && m.sys.dev.errCode == ERR_FORCED
    ensures t.clients == s.clients[0 := Returned(Failed(-EIO))][1 := Returned(Delivered(m.sys.dev.result))]
    ensures t.sys.dev.status.Error? && t.sys.late == 0 && t.sys.holder.Free? && NoneActive(t)
    ensures t.sys.counters == Counters(2, 1, 0, 2, 0)
  {
    InitialUsers(s);
    var r := Rules(false, false, LATENCY);
    hide Inv, Leads, RequestAccepted;
    var more, s1 := Injects(r, s, 1);
    before := more;
    SameRevision(s.sys, s1.sys, first);
    var s2;
    more, s2 := ForcedFailure(r, s1, first);
    Join(r, s, before, s1, more, s2);
    before := before + more;
    SameRevision(s.sys, s2.sys, second);
    more, m := Calls(r, s2, 1, second);
    Join(r, s, before, s2, more, m);
    before := before + more;
    after, t := Overtaken(Rules(false, true, LATENCY), m, first, second);
    assert t.clients == s.clients[0 := t.clients[0]][1 := t.clients[1]];
  }

  /** Patient and timely runs, calls overlapping or not. */
  predicate PatientTimely(s: State, acts: seq<Action>) {
    Legal(s, acts) && Timely(s, acts) && forall a :: a in acts ==> Waits(a, LATENCY)
  }

  /** On a run that splits where client `i` has just taken the mutex, the client gets its own verdict. */
  predicate OwnVerdict(s: State, before: seq<Action>, after: seq<Action>, i: nat)
    requires Legal(s, before)
  {
    var m := Execute(s, before);
    i < |m.clients| && m.clients[i].Run? && m.clients[i].at.AtReinit? && Completes(m, after, i) ==>
      Execute(m, after).clients[i].reply == ReplyOf(Expected(m.sys.dev, m.clients[i].req))
  }

  ghost predicate OwnVerdicts(s: State) {
    forall before, after, i :: PatientTimely(s, before) && PatientTimely(Execute(s, before), after) ==>
      OwnVerdict(s, before, after, i)
  }

  lemma {:induction false} AloneIsSerial(s: State, acts: seq<Action>)
    requires |s.clients| <= 1 && Legal(s, acts)
    ensures Serial(s, acts) && |Execute(s, acts).clients| <= 1
    decreases acts
  {
    if acts != [] {
      SoloSerial(s, acts[0]);
      StepClients(s, acts[0]);
      hide Apply, Enabled, SerialStep;
      AloneIsSerial(Apply(s, acts[0]), acts[1..]);
    }
  }

  lemma AloneGetsOwn(s: State, before: seq<Action>, after: seq<Action>, i: nat)
    requires Initial(s) && s.sys.repaired && |s.clients| <= 1
    requires PatientTimely(s, before) && PatientTimely(Execute(s, before), after)
    ensures OwnVerdict(s, before, after, i)
  {
    AloneIsSerial(s, before);
    AloneIsSerial(Execute(s, before), after);
    var m := Execute(s, before);
    if i < |m.clients| && m.clients[i].Run? && m.clients[i].at.AtReinit? && Completes(m, after, i) {
      hide Serial, Timely, Expected;
      PatientOutcome(s, before, after, i);
    }
  }

  /** Patience alone is enough for a single client, and for no larger number. */
  lemma SerialIff(s: State)
    requires Initial(s) && s.sys.repaired
    ensures OwnVerdicts(s) <==> |s.clients| <= 1
  {
    if |s.clients| <= 1 {
      forall before, after, i | PatientTimely(s, before) && PatientTimely(Execute(s, before), after)
        ensures OwnVerdict(s, before, after, i)
      {
        AloneGetsOwn(s, before, after, i);
      }
    } else {
      InitialUsers(s);
      var req := SomeRequest(LATENCY);
      var before, m, after, t := OverlapLosesError(s, req, req);
      NotOwnVerdict(s, before, m, after, t, req);
    }
  }

  lemma NotOwnVerdict(s: State, before: seq<Action>, m: State, after: seq<Action>, t: State, req: Request)
    requires Leads(Rules(false, false, LATENCY), s, before, m) && Leads(Rules(false, true, LATENCY), m, after, t)
    requires 2 <= |m.clients| && m.clients[1] == Run(req, AtReinit)
    requires m.sys.dev.status.Error? && m.sys.dev.errCode == ERR_FORCED
    requires 2 <= |t.clients| && t.clients[1] == Returned(Delivered(m.sys.dev.result))
    ensures PatientTimely(s, before) && PatientTimely(Execute(s, before), after) && !OwnVerdict(s, before, after, 1)
  {
    KeepingMeans(Rules(false, false, LATENCY), s, before);
    KeepingMeans(Rules(false, true, LATENCY), m, after);
    hide Keeping, Timely, OperandDot;
  }
}
