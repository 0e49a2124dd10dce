/** Callers who wait at least as long as the device takes. Under serial and timely schedules no error
    interrupt then comes late, the error flag is down whenever a call takes the mutex, every reply is
    the expected one and the counters balance exactly: the conditions are on the requests and on the
    schedule alone.
 */
module Patience {
  import opened Words
  import opened Lanes
  import opened Device
  import opened DeviceInvariant
  import opened DeviceFacts
  import opened Machine
  import opened Protocol
  import opened Accounting
  import opened Outcome
  import opened Runs
  import DeviceTraces
  import RegisterMap

  /** A call waits long enough for its own operation, and gives up only when there is nothing to come. */
  predicate WaitsEnough(s: Sys, c: Client) {
    c.Run? ==>
      && c.req.timeoutMs >= LATENCY
      && (c.at.AtCount? && s.dev.timer.Running? ==> s.dev.timer.deadline <= s.now + LATENCY)
      && (c.at.AtWait? && s.dev.timer.Running? ==> s.dev.timer.deadline <= c.at.expiry)
      && (c.at.AtTimeoutReset? ==> s.dev.timer.Stopped? && s.dev.irqStatus == NO_FLAGS)
  }

  predicate AllPatient(s: State) {
    forall i :: 0 <= i < |s.clients| ==> WaitsEnough(s.sys, s.clients[i])
  }

  predicate PatientInv(s: State) {
    Inv(s) && Ledger(s) && s.sys.late == 0 && AllPatient(s)
  }

  lemma RunPatience(s: Sys, i: nat, req: Request, at: RunPoint)
    requires Global(s) && Local(s, i, Run(req, at)) && CanRun(s, at) && WaitsEnough(s, Run(req, at))
    ensures var (s', c') := RunStep(s, i, req, at); WaitsEnough(s', c') && s'.late == s.late && s'.now == s.now
  {
    if at.AtStart? {
      StartWrite(s.dev, s.now);
    }
    hide Write, AfterRead, ReadValue, Reachable;
  }

  lemma CalmPatience(s: Sys, i: nat, c: Client)
    requires CanGo(s, c) && !c.Run?
    ensures var (s', c') := ClientStep(s, i, c); WaitsEnough(s', c') && s'.late == s.late && s'.now == s.now
  {
    hide Write, ReadValue, LowNibble;
  }

  /** What another client does cannot disturb a wait: the device belongs to the one that waits. */
  lemma OtherPatience(s: Sys, s': Sys, i: nat, j: nat, c: Client)
    requires i != j && Local(s, j, c) && Respects(s, s', i) && s'.now == s.now && WaitsEnough(s, c)
    ensures WaitsEnough(s', c)
  {}

  lemma Replaced(s: State, sys': Sys, i: nat, c': Client)
    requires Inv(s) && i < |s.clients| && AllPatient(s)
    requires Respects(s.sys, sys', i) && sys'.now == s.sys.now && WaitsEnough(sys', c')
    ensures AllPatient(State(sys', s.clients[i := c']))
  {
    hide WaitsEnough, Global, Respects;
    var clients' := s.clients[i := c'];
    forall j | 0 <= j < |clients'|
      ensures WaitsEnough(sys', clients'[j])
    {
      if j != i {
        assert Local(s.sys, j, s.clients[j]);
        OtherPatience(s.sys, sys', i, j, s.clients[j]);
      }
    }
  }

  lemma GoPatience(s: State, i: nat)
    requires PatientInv(s) && Enabled(s, Go(i))
    ensures AllPatient(Apply(s, Go(i))) && Apply(s, Go(i)).sys.late == 0
  {
    var c := s.clients[i];
    assert Local(s.sys, i, c);
    hide WaitsEnough, Ledger, RunStep, Local, Global, Respects;
    ClientKeeps(s.sys, i, c);
    var (sys', c') := ClientStep(s.sys, i, c);
    if c.Run? {
      RunPatience(s.sys, i, c.req, c.at);
    } else {
      CalmPatience(s.sys, i, c);
    }
    Replaced(s, sys', i, c');
  }

  lemma WakePatience(s: State, a: Action)
    requires PatientInv(s) && Enabled(s, a) && TimelyStep(s, a) && (a.Wake? || a.Timeout?)
    ensures AllPatient(Apply(s, a)) && Apply(s, a).sys.late == 0
  {
    var c := s.clients[a.i];
    assert Local(s.sys, a.i, c) && WaitsEnough(s.sys, c);
    hide Ledger, Local, Global;
    match a {
      case Wake(i) =>
        WakeKeeps(s.sys, i, c);
        Replaced(s, Woken(s.sys), i, c.(at := AtCheck));
      case Timeout(i) =>
        TimeoutKeeps(s.sys, i, c);
        Replaced(s, s.sys.(expired := true), i, c.(at := AtTimeoutReset));
    }
  }

  /** No error interrupt finds its wait expired. */
  lemma NeverLate(s: State, i: nat)
    requires PatientInv(s) && s.sys.holder == Held(i) && s.sys.dev.irqStatus != NO_FLAGS
    ensures !s.sys.expired
  {
    assert Local(s.sys, i, s.clients[i]) && WaitsEnough(s.sys, s.clients[i]);
    PendingIsActive(s.sys, i, s.clients[i]);
  }

  lemma DevicePatience(s: State, a: Action)
    requires PatientInv(s) && Enabled(s, a) && (a.Handle? || a.Expire?)
    ensures AllPatient(Apply(s, a)) && Apply(s, a).sys.late == 0
  {
    match s.sys.holder {
      case Free =>
        FreeIsQuiet(s.sys);
        QuietHandler(s.sys);
      case Held(i) =>
        if a.Expire? {
          FirePatience(s);
        } else if s.sys.dev.irqStatus == NO_FLAGS {
          LineDown(s.sys);
          IdleHandler(s.sys);
        } else {
          NeverLate(s, i);
          RaisedHandler(s.sys);
        }
    }
    hide Handler, Fire, Inv, Ledger;
  }

  lemma FirePatience(s: State)
    requires AllPatient(s) && s.sys.dev.timer.Running?
    ensures AllPatient(s.(sys := s.sys.(dev := Fire(s.sys.dev))))
  {
    DeviceTraces.FireTimer(s.sys.dev);
    hide Fire;
  }

  lemma TickPatience(s: State, ms: nat)
    requires AllPatient(s)
    ensures AllPatient(s.(sys := s.sys.(now := s.sys.now + ms)))
  {}

  lemma EntryPatience(s: State, i: nat, cmd: Command)
    requires AllPatient(s) && i < |s.clients| && Waits(Call(i, cmd), LATENCY)
    ensures AllPatient(s.(clients := s.clients[i := Entered(s.sys, cmd)]))
  {
    hide MaskRejected, ReadValue, RequestAccepted;
  }

  lemma PatientStep(s: State, a: Action)
    requires PatientInv(s) && Enabled(s, a) && SerialStep(s, a) && TimelyStep(s, a) && Waits(a, LATENCY)
    ensures PatientInv(Apply(s, a))
  {
    StepKeeps(s, a);
    StepBooks(s, a);
    match a {
      case Call(i, cmd) => EntryPatience(s, i, cmd);
      case Go(i) => GoPatience(s, i);
      case Wake(_) => WakePatience(s, a);
      case Timeout(_) => WakePatience(s, a);
      case Return(i) =>
      case Expire => DevicePatience(s, a);
      case Handle => DevicePatience(s, a);
      case Tick(ms) => TickPatience(s, ms);
    }
    hide Inv, Ledger, ClientStep, Handler, Fire, Entered;
  }

  lemma {:induction false} PatientRunOn(s: State, acts: seq<Action>)
    requires PatientInv(s) && Legal(s, acts) && Serial(s, acts) && Timely(s, acts)
    requires forall a :: a in acts ==> Waits(a, LATENCY)
    ensures PatientInv(Execute(s, acts))
    decreases acts
  {
    hide PatientInv, Apply, Enabled, SerialStep, TimelyStep, Waits;
    if acts != [] {
      assert acts[0] in acts;
      PatientStep(s, acts[0]);
      PatientRunOn(Apply(s, acts[0]), acts[1..]);
    }
  }

  /** A schedule of patient calls that do not overlap, from probe on. */
  predicate PatientRun(s: State, acts: seq<Action>) {
    && Initial(s) && s.sys.repaired && Legal(s, acts) && Serial(s, acts) && Timely(s, acts)
    && forall a :: a in acts ==> Waits(a, LATENCY)
  }

  lemma PatientRunKeeps(s: State, acts: seq<Action>)
    requires PatientRun(s, acts)
    ensures PatientInv(Execute(s, acts))
  {
    InitialInv(s);
    InitialLedger(s);
    assert AllPatient(s);
    hide Inv, Ledger, AllPatient;
    PatientRunOn(s, acts);
  }

  // ---------------------------------------------------------------- what patience buys

  /** No error interrupt is ever late, and the flag is down whenever a RUN_DOT has taken the mutex. */
  lemma FlagDown(s: State, acts: seq<Action>)
    requires PatientRun(s, acts)
    ensures var t := Execute(s, acts);
            && t.sys.late == 0
            && forall i :: 0 <= i < |t.clients| && t.clients[i].Run? && t.clients[i].at.AtReinit? ==> !t.sys.errorFlag
  {
    PatientRunKeeps(s, acts);
    hide Inv, AllPatient, OneActive;
  }

  lemma PatientMeansDetermined(s: State, i: nat)
    requires PatientInv(s) && i < |s.clients| && s.clients[i].Run? && s.clients[i].at.AtReinit? && !s.sys.errorFlag
    ensures Determined(FoundBy(s.sys), s.clients[i].req)
  {
    assert WaitsEnough(s.sys, s.clients[i]);
    hide Expected;
  }

  /** Every patient call gets the expected reply. */
  lemma PatientOutcome(s0: State, before: seq<Action>, after: seq<Action>, i: nat)
    requires PatientRun(s0, before)
    requires var s := Execute(s0, before);
             && i < |s.clients| && s.clients[i].Run? && s.clients[i].at.AtReinit?
             && Legal(s, after) && Serial(s, after) && Timely(s, after) && Return(i) !in after
    ensures var s := Execute(s0, before);
            var s' := Execute(s, after);
            i < |s'.clients| && (s'.clients[i].Returned? ==>
              s'.clients[i].reply == ReplyOf(Expected(s.sys.dev, s.clients[i].req)))
  {
    FlagDown(s0, before);
    PatientRunKeeps(s0, before);
    PatientMeansDetermined(Execute(s0, before), i);
    hide PatientInv, Expected;
    RunDotOutcome(s0, before, after, i);
  }

  /** A run that splits where client `i` has just taken the mutex, and its continuation. */
  predicate Splits(s0: State, before: seq<Action>, after: seq<Action>, i: nat) {
    && PatientRun(s0, before)
    && var s := Execute(s0, before);
       && i < |s.clients| && s.clients[i].Run? && s.clients[i].at.AtReinit?
       && Legal(s, after) && Serial(s, after) && Timely(s, after) && Return(i) !in after
       && i < |Execute(s, after).clients|
  }

  lemma SplitLength(s0: State, before: seq<Action>, after: seq<Action>, i: nat)
    requires Splits(s0, before, after, i)
    ensures var req := Execute(s0, before).clients[i].req; req.vectorLength == 8 || req.vectorLength == 16
  {
    PatientRunKeeps(s0, before);
    var s := Execute(s0, before);
    assert Local(s.sys, i, s.clients[i]);
    hide Ledger, AllPatient, PatientRun;
    AcceptedLength(s.sys, s.clients[i].req);
  }

  /** On a device found idle, STATUS reading 0, the reply is the dot product of exactly as many lanes as the
      request asks for, altered or withheld as the number in FAULT_CONTROL says. */
  lemma IdleReply(s0: State, before: seq<Action>, after: seq<Action>, i: nat)
    requires Splits(s0, before, after, i) && ReadValue(Execute(s0, before).sys.dev, 0x010) == 0
    ensures var s := Execute(s0, before);
            var s' := Execute(s, after);
            var fault := ReadValue(s.sys.dev, 0x180);
            var req := s.clients[i].req;
            && (req.vectorLength == 8 || req.vectorLength == 16)
            && var dot := Dot(Unpack(req.input.a)[..req.vectorLength], Unpack(req.input.b)[..req.vectorLength]);
            && (s'.clients[i].Returned? ==>
                  var reply := s'.clients[i].reply;
                  if fault == 1 || fault == 2 then reply == Failed(-110)
                  else if fault == 8 then reply == Failed(-5)
                  else if fault == 4 then
                    reply.Delivered? && ToWord(reply.result) == Xor(RegisterMap.WordOf(dot), 1)
                  else reply.Delivered? && reply.result == dot)
  {
    SplitLength(s0, before, after, i);
    PatientOutcome(s0, before, after, i);
    var s := Execute(s0, before);
    var req := s.clients[i].req;
    StatusRead(s.sys.dev);
    var dot := OperandDot(req.input, req.vectorLength);
    assert dot == Dot(Unpack(req.input.a)[..req.vectorLength], Unpack(req.input.b)[..req.vectorLength]) by {
      hide Dot;
    }
    RegisterMap.WordOfResult(dot);
    FlipLowBitIsXor(dot);
    hide OperandDot, PatientRun, ReadValue, Xor, ToWord, RegisterMap.WordOf, Dot, FlipLowBit;
  }

  /** The same for a request packed from two vectors: without a fault the reply is their dot product. */
  lemma PackedReply(s0: State, before: seq<Action>, after: seq<Action>, i: nat, a: seq<int8>, b: seq<int8>)
    requires Splits(s0, before, after, i) && ReadValue(Execute(s0, before).sys.dev, 0x010) == 0
    requires var s := Execute(s0, before);
             && ReadValue(s.sys.dev, 0x180) == 0
             && |a| == |b| == s.clients[i].req.vectorLength
             && s.clients[i].req.input == Operands(Pack(a), Pack(b))
    ensures var s' := Execute(Execute(s0, before), after);
            s'.clients[i].Returned? ==> s'.clients[i].reply.Delivered? && s'.clients[i].reply.result == Dot(a, b)
  {
    SplitLength(s0, before, after, i);
    PatientOutcome(s0, before, after, i);
    var s := Execute(s0, before);
    StatusRead(s.sys.dev);
    PackedDot(a, b, |a|);
    hide PatientRun, ReadValue, LaneDot, Dot, Pack;
  }

  /** On a device found in ERROR or DONE the reply is the error the device reports: -22 for code 1, -5 for
      code 3, and -16 for a device that was done already. */
  lemma RefusedReply(s0: State, before: seq<Action>, after: seq<Action>, i: nat)
    requires Splits(s0, before, after, i) && ReadValue(Execute(s0, before).sys.dev, 0x010) >= 2
    ensures var s := Execute(s0, before);
            var s' := Execute(s, after);
            var code := if ReadValue(s.sys.dev, 0x010) == 2 then -16
                        else if ReadValue(s.sys.dev, 0x01C) == 1 then -22 else -5;
            s'.clients[i].Returned? ==> s'.clients[i].reply == Failed(code)
  {
    PatientOutcome(s0, before, after, i);
    PatientRunKeeps(s0, before);
    var s := Execute(s0, before);
    StatusRead(s.sys.dev);
    DeviceOf(s);
    assert Coherent(s.sys.dev);
    hide PatientRun, ReadValue, Ledger, AllPatient, OperandDot;
  }

  /** The counters balance exactly whenever the mutex is free and no failing call is on its way out. */
  lemma PatientBalance(s: State, acts: seq<Action>)
    requires PatientRun(s, acts)
    ensures var t := Execute(s, acts);
            var k := t.sys.counters;
            t.sys.holder.Free? && NoneActive(t) ==> k.submitted == k.completed + k.timedOut + k.deviceErrors
  {
    PatientRunKeeps(s, acts);
    CountersBalance(s, acts);
    hide Inv, Ledger, AllPatient;
  }
}
