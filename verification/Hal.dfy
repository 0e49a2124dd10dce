/** The C++ hardware abstraction layer of cpp-hal/src/vnpu-hal.cpp: the in-process mock, and the Linux
    backend's translation between calls and ioctls.
 */
module Hal {
  import opened Words
  import opened Lanes
  import opened Device
  import opened Machine

  datatype FaultType = NoFault | IrqDrop | StuckBusy | CorruptResult | ForceError

  function FaultMask(f: FaultType): u32 {
    match f
    case NoFault => 0
    case IrqDrop => FAULT_IRQ_DROP
    case StuckBusy => FAULT_STUCK_BUSY
    case CorruptResult => FAULT_CORRUPT_RESULT
    case ForceError => FAULT_FORCE_ERROR
  }

  datatype Call =
    | RunDotCall(a: seq<int8>, b: seq<int8>, timeout: int)
    | ResetCall
    | SetFaultCall(fault: FaultType)
    | GetInfoCall
    | GetStatsCall

  /** What a caller of the HAL gets: a value, or an exception by class. */
  datatype Answer =
    | Result(value: int32)
    | Invalid
    | TimedOut
    | DeviceFailed
    | SystemFailed
    | Completed
    | DeviceInfo(abiVersion: u32, deviceId: u32, revision: u32, capabilities: u32)
    | Stats(counters: Counters)

  /** The argument checks, the same in both backends. */
  predicate Accepted(a: seq<int8>, b: seq<int8>, timeout: int) {
    |a| == |b| && |a| == 8 && |b| == 8 && 0 < timeout <= 1000
  }

  // ---------------------------------------------------------------- the mock

  datatype MockState = MockState(faultMask: u32, stats: Counters)

  /** The longest vectors whose sums cannot leave 32 bits. */
  const LONGEST: nat := 0x1_FFFF

  function Small(a: seq<int8>, b: seq<int8>): int32
    requires |a| == |b| <= LONGEST
  {
    DotBound(a, b);
    Dot(a, b)
  }

  function MockRun(m: MockState, a: seq<int8>, b: seq<int8>, timeout: int): (Answer, MockState) {
    if !Accepted(a, b, timeout) then (Invalid, m)
    else
      var k := m.stats.(submitted := m.stats.submitted + 1);
      if m.faultMask == FAULT_CORRUPT_RESULT then
        (Result(FlipLowBit(Small(a, b))), m.(stats := k.(completed := k.completed + 1)))
      else if m.faultMask == FAULT_STUCK_BUSY || m.faultMask == FAULT_IRQ_DROP then
        (TimedOut, m.(stats := k.(timedOut := k.timedOut + 1)))
      else if m.faultMask == FAULT_FORCE_ERROR then
        (DeviceFailed, m.(stats := k.(deviceErrors := k.deviceErrors + 1)))
      else
        (Result(Small(a, b)), m.(stats := k.(completed := k.completed + 1)))
  }

  function MockStep(m: MockState, call: Call): (Answer, MockState) {
    match call
    case RunDotCall(a, b, timeout) => MockRun(m, a, b, timeout)
    case ResetCall => (Completed, MockState(0, m.stats.(resets := m.stats.resets + 1)))
    case SetFaultCall(f) => (Completed, m.(faultMask := FaultMask(f)))
    case GetInfoCall => (DeviceInfo(1, 0x564E5055, 0, 0), m)
    case GetStatsCall => (Stats(m.stats), m)
  }

  /** The mock's runs in numbers: arguments are refused, with nothing counted, exactly when a vector does
      not have eight elements or the timeout is outside 1..1000; otherwise the fault mask decides. */
  lemma MockRunTable(m: MockState, a: seq<int8>, b: seq<int8>, timeout: int)
    ensures |a| != 8 || |b| != 8 || timeout < 1 || timeout > 1000 ==> MockRun(m, a, b, timeout) == (Invalid, m)
    ensures |a| == |b| == 8 && 1 <= timeout <= 1000 ==>
              var (answer, m') := MockRun(m, a, b, timeout);
              var k := m.stats;
              && m'.faultMask == m.faultMask && m'.stats.resets == k.resets && m'.stats.submitted == k.submitted + 1
              && (m.faultMask == 1 || m.faultMask == 2 ==>
                    answer == TimedOut && m'.stats == k.(submitted := k.submitted + 1, timedOut := k.timedOut + 1))
              && (m.faultMask == 8 ==>
                    && answer == DeviceFailed
                    && m'.stats == k.(submitted := k.submitted + 1, deviceErrors := k.deviceErrors + 1))
              && (m.faultMask !in {1, 2, 8} ==>
                    && answer.Result? && m'.stats == k.(submitted := k.submitted + 1, completed := k.completed + 1)
                    && (if m.faultMask == 4 then ToWord(answer.value) == Xor(ToWord(Small(a, b)), 1)
                        else answer.value == Dot(a, b)))
  {
    if |a| == |b| {
      if |a| <= LONGEST {
        FlipLowBitIsXor(Small(a, b));
      }
    }
    hide Xor, ToWord, FlipLowBit, Dot;
  }

  /** The masks behind the names. */
  lemma FaultNames()
    ensures FaultMask(NoFault) == 0 && FaultMask(IrqDrop) == 1 && FaultMask(StuckBusy) == 2
    ensures FaultMask(CorruptResult) == 4 && FaultMask(ForceError) == 8
  {}

  /** What the mock answers to a sequence of calls. */
  function MockAnswers(m: MockState, calls: seq<Call>): seq<Answer>
    decreases calls
  {
    if calls == [] then []
    else var (answer, m') := MockStep(m, calls[0]); [answer] + MockAnswers(m', calls[1..])
  }

  function MockAfter(m: MockState, calls: seq<Call>): MockState
    decreases calls
  {
    if calls == [] then m else MockAfter(MockStep(m, calls[0]).1, calls[1..])
  }

  const NO_STATS := Counters(0, 0, 0, 0, 0)
  const NEW_MOCK := MockState(0, NO_STATS)

  /** Statistics kept from the outside: by what was called and what was answered. */
  function Noted(k: Counters, call: Call, answer: Answer): Counters {
    match answer
    case Result(_) => k.(submitted := k.submitted + 1, completed := k.completed + 1)
    case TimedOut => k.(submitted := k.submitted + 1, timedOut := k.timedOut + 1)
    case DeviceFailed => k.(submitted := k.submitted + 1, deviceErrors := k.deviceErrors + 1)
    case _ => if call.ResetCall? then k.(resets := k.resets + 1) else k
  }

  function Tally(k: Counters, calls: seq<Call>, answers: seq<Answer>): Counters
    requires |calls| == |answers|
    decreases calls
  {
    if calls == [] then k else Tally(Noted(k, calls[0], answers[0]), calls[1..], answers[1..])
  }

  lemma {:induction false} MockTally(m: MockState, calls: seq<Call>)
    ensures |MockAnswers(m, calls)| == |calls|
    ensures MockAfter(m, calls).stats == Tally(m.stats, calls, MockAnswers(m, calls))
    decreases calls
  {
    hide Small;
    if calls != [] {
      var (answer, m') := MockStep(m, calls[0]);
      MockTally(m', calls[1..]);
      assert MockAnswers(m, calls)[1..] == MockAnswers(m', calls[1..]);
    }
  }

  lemma {:induction false} TallyBalances(k: Counters, calls: seq<Call>, answers: seq<Answer>)
    requires |calls| == |answers| && k.submitted == k.completed + k.timedOut + k.deviceErrors
    ensures var t := Tally(k, calls, answers); t.submitted == t.completed + t.timedOut + t.deviceErrors
    decreases calls
  {
    if calls != [] {
      TallyBalances(Noted(k, calls[0], answers[0]), calls[1..], answers[1..]);
    }
  }

  /** After any calls the mock reports exactly how often each kind of answer was given and how often it
      was reset, and every accepted run is in one of the three endings. */
  lemma StatsReport(calls: seq<Call>)
    ensures |MockAnswers(NEW_MOCK, calls)| == |calls|
    ensures var k := Tally(NO_STATS, calls, MockAnswers(NEW_MOCK, calls));
            && MockStep(MockAfter(NEW_MOCK, calls), GetStatsCall).0 == Stats(k)
            && k.submitted == k.completed + k.timedOut + k.deviceErrors
  {
    MockTally(NEW_MOCK, calls);
    TallyBalances(NO_STATS, calls, MockAnswers(NEW_MOCK, calls));
    hide Tally, MockAnswers, MockAfter;
  }

  class MockVnpuDevice {
    var faultMask: u32
    var stats: Counters

    ghost function State(): MockState
      reads this
    {
      MockState(faultMask, stats)
    }

    constructor ()
      ensures State() == NEW_MOCK
    {
      faultMask := 0;
      stats := NO_STATS;
    }

    method GetInfo() returns (answer: Answer)
      ensures answer == MockStep(State(), GetInfoCall).0
    {
      answer := DeviceInfo(1, 0x564E5055, 0, 0);
    }

    method RunDot(a: seq<int8>, b: seq<int8>, timeout: int) returns (answer: Answer)
      modifies this
      ensures (answer, State()) == MockStep(old(State()), RunDotCall(a, b, timeout))
      ensures answer == Invalid <==> |a| != 8 || |b| != 8 || timeout < 1 || timeout > 1000
      ensures answer == Invalid ==> State() == old(State())
    {
      if |a| != |b| || |a| != 8 || |b| != 8 || timeout <= 0 || timeout > 1000 {
        return Invalid;
      }
      if faultMask == FaultMask(CorruptResult) {
        stats := stats.(submitted := stats.submitted + 1);
        stats := stats.(completed := stats.completed + 1);
        var dot := DotProduct(a, b);
        return Result(FlipLowBit(dot));
      }
      if faultMask == FaultMask(StuckBusy) || faultMask == FaultMask(IrqDrop) {
        stats := stats.(submitted := stats.submitted + 1);
        stats := stats.(timedOut := stats.timedOut + 1);
        return TimedOut;
      }
      if faultMask == FaultMask(ForceError) {
        stats := stats.(submitted := stats.submitted + 1);
        stats := stats.(deviceErrors := stats.deviceErrors + 1);
        return DeviceFailed;
      }
      stats := stats.(submitted := stats.submitted + 1);
      stats := stats.(completed := stats.completed + 1);
      var dot := DotProduct(a, b);
      answer := Result(dot);
    }

    method Reset()
      modifies this
      ensures State() == MockStep(old(State()), ResetCall).1
    {
      stats := stats.(resets := stats.resets + 1);
      faultMask := FaultMask(NoFault);
    }

    method SetFault(f: FaultType)
      modifies this
      ensures State() == MockStep(old(State()), SetFaultCall(f)).1
    {
      faultMask := FaultMask(f);
    }

    method GetStats() returns (answer: Answer)
      ensures answer == MockStep(State(), GetStatsCall).0
    {
      answer := Stats(stats);
    }

    static method DotProduct(a: seq<int8>, b: seq<int8>) returns (result: int32)
      requires |a| == |b| <= LONGEST
      ensures result == Dot(a, b)
    {
      result := 0;
      for i := 0 to |a|
        invariant result == Dot(a[..i], b[..i])
      {
        assert a[..i + 1][..i] == a[..i] && b[..i + 1][..i] == b[..i];
        DotBound(a[..i + 1], b[..i + 1]);
        result := result + Product(a[i], b[i]);
      }
      assert a[..|a|] == a && b[..|b|] == b;
    }
  }

  // ---------------------------------------------------------------- the Linux backend

  function RequestFor(a: seq<int8>, b: seq<int8>, timeout: int): Request
    requires Accepted(a, b, timeout)
  {
    Request(1, 8, timeout, Operands(Pack(a), Pack(b)))
  }

  /** Filling in the ioctl argument of `vnpu_run_dot`. */
  method BuildRequest(a: seq<int8>, b: seq<int8>, timeout: int) returns (request: Request)
    requires Accepted(a, b, timeout)
    ensures request == RequestFor(a, b, timeout)
    ensures request.abiVersion == 1 && request.vectorLength == 8 && request.timeoutMs == timeout
    ensures forall k :: 0 <= k < 16 ==>
              && Lane(request.input.a, k) == (if k < 8 then a[k] else 0)
              && Lane(request.input.b, k) == (if k < 8 then b[k] else 0)
  {
    var inputA, inputB := new u32[4], new u32[4];
    PackInt8Input(a, inputA);
    PackInt8Input(b, inputB);
    request := Request(1, |a|, timeout, Operands(inputA[..], inputB[..]));
    forall k | 0 <= k < 16
      ensures Lane(request.input.a, k) == (if k < 8 then a[k] else 0)
      ensures Lane(request.input.b, k) == (if k < 8 then b[k] else 0)
    {
      UnpackPack(a, k);
      UnpackPack(b, k);
    }
    hide Lane, Pack;
  }

  /** What the HAL lets through, the driver takes, and the other way round: for vectors of eight elements and
      every timeout a request can carry. */
  lemma AcceptedAlike(s: Sys, a: seq<int8>, b: seq<int8>, timeout: u32)
    requires |a| == |b| == 8 && (s.revision == 1 || s.revision == 2)
    ensures Accepted(a, b, timeout) <==> RequestAccepted(s, Request(1, 8, timeout, Operands(Pack(a), Pack(b))))
    ensures Accepted(a, b, timeout) <==> 1 <= timeout <= 1000
  {
    hide Pack;
  }

  /** The codes of RUN_DOT as the HAL reports them: two are recognised, every other failure passes for a
      result of zero. */
  lemma CodesReported(code: int)
    ensures InterpretRun(Failed(code)) == TimedOut <==> code == -110
    ensures InterpretRun(Failed(code)) == DeviceFailed <==> code == -5
    ensures code != -110 && code != -5 ==> InterpretRun(Failed(code)) == Result(0)
  {}

  /** The exception a failing RUN_DOT ioctl raises. A code without a branch of its own falls through to
      the success return, with the result field as the driver left it: zero. */
  function InterpretRun(reply: Reply): Answer {
    match reply
    case Delivered(r) => Result(r)
    case Failed(code) => if code == -ETIMEDOUT then TimedOut else if code == -EIO then DeviceFailed else Result(0)
    case _ => SystemFailed
  }

  function Interpret(call: Call, reply: Reply): Answer {
    match call
    case RunDotCall(_, _, _) => InterpretRun(reply)
    case ResetCall => if reply.Success? then Completed else SystemFailed
    case SetFaultCall(_) => if reply == Failed(-EINVAL) then Invalid else Completed
    case GetInfoCall => if reply.Info? then DeviceInfo(reply.abiVersion, reply.deviceId, 0, 0) else SystemFailed
    case GetStatsCall => if reply.Snapshot? then Stats(reply.counters) else SystemFailed
  }

  /** The information both backends report: ABI version and device id, and zero for what the ABI reserves. */
  lemma InfoReported(m: MockState)
    ensures MockStep(m, GetInfoCall) == (DeviceInfo(1, 0x564E5055, 0, 0), m)
    ensures Interpret(GetInfoCall, Info(1, 0x564E5055)) == DeviceInfo(1, 0x564E5055, 0, 0)
  {}

  function CommandFor(call: Call): Command
    requires call.RunDotCall? ==> Accepted(call.a, call.b, call.timeout)
  {
    match call
    case RunDotCall(a, b, timeout) => RunDot(RequestFor(a, b, timeout))
    case ResetCall => ResetDevice
    case SetFaultCall(f) => SetFault(FaultMask(f))
    case GetInfoCall => GetInfo
    case GetStatsCall => GetStat
  }
}
