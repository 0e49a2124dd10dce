/** The mock against the whole stack: on every timely schedule HAL, driver and device give the answers
    the mock gives, for exactly those sequences of calls that keep a discipline the mock can follow.
 */
module Refinement {
  import opened Lanes
  import opened Device
  import opened DeviceInvariant
  import opened Machine
  import opened Protocol
  import opened Outcome
  import opened Solo
  import opened Returns
  import opened Hal

  /** One call on the stack: the schedule its ioctl ran under, the reply, and the system afterwards. A
      call the HAL rejects never reaches the driver. */
  datatype Turn = Turn(call: Call, body: seq<Action>, reply: Reply, after: State)

  predicate Rejected(call: Call) {
    call.RunDotCall? && !Accepted(call.a, call.b, call.timeout)
  }

  predicate Takes(s: State, t: Turn) {
    if Rejected(t.call) then t.after == s else Executes(s, CommandFor(t.call), t.body, t.reply, t.after)
  }

  predicate Transcript(s: State, turns: seq<Turn>)
    decreases turns
  {
    turns == [] || (Takes(s, turns[0]) && Transcript(turns[0].after, turns[1..]))
  }

  function CallsOf(turns: seq<Turn>): seq<Call> {
    if turns == [] then [] else [turns[0].call] + CallsOf(turns[1..])
  }

  function StackAnswer(t: Turn): Answer {
    if Rejected(t.call) then Invalid else Interpret(t.call, t.reply)
  }

  function StackAnswers(turns: seq<Turn>): seq<Answer> {
    if turns == [] then [] else [StackAnswer(turns[0])] + StackAnswers(turns[1..])
  }

  // ---------------------------------------------------------------- the discipline

  /** How the last run went, as far as it still matters. After a timeout the device has been reset and
      has lost its fault, which the mock keeps; after a forced error the device stays in ERROR. */
  datatype Mode = Synced | AfterTimeout | AfterError

  predicate TimingOut(m: MockState) {
    m.faultMask == FAULT_IRQ_DROP || m.faultMask == FAULT_STUCK_BUSY
  }

  function NextMode(mode: Mode, m: MockState, call: Call): Mode {
    match call
    case RunDotCall(_, _, _) =>
      if Rejected(call) then mode
      else if TimingOut(m) then AfterTimeout
      else if m.faultMask == FAULT_FORCE_ERROR then AfterError
      else mode
    case ResetCall => Synced
    case SetFaultCall(_) => if mode.AfterTimeout? then Synced else mode
    case _ => mode
  }

  /** A call the mock predicts: anything but a run; a run in step that waits as long as the device takes
      or is to time out anyway; and after a forced error another run that is to be forced to fail. */
  predicate Predictable(mode: Mode, m: MockState, call: Call) {
    call.RunDotCall? && !Rejected(call) ==>
      || (mode.Synced? && (TimingOut(m) || call.timeout >= LATENCY))
      || (mode.AfterError? && m.faultMask == FAULT_FORCE_ERROR)
  }

  predicate Disciplined(mode: Mode, m: MockState, calls: seq<Call>)
    decreases calls
  {
    calls == [] ||
    (&& Predictable(mode, m, calls[0])
     && Disciplined(NextMode(mode, m, calls[0]), MockStep(m, calls[0]).1, calls[1..]))
  }

  // ---------------------------------------------------------------- the simulation

  predicate Simulates(mode: Mode, m: MockState, s: State) {
    && AtRest(s) && s.sys.counters == m.stats
    && SingleFault(m.faultMask)
    && match mode
       case Synced => s.sys.dev.status.Idle? && s.sys.dev.faultControl == m.faultMask
       case AfterTimeout => s.sys.dev.status.Idle? && s.sys.dev.faultControl == 0 && TimingOut(m)
       case AfterError =>
         s.sys.dev.status.Error? && s.sys.dev.errCode == ERR_FORCED && s.sys.dev.faultControl == m.faultMask
  }

  lemma RequestIsAccepted(s: State, call: Call)
    requires AtRest(s) && call.RunDotCall? && !Rejected(call)
    ensures RequestAccepted(s.sys, RequestFor(call.a, call.b, call.timeout))
  {
    hide Pack;
  }

  /** The packed request carries the mock's dot product. */
  lemma SameDot(call: Call)
    requires call.RunDotCall? && !Rejected(call)
    ensures var req := RequestFor(call.a, call.b, call.timeout);
            OperandDot(req.input, req.vectorLength) == Small(call.a, call.b)
  {
    PackedDot(call.a, call.b, 8);
    hide Pack, LaneDot, Dot;
  }

  /** What the stack answers to a run whose verdict is determined. */
  lemma DeterminedTurn(mode: Mode, m: MockState, s: State, t: Turn)
    requires Simulates(mode, m, s) && Takes(s, t) && t.call.RunDotCall? && !Rejected(t.call)
    requires Predictable(mode, m, t.call) || mode.AfterError? || t.call.timeout >= LATENCY
    ensures var v := Expected(s.sys.dev, RequestFor(t.call.a, t.call.b, t.call.timeout));
            t.reply == ReplyOf(v) && Aftermath(s.sys, t.after.sys, v) && AtRest(t.after)
  {
    var req := RequestFor(t.call.a, t.call.b, t.call.timeout);
    RequestIsAccepted(s, t.call);
    assert Determined(FoundBy(s.sys), req) by {
      hide AtRest, Executes, OperandDot, Pack, MockStep;
    }
    hide Simulates, RequestFor, Expected, Aftermath, AtRest, Executes, Determined;
    WholeRun(s, req, t.body, t.reply, t.after);
  }

  lemma RunTurn(mode: Mode, m: MockState, s: State, t: Turn)
    requires Simulates(mode, m, s) && Takes(s, t) && t.call.RunDotCall? && !Rejected(t.call)
    ensures Predictable(mode, m, t.call) ==>
              && StackAnswer(t) == MockStep(m, t.call).0
              && Simulates(NextMode(mode, m, t.call), MockStep(m, t.call).1, t.after)
    ensures !Predictable(mode, m, t.call) && (mode.AfterError? || t.call.timeout >= LATENCY) ==>
              StackAnswer(t) != MockStep(m, t.call).0
  {
    if Predictable(mode, m, t.call) || mode.AfterError? || t.call.timeout >= LATENCY {
      DeterminedTurn(mode, m, s, t);
      SameDot(t.call);
      hide RequestFor, Small, OperandDot, AtRest, Executes;
    }
  }

  lemma FaultFits(f: FaultType)
    ensures !MaskRejected(FaultMask(f)) && FaultOf(FaultMask(f)) == FaultMask(f)
  {
    AcceptedMasks(FaultMask(f));
    hide MaskRejected, FaultOf;
  }

  lemma CalmTurn(mode: Mode, m: MockState, s: State, t: Turn)
    requires Simulates(mode, m, s) && Takes(s, t) && !t.call.RunDotCall?
    ensures StackAnswer(t) == MockStep(m, t.call).0
    ensures Simulates(NextMode(mode, m, t.call), MockStep(m, t.call).1, t.after)
  {
    WholeCalm(s, CommandFor(t.call), t.body, t.reply, t.after);
    if t.call.SetFaultCall? {
      FaultFits(t.call.fault);
    }
    hide AtRest, Executes, MaskRejected, FaultOf;
  }

  lemma OneTurn(mode: Mode, m: MockState, s: State, t: Turn)
    requires Simulates(mode, m, s) && Takes(s, t)
    ensures Predictable(mode, m, t.call) ==>
              && StackAnswer(t) == MockStep(m, t.call).0
              && Simulates(NextMode(mode, m, t.call), MockStep(m, t.call).1, t.after)
    ensures !Predictable(mode, m, t.call) && (mode.AfterError? || t.call.timeout >= LATENCY) ==>
              StackAnswer(t) != MockStep(m, t.call).0
  {
    hide Simulates;
    if Rejected(t.call) {
      assert t.after == s;
    } else if t.call.RunDotCall? {
      RunTurn(mode, m, s, t);
    } else {
      CalmTurn(mode, m, s, t);
    }
  }

  lemma AnswersUnfold(m: MockState, turns: seq<Turn>)
    requires turns != []
    ensures StackAnswers(turns) == [StackAnswer(turns[0])] + StackAnswers(turns[1..])
    ensures CallsOf(turns) == [turns[0].call] + CallsOf(turns[1..])
    ensures CallsOf(turns)[1..] == CallsOf(turns[1..])
    ensures MockAnswers(m, CallsOf(turns))
         == [MockStep(m, turns[0].call).0] + MockAnswers(MockStep(m, turns[0].call).1, CallsOf(turns[1..]))
  {
    hide MockStep, StackAnswer;
    assert CallsOf(turns)[1..] == CallsOf(turns[1..]);
  }

  /** A disciplined sequence of calls is answered alike on every schedule. */
  lemma {:induction false} DisciplinedAgree(mode: Mode, m: MockState, s: State, turns: seq<Turn>)
    requires Simulates(mode, m, s) && Transcript(s, turns) && Disciplined(mode, m, CallsOf(turns))
    ensures StackAnswers(turns) == MockAnswers(m, CallsOf(turns))
    decreases turns
  {
    hide Simulates, Takes, Predictable, NextMode, MockStep, StackAnswer;
    if turns != [] {
      AnswersUnfold(m, turns);
      OneTurn(mode, m, s, turns[0]);
      var (mode', m') := (NextMode(mode, m, turns[0].call), MockStep(m, turns[0].call).1);
      DisciplinedAgree(mode', m', turns[0].after, turns[1..]);
      hide StackAnswers, MockAnswers, CallsOf;
    }
  }

  // ---------------------------------------------------------------- transcripts exist

  lemma TurnFor(s: State, call: Call) returns (t: Turn)
    requires AtRest(s)
    ensures Takes(s, t) && t.call == call && AtRest(t.after)
  {
    if Rejected(call) {
      t := Turn(call, [], Success, s);
    } else {
      var body, reply, s' := CallReturns(s, CommandFor(call));
      t := Turn(call, body, reply, s');
    }
    hide AtRest, Executes, CommandFor;
  }

  /** Whatever is called, the stack can answer. */
  lemma {:induction false} TranscriptFor(s: State, calls: seq<Call>) returns (turns: seq<Turn>)
    requires AtRest(s)
    ensures Transcript(s, turns) && CallsOf(turns) == calls
    decreases calls
  {
    hide AtRest, Takes;
    if calls == [] {
      turns := [];
    } else {
      var t := TurnFor(s, calls[0]);
      var rest := TranscriptFor(t.after, calls[1..]);
      turns := Prefixed(s, t, rest);
    }
  }

  lemma Prefixed(s: State, t: Turn, rest: seq<Turn>) returns (turns: seq<Turn>)
    requires Takes(s, t) && Transcript(t.after, rest)
    ensures turns == [t] + rest && Transcript(s, turns) && CallsOf(turns) == [t.call] + CallsOf(rest)
  {
    hide Takes;
    turns := [t] + rest;
    assert turns[1..] == rest;
  }

  // ---------------------------------------------------------------- undisciplined calls

  /** A call the mock does not predict can be answered otherwise. */
  lemma DivergentTurn(mode: Mode, m: MockState, s: State, call: Call) returns (t: Turn)
    requires Simulates(mode, m, s) && !Predictable(mode, m, call)
    ensures Takes(s, t) && t.call == call && AtRest(t.after) && StackAnswer(t) != MockStep(m, call).0
  {
    RequestIsAccepted(s, call);
    var req := RequestFor(call.a, call.b, call.timeout);
    if mode.Synced? {
      hide AtRest, Executes, Small, Pack;
      var body, s' := ShortReturns(s, req);
      t := Turn(call, body, Failed(-ETIMEDOUT), s');
    } else {
      hide AtRest, Executes, Small, Pack, OperandDot;
      var body, reply, s' := Returns.RunReturns(s, req);
      t := Turn(call, body, reply, s');
      if mode.AfterError? {
        hide Simulates;
        RunTurn(mode, m, s, t);
      }
    }
  }

  lemma {:induction false} UndisciplinedDiffer(mode: Mode, m: MockState, s: State, calls: seq<Call>)
      returns (turns: seq<Turn>)
    requires Simulates(mode, m, s) && !Disciplined(mode, m, calls)
    ensures Transcript(s, turns) && CallsOf(turns) == calls
    ensures StackAnswers(turns) != MockAnswers(m, calls)
    decreases calls
  {
    assert AtRest(s);
    hide Simulates, AtRest, Takes, Predictable, NextMode, MockStep, StackAnswer;
    var t, rest;
    if Predictable(mode, m, calls[0]) {
      t := TurnFor(s, calls[0]);
      OneTurn(mode, m, s, t);
      var (mode', m') := (NextMode(mode, m, calls[0]), MockStep(m, calls[0]).1);
      rest := UndisciplinedDiffer(mode', m', t.after, calls[1..]);
    } else {
      t := DivergentTurn(mode, m, s, calls[0]);
      rest := TranscriptFor(t.after, calls[1..]);
    }
    turns := Prefixed(s, t, rest);
    AnswersUnfold(m, turns);
    assert turns[0] == t && turns[1..] == rest;
    hide StackAnswers, MockAnswers, CallsOf;
    HeadsAndTails(StackAnswer(t), StackAnswers(rest), MockStep(m, calls[0]).0,
                  MockAnswers(MockStep(m, calls[0]).1, calls[1..]));
  }

  lemma HeadsAndTails(x: Answer, xs: seq<Answer>, y: Answer, ys: seq<Answer>)
    ensures [x] + xs == [y] + ys <==> x == y && xs == ys
  {
    assert ([x] + xs)[0] == x && ([x] + xs)[1..] == xs;
    assert ([y] + ys)[0] == y && ([y] + ys)[1..] == ys;
  }

  ghost predicate AlwaysAgree(m: MockState, s: State, calls: seq<Call>) {
    forall turns :: Transcript(s, turns) && CallsOf(turns) == calls ==> StackAnswers(turns) == MockAnswers(m, calls)
  }

  /** From any simulated state, stack and mock answer a sequence of calls alike on every schedule if and
      only if the sequence is disciplined. */
  lemma AgreeIff(mode: Mode, m: MockState, s: State, calls: seq<Call>)
    requires Simulates(mode, m, s)
    ensures AlwaysAgree(m, s, calls) <==> Disciplined(mode, m, calls)
  {
    hide Simulates, Disciplined, Transcript;
    if Disciplined(mode, m, calls) {
      forall turns | Transcript(s, turns) && CallsOf(turns) == calls
        ensures StackAnswers(turns) == MockAnswers(m, calls)
      {
        DisciplinedAgree(mode, m, s, turns);
      }
    } else {
      var turns := UndisciplinedDiffer(mode, m, s, calls);
    }
  }

  lemma InitiallySimulated(s: State)
    requires Initial(s) && s.sys.repaired && |s.clients| == 1
    ensures Simulates(Synced, NEW_MOCK, s)
  {
    InitialInv(s);
    assert s.clients == [User];
  }

  /** The mock refinement: a freshly probed device with one caller against a new mock. Every sequence of
      calls has a schedule on which it is answered, and the answers agree on all of them exactly for
      disciplined sequences. */
  lemma MockRefinement(s: State, calls: seq<Call>)
    requires Initial(s) && s.sys.repaired && |s.clients| == 1
    ensures exists turns :: Transcript(s, turns) && CallsOf(turns) == calls
    ensures AlwaysAgree(NEW_MOCK, s, calls) <==> Disciplined(Synced, NEW_MOCK, calls)
  {
    InitiallySimulated(s);
    assert AtRest(s);
    hide Simulates, AtRest;
    var turns := TranscriptFor(s, calls);
    AgreeIff(Synced, NEW_MOCK, s, calls);
  }

  /** Every accepted run is given as long as the device takes. */
  predicate Patient(calls: seq<Call>) {
    forall c :: c in calls && c.RunDotCall? && !Rejected(c) ==> c.timeout >= LATENCY
  }

  /** When every run waits long enough, an undisciplined sequence is answered otherwise on every schedule,
      not only on some. */
  lemma {:induction false} PatientDiffer(mode: Mode, m: MockState, s: State, turns: seq<Turn>)
    requires Simulates(mode, m, s) && Transcript(s, turns) && Patient(CallsOf(turns))
    requires !Disciplined(mode, m, CallsOf(turns))
    ensures StackAnswers(turns) != MockAnswers(m, CallsOf(turns))
    decreases turns
  {
    AnswersUnfold(m, turns);
    var t := turns[0];
    assert t.call in CallsOf(turns) && forall c :: c in CallsOf(turns[1..]) ==> c in CallsOf(turns);
    assert !Predictable(mode, m, t.call) ==> t.call.RunDotCall? && !Rejected(t.call);
    hide Simulates, Takes, Predictable, NextMode, MockStep, StackAnswer;
    OneTurn(mode, m, s, t);
    var m' := MockStep(m, t.call).1;
    if Predictable(mode, m, t.call) {
      PatientDiffer(NextMode(mode, m, t.call), m', t.after, turns[1..]);
    }
    hide StackAnswers, MockAnswers, CallsOf;
    HeadsAndTails(StackAnswer(t), StackAnswers(turns[1..]),
                  MockStep(m, t.call).0, MockAnswers(m', CallsOf(turns[1..])));
  }

  /** Whether a run fails on the mock. */
  predicate FailsOnMock(m: MockState, call: Call) {
    call.RunDotCall? && !Rejected(call) && (TimingOut(m) || m.faultMask == FAULT_FORCE_ERROR)
  }

  /** The discipline a caller would think of first: reset after every failed run. */
  predicate ResetsAfterFailure(failed: bool, m: MockState, calls: seq<Call>)
    decreases calls
  {
    calls == [] ||
    (var call := calls[0];
     && (failed ==> !call.RunDotCall? || Rejected(call))
     && ResetsAfterFailure(if call.ResetCall? then false else failed || FailsOnMock(m, call),
                           MockStep(m, call).1, calls[1..]))
  }

  /** It is enough, given patience. */
  lemma {:induction false} ResettingIsDisciplined(mode: Mode, failed: bool, m: MockState, calls: seq<Call>)
    requires ResetsAfterFailure(failed, m, calls) && (!failed ==> mode.Synced?) && Patient(calls)
    ensures Disciplined(mode, m, calls)
    decreases calls
  {
    hide MockStep;
    if calls != [] {
      var call := calls[0];
      assert call in calls;
      var failed' := if call.ResetCall? then false else failed || FailsOnMock(m, call);
      ResettingIsDisciplined(NextMode(mode, m, call), failed', MockStep(m, call).1, calls[1..]);
    }
  }
}
