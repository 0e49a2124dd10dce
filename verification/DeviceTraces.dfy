/** What the device keeps over whole traces of register accesses and timer expiries: the reachability
    invariant, the life of the timer, the absorbing states, and revision B standing in for revision A.
 */
module DeviceTraces {
  import opened Words
  import opened Lanes
  import opened Device
  import opened DeviceInvariant

  datatype Op =
    | Rd(addr: nat, size: nat)
    | Wr(addr: nat, val: u32, size: nat, now: int)
    | Expire

  function Step(d: Dev, op: Op): Dev {
    match op
    case Rd(addr, size) => if size == 4 then AfterRead(d, addr) else d
    case Wr(addr, val, size, now) => if size == 4 then Write(d, addr, val, now) else d
    case Expire => Fire(d)
  }

  /** What an access delivers to the bus. */
  function Value(d: Dev, op: Op): u32 {
    if op.Rd? && op.size == 4 then ReadValue(d, op.addr) else 0
  }

  function Run(d: Dev, ops: seq<Op>): Dev
    decreases ops
  {
    if ops == [] then d else Run(Step(d, ops[0]), ops[1..])
  }

  /** The timer callback runs only while the timer is running. */
  predicate Legal(d: Dev, ops: seq<Op>)
    decreases ops
  {
    ops == [] || ((ops[0].Expire? ==> d.timer.Running?) && Legal(Step(d, ops[0]), ops[1..]))
  }

  predicate IsReset(op: Op) {
    op.Wr? && op.size == 4 && op.addr == 0x00C && Bit(op.val, 1)
  }

  predicate IsBadLength(d: Dev, op: Op) {
    op.Wr? && op.size == 4 && op.addr == 0x024 && !LengthAccepted(d, op.val)
  }

  /** A START that the device accepts. */
  predicate IsAccepted(d: Dev, op: Op) {
    op.Wr? && op.size == 4 && op.addr == 0x00C && !Bit(op.val, 1) && Bit(op.val, 0) && d.status.Idle?
  }

  // ---------------------------------------------------------------- reachable states

  lemma StepReachable(d: Dev, op: Op)
    requires Reachable(d)
    ensures Reachable(Step(d, op)) && Step(d, op).id == d.id
  {
    hide Write, Fire, AfterRead, Configured, Coherent, LineAgrees;
    match op {
      case Rd(addr, _) => ReadReachable(d, addr);
      case Wr(addr, val, _, now) => WriteReachable(d, addr, val, now);
      case Expire => FireReachable(d);
    }
  }

  /** Every state of every trace from power-on satisfies the invariant. */
  lemma {:induction false} TraceReachable(d: Dev, ops: seq<Op>)
    requires Reachable(d)
    ensures Reachable(Run(d, ops))
    decreases ops
  {
    hide Step, Reachable;
    if ops != [] {
      StepReachable(d, ops[0]);
      TraceReachable(Step(d, ops[0]), ops[1..]);
    }
  }

  // ---------------------------------------------------------------- the timer

  /** The timer is stopped by expiry and by RESET, armed by an accepted START, and otherwise left alone. */
  lemma StepTimer(d: Dev, op: Op)
    requires Reachable(d)
    ensures op.Expire? || IsReset(op) ==> Step(d, op).timer.Stopped?
    ensures IsAccepted(d, op) ==> d.timer.Stopped? && Step(d, op).timer == Running(op.now + LATENCY)
    ensures !op.Expire? && !IsReset(op) && !IsAccepted(d, op) ==> Step(d, op).timer == d.timer
  {
    hide Write, Fire;
    match op {
      case Rd(_, _) =>
      case Wr(addr, val, _, now) => WriteTimer(d, addr, val, now);
      case Expire => FireTimer(d);
    }
  }

  lemma FireTimer(d: Dev)
    ensures Fire(d).timer.Stopped?
  {
    hide OperandDot, Overlap;
  }

  lemma WriteTimer(d: Dev, addr: nat, val: u32, now: int)
    requires Coherent(d)
    ensures Write(d, addr, val, now).timer ==
            if addr == 0x00C && Bit(val, 1) then Stopped
            else if addr == 0x00C && Bit(val, 0) && d.status.Idle? then Running(now + LATENCY)
            else d.timer
    ensures d.status.Idle? ==> d.timer.Stopped?
  {
    hide WriteOperand, Overlap, Bit, FlagsOf, Cleared, LowestBit;
  }

  /** While an operation runs, nothing but its expiry or a RESET touches its deadline: a START cannot
      extend it. */
  lemma {:induction false} DeadlineStable(d: Dev, ops: seq<Op>)
    requires Reachable(d) && d.timer.Running?
    requires forall op :: op in ops ==> !IsReset(op) && !op.Expire?
    ensures Run(d, ops).timer == d.timer
    decreases ops
  {
    hide Step, Reachable;
    if ops != [] {
      assert ops[0] in ops;
      StepReachable(d, ops[0]);
      StepTimer(d, ops[0]);
      RunningNotIdle(d);
      DeadlineStable(Step(d, ops[0]), ops[1..]);
    }
  }

  lemma RunningNotIdle(d: Dev)
    requires Reachable(d) && d.timer.Running?
    ensures !d.status.Idle?
  {}

  function Accepted(d: Dev, ops: seq<Op>): nat
    decreases ops
  {
    if ops == [] then 0
    else (if IsAccepted(d, ops[0]) then 1 else 0) + Accepted(Step(d, ops[0]), ops[1..])
  }

  function Expiries(ops: seq<Op>): nat {
    if ops == [] then 0 else (if ops[0].Expire? then 1 else 0) + Expiries(ops[1..])
  }

  predicate IsArmed(d: Dev) {
    d.timer.Running?
  }

  /** Conservation of operations: the timer expires at most once per accepted START, and without
      RESETs every accepted START either has expired or is still running. */
  lemma {:induction false} OneExpiryPerStart(d: Dev, ops: seq<Op>)
    requires Reachable(d) && Legal(d, ops)
    ensures var running := (if IsArmed(Run(d, ops)) then 1 else 0);
            var carried := (if IsArmed(d) then 1 else 0);
            && Expiries(ops) + running <= Accepted(d, ops) + carried
            && ((forall op :: op in ops ==> !IsReset(op)) ==> Expiries(ops) + running == Accepted(d, ops) + carried)
    decreases ops
  {
    hide Step, Reachable;
    if ops != [] {
      StepReachable(d, ops[0]);
      StepTimer(d, ops[0]);
      OneExpiryPerStart(Step(d, ops[0]), ops[1..]);
      assert (forall op :: op in ops ==> !IsReset(op)) ==> !IsReset(ops[0]);
    }
  }

  // ---------------------------------------------------------------- absorbing states

  predicate ResetFree(ops: seq<Op>) {
    forall op :: op in ops ==> !IsReset(op)
  }

  predicate LengthsAccepted(d: Dev, ops: seq<Op>) {
    forall op :: op in ops ==> !IsBadLength(d, op)
  }

  lemma ErrorStep(d: Dev, op: Op)
    requires d.status.Error? && d.timer.Stopped? && !op.Expire? && !IsReset(op)
    ensures Step(d, op).status.Error? && Step(d, op).timer.Stopped?
  {
    hide Fire, WriteOperand, Overlap, Bit, FlagsOf, Cleared, LowestBit, LengthAccepted;
  }

  lemma BusyStep(d: Dev, op: Op)
    requires d.status.Busy? && d.timer.Stopped?
    requires !op.Expire? && !IsReset(op) && !IsBadLength(d, op)
    ensures Step(d, op).status.Busy? && Step(d, op).timer.Stopped? && Step(d, op).id.revision == d.id.revision
  {
    hide Fire, WriteOperand, Overlap, Bit, FlagsOf, Cleared, LowestBit;
  }

  lemma {:induction false} ErrorAbsorbs(d: Dev, ops: seq<Op>)
    requires Reachable(d) && d.status.Error? && d.timer.Stopped?
    requires Legal(d, ops) && ResetFree(ops)
    ensures Run(d, ops).status.Error?
    decreases ops
  {
    hide Step, Reachable, IsReset;
    if ops != [] {
      StepReachable(d, ops[0]);
      assert ops[0] in ops;
      ErrorStep(d, ops[0]);
      ErrorAbsorbs(Step(d, ops[0]), ops[1..]);
    }
  }

  lemma {:induction false} BusyAbsorbs(d: Dev, ops: seq<Op>)
    requires Reachable(d) && d.status.Busy? && d.timer.Stopped?
    requires Legal(d, ops) && ResetFree(ops) && LengthsAccepted(d, ops)
    ensures Run(d, ops).status.Busy?
    decreases ops
  {
    hide Step, Reachable, IsReset;
    if ops != [] {
      StepReachable(d, ops[0]);
      assert ops[0] in ops;
      var d' := Step(d, ops[0]);
      BusyStep(d, ops[0]);
      assert forall op :: IsBadLength(d', op) <==> IsBadLength(d, op);
      BusyAbsorbs(d', ops[1..]);
    }
  }

  ghost predicate ErrorUntilReset(d: Dev) {
    forall ops: seq<Op> | Legal(d, ops) && ResetFree(ops) :: Run(d, ops).status.Error?
  }

  ghost predicate BusyUntilReset(d: Dev) {
    forall ops: seq<Op> | Legal(d, ops) && ResetFree(ops) && LengthsAccepted(d, ops) :: Run(d, ops).status.Busy?
  }

  lemma FaultFreeFire(d: Dev)
    requires Reachable(d)
    ensures Write(d, 0x180, 0, 0) == d.(faultControl := 0) && Fire(d.(faultControl := 0)).status.Done?
  {
    hide OperandDot;
  }

  /** Clearing the fault register and letting the timer expire ends any running operation in DONE. */
  lemma ExpiryEnds(d: Dev)
    requires Reachable(d) && d.timer.Running?
    ensures var ops := [Wr(0x180, 0, 4, 0), Expire];
            Legal(d, ops) && ResetFree(ops) && LengthsAccepted(d, ops) && Run(d, ops).status.Done?
  {
    hide Reachable, ResultOf;
    var ops := [Wr(0x180, 0, 4, 0), Expire];
    var d1 := Step(d, ops[0]);
    FaultFreeFire(d);
    assert ops[1..] == [Expire] && ops[1..][1..] == [];
    assert Legal(d1, ops[1..]);
    assert Run(d1, ops[1..]) == Run(Fire(d1), []);
  }

  /** The documented "ERROR until RESET" holds exactly while no operation is still running: a bad
      VECTOR_LENGTH written during an operation reports ERROR but leaves the timer running, and its
      expiry then turns ERROR into DONE. */
  lemma ErrorUntilResetIff(d: Dev)
    requires Reachable(d) && d.status.Error?
    ensures ErrorUntilReset(d) <==> d.timer.Stopped?
  {
    if d.timer.Stopped? {
      forall ops: seq<Op> | Legal(d, ops) && ResetFree(ops)
        ensures Run(d, ops).status.Error?
      {
        ErrorAbsorbs(d, ops);
      }
    } else {
      ExpiryEnds(d);
    }
  }

  /** BUSY lasts until RESET (or a rejected length) exactly when the operation behind it has already
      expired, which is what the stuck-busy fault leaves. */
  lemma BusyUntilResetIff(d: Dev)
    requires Reachable(d) && d.status.Busy?
    ensures BusyUntilReset(d) <==> d.timer.Stopped?
  {
    if d.timer.Stopped? {
      forall ops: seq<Op> | Legal(d, ops) && ResetFree(ops) && LengthsAccepted(d, ops)
        ensures Run(d, ops).status.Busy?
      {
        BusyAbsorbs(d, ops);
      }
    } else {
      ExpiryEnds(d);
    }
  }

  /** Such an ERROR is reachable from power-on, on either revision. */
  lemma RunningErrorReachable(revision: u32)
    requires revision == REVISION_A || revision == REVISION_B
    ensures var ops := [Wr(0x00C, 1, 4, 0), Wr(0x024, 5, 4, 0)];
            var d := Run(Fresh(revision), ops);
            Legal(Fresh(revision), ops) && d.status.Error? && d.timer == Running(100)
  {
    var ops := [Wr(0x00C, 1, 4, 0), Wr(0x024, 5, 4, 0)];
    var d1 := Step(Fresh(revision), ops[0]);
    assert ops[1..] == [ops[1]] && ops[1..][1..] == [];
    assert Run(d1, ops[1..]) == Run(Step(d1, ops[1]), []);
    assert Legal(d1, ops[1..]);
  }

  // ---------------------------------------------------------------- revision B for revision A

  /** The two devices differ in nothing but their identity registers, and both run length 8. */
  predicate Twins(a: Dev, b: Dev) {
    && a.id.revision == REVISION_A && a.vecLen == 8
    && b == a.(id := b.id) && b.id.revision == REVISION_B
  }

  predicate Writes16(op: Op) {
    op.Wr? && op.size == 4 && op.addr == 0x024 && op.val == 16
  }

  /** What a driver can see of an access: the value read, except from the identity registers, and the
      interrupt line afterwards. */
  function Seen(d: Dev, op: Op): (u32, bool) {
    (if op.Rd? && op.addr in {0x004, 0x008} then 0 else Value(d, op), Step(d, op).line)
  }

  function Trace(d: Dev, ops: seq<Op>): seq<(u32, bool)>
    decreases ops
  {
    if ops == [] then [] else [Seen(d, ops[0])] + Trace(Step(d, ops[0]), ops[1..])
  }

  lemma TraceHead(d: Dev, ops: seq<Op>)
    requires ops != []
    ensures Trace(d, ops) == [Seen(d, ops[0])] + Trace(Step(d, ops[0]), ops[1..])
  {
    hide Step, Seen;
  }

  lemma TwinsControl(a: Dev, b: Dev, now: int)
    requires Twins(a, b)
    ensures Twins(Reset(a), Reset(b)) && Twins(Start(a, now), Start(b, now))
  {}

  lemma TwinsWrite(a: Dev, b: Dev, addr: nat, val: u32, now: int)
    requires Twins(a, b) && !(addr == 0x024 && val == 16)
    ensures Twins(Write(a, addr, val, now), Write(b, addr, val, now))
  {
    hide Reset, Start;
    TwinsControl(a, b, now);
  }

  lemma TwinsFire(a: Dev, b: Dev)
    requires Twins(a, b)
    ensures Twins(Fire(a), Fire(b))
  {
    TwinsResult(a.(timer := Stopped), b.(timer := Stopped));
    hide OperandDot;
  }

  lemma TwinsResult(a: Dev, b: Dev)
    requires Twins(a, b)
    ensures ResultOf(a) == ResultOf(b)
  {
    hide LaneDot;
  }

  lemma TwinsStep(a: Dev, b: Dev, op: Op)
    requires Twins(a, b) && !Writes16(op)
    ensures Twins(Step(a, op), Step(b, op)) && Seen(a, op) == Seen(b, op)
  {
    hide Write, Fire;
    match op {
      case Rd(_, _) =>
      case Wr(addr, val, size, now) =>
        if size == 4 {
          TwinsWrite(a, b, addr, val, now);
        }
      case Expire => TwinsFire(a, b);
    }
  }

  lemma TwinsTimer(a: Dev, b: Dev)
    requires Twins(a, b)
    ensures a.timer == b.timer
  {}

  lemma {:induction false} TwinsTrace(a: Dev, b: Dev, ops: seq<Op>)
    requires Twins(a, b)
    requires forall op :: op in ops ==> !Writes16(op)
    ensures Trace(a, ops) == Trace(b, ops) && (Legal(a, ops) <==> Legal(b, ops))
    decreases ops
  {
    hide Step, Seen, Twins;
    TwinsTimer(a, b);
    if ops != [] {
      assert ops[0] in ops;
      TwinsStep(a, b, ops[0]);
      TwinsTrace(Step(a, ops[0]), Step(b, ops[0]), ops[1..]);
    }
  }

  /** Once VECTOR_LENGTH has been set to 8, revision B is indistinguishable from revision A outside the
      identity registers, over every trace that never writes 16. */
  lemma RevisionBRefinesA(ops: seq<Op>, now: int)
    requires forall op :: op in ops ==> !Writes16(op)
    ensures var select := [Wr(0x024, 8, 4, now)];
            Trace(Fresh(REVISION_A), select + ops) == Trace(Fresh(REVISION_B), select + ops)
  {
    hide Trace;
    var select := [Wr(0x024, 8, 4, now)];
    TraceHead(Fresh(REVISION_A), select + ops);
    TraceHead(Fresh(REVISION_B), select + ops);
    assert (select + ops)[0] == select[0] && (select + ops)[1..] == ops;
    TwinsTrace(Step(Fresh(REVISION_A), select[0]), Step(Fresh(REVISION_B), select[0]), ops);
  }

  /** The first write of 16 ends the resemblance: the next reading of VECTOR_LENGTH differs. */
  lemma Write16Distinguishes(a: Dev, b: Dev, op: Op)
    requires Twins(a, b) && Writes16(op)
    ensures Seen(Step(a, op), Rd(0x024, 4)) != Seen(Step(b, op), Rd(0x024, 4))
  {}

  // ---------------------------------------------------------------- input words

  /** With length 8 the outcome of an operation does not depend on the upper two words of a bank. */
  lemma UpperWordsIgnored(d: Dev, o: Operands)
    requires d.vecLen == 8
    requires o.a[0] == d.input.a[0] && o.a[1] == d.input.a[1] && o.b[0] == d.input.b[0] && o.b[1] == d.input.b[1]
    ensures Fire(d.(input := o)) == Fire(d).(input := o)
  {
    LowWordsOnly(d.input.a, d.input.b, o.a, o.b, 8);
    assert OperandDot(o, 8) == OperandDot(d.input, 8);
    hide OperandDot;
  }
}
