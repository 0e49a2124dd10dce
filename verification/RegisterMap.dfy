/** The device as its bus shows it: numbers at offsets. A register file is a map from offsets to words,
    each access is a change of that map written in literal offsets and values, and over every trace the
    device of qemu-device/src/vnpu.c delivers exactly the words of the register file.
 */
module RegisterMap {
  import opened Words
  import opened Lanes
  import opened Device
  import opened DeviceFacts
  import opened DeviceInvariant
  import opened DeviceTraces

  type Registers = map<nat, u32>

  datatype File = File(regs: Registers, timer: Timer)

  /** An offset nobody has given a value reads zero. */
  function At(regs: Registers, addr: nat): u32 {
    if addr in regs then regs[addr] else 0
  }

  // ---------------------------------------------------------------- the reference

  function PowerOn(revision: u32): File {
    File(map[0x000 := 0x564E5055, 0x004 := revision, 0x008 := if revision == 1 then 0x7B else 0x7D,
             0x024 := if revision == 1 then 8 else 16], Stopped)
  }

  /** Byte `k` of a word as a signed number. */
  function SignedByte(w: u32, k: nat): int
    requires k < 4
  {
    var x := And(ShiftedRight(w, k), 0xFF);
    if And(x, 0x80) != 0 then x - 0x100 else x
  }

  /** Lane `k` of the bank at offset `base`. */
  function LaneAtOffset(regs: Registers, base: nat, k: nat): int {
    SignedByte(At(regs, base + 4 * (k / 4)), k % 4)
  }

  /** The sum over the first `n` lanes. */
  function LaneSum(regs: Registers, n: nat): int {
    if n == 0 then 0
    else LaneSum(regs, n - 1) + LaneAtOffset(regs, 0x100, n - 1) * LaneAtOffset(regs, 0x120, n - 1)
  }

  /** A number as a 32-bit word, two's complement. */
  function WordOf(x: int): u32 {
    x % 0x1_0000_0000
  }

  function Control(f: File, val: u32, now: int): File {
    var regs := f.regs;
    if And(val, 2) != 0 then File(regs[0x010 := 0][0x014 := 0][0x01C := 0][0x180 := 0], Stopped)
    else if And(val, 1) == 0 then f
    else if At(regs, 0x010) == 0 then File(regs[0x010 := 1][0x014 := 0][0x01C := 0], Running(now + 100))
    else f.(regs := regs[0x014 := Stored(Or(At(regs, 0x014), 2))]
                        [0x01C := if At(regs, 0x010) == 3 then At(regs, 0x01C) else 2])
  }

  /** What a 32-bit register keeps of a value. */
  function Stored(x: nat): u32 {
    x % 0x1_0000_0000
  }

  function Length(f: File, val: u32): File {
    var regs := f.regs;
    if val == 8 || (val == 16 && At(regs, 0x004) == 2) then f.(regs := regs[0x024 := val])
    else f.(regs := regs[0x010 := 3][0x014 := 2][0x01C := 1])
  }

  function Written(f: File, addr: nat, val: u32, now: int): File {
    var regs := f.regs;
    if addr == 0x00C then Control(f, val, now)
    else if addr == 0x014 then f.(regs := regs[0x014 := Stored(And(At(regs, 0x014), Complement(val)))])
    else if addr == 0x018 then f.(regs := regs[0x018 := Stored(And(val, 3))])
    else if addr == 0x024 then Length(f, val)
    else if addr == 0x180 then
      var low := Stored(And(val, 0x0F));
      f.(regs := regs[0x180 := Stored(And(low, Negate(low)))])
    else if addr in {0x020, 0x100, 0x104, 0x108, 0x10C, 0x120, 0x124, 0x128, 0x12C} then f.(regs := regs[addr := val])
    else f
  }

  function Acknowledged(f: File, addr: nat): File {
    if addr == 0x140 && At(f.regs, 0x010) == 2 then f.(regs := f.regs[0x010 := 0]) else f
  }

  /** STATUS, IRQ_STATUS, ERROR_CODE and RESULT after an operation has ended: `word` is its sum, `code` the
      error code before. */
  function EndingOf(fault: u32, word: u32, code: u32): (u32, u32, u32, u32) {
    if And(fault, 1) != 0 then (2, 0, code, word)
    else if And(fault, 2) != 0 then (1, 0, code, word)
    else if And(fault, 4) != 0 then (2, 1, code, Stored(Xor(word, 1)))
    else if And(fault, 8) != 0 then (3, 2, 3, word)
    else (2, 1, code, word)
  }

  function Expired(f: File): File {
    var word := WordOf(LaneSum(f.regs, At(f.regs, 0x024)));
    var (status, irq, code, result) := EndingOf(At(f.regs, 0x180), word, At(f.regs, 0x01C));
    File(f.regs[0x010 := status][0x014 := irq][0x01C := code][0x140 := result], Stopped)
  }

  function Next(f: File, op: Op): File {
    match op
    case Rd(addr, size) => if size == 4 then Acknowledged(f, addr) else f
    case Wr(addr, val, size, now) => if size == 4 then Written(f, addr, val, now) else f
    case Expire => Expired(f)
  }

  function After(f: File, ops: seq<Op>): File
    decreases ops
  {
    if ops == [] then f else After(Next(f, ops[0]), ops[1..])
  }

  // ---------------------------------------------------------------- agreement

  ghost predicate SameWords(regs: Registers, d: Dev) {
    forall addr: nat :: At(regs, addr) == ReadValue(d, addr)
  }

  /** Every offset reads alike, the timer is the same, and the line is high exactly when a pending interrupt
      is enabled. */
  ghost predicate Agrees(f: File, d: Dev) {
    && SameWords(f.regs, d) && f.timer == d.timer
    && (d.line <==> And(At(f.regs, 0x014), At(f.regs, 0x018)) != 0)
  }

  lemma PowerOnAgrees(revision: u32)
    requires revision == 1 || revision == 2
    ensures Agrees(PowerOn(revision), Fresh(revision))
  {}

  // ---------------------------------------------------------------- the line

  lemma LineBits(d: Dev)
    requires LineAgrees(d)
    ensures d.line <==> And(ReadValue(d, 0x014), ReadValue(d, 0x018)) != 0
  {
    FlagsBitwise(d.irqStatus, d.irqEnable, 0);
  }

  /** Agreement on the words and the timer is agreement on the line. */
  lemma WordsAgree(f: File, d: Dev)
    requires SameWords(f.regs, d) && f.timer == d.timer && LineAgrees(d)
    ensures Agrees(f, d)
  {
    LineBits(d);
    assert At(f.regs, 0x014) == ReadValue(d, 0x014) && At(f.regs, 0x018) == ReadValue(d, 0x018);
    hide ReadValue, LineAgrees;
  }

  // ---------------------------------------------------------------- one access

  /** `w` differs from `d` in nothing but the state registers, the timer and the line. */
  predicate SameData(d: Dev, w: Dev) {
    w == d.(status := w.status, irqStatus := w.irqStatus, errCode := w.errCode, faultControl := w.faultControl,
            timer := w.timer, line := w.line)
  }

  lemma StateRead(d: Dev, w: Dev, a: nat)
    requires SameData(d, w)
    ensures ReadValue(w, a) == if a == 0x010 then StatusWord(w.status) else if a == 0x014 then FlagsWord(w.irqStatus)
                               else if a == 0x01C then w.errCode else if a == 0x180 then w.faultControl
                               else ReadValue(d, a)
  {}

  lemma ControlBits(val: u32)
    ensures And(val, 2) != 0 <==> Bit(val, 1)
    ensures And(val, 1) != 0 <==> Bit(val, 0)
  {
    BitIsAnd(val, 0);
    BitIsAnd(val, 1);
  }

  lemma ErrorBit(f: Flags)
    ensures Or(FlagsWord(f), 2) == FlagsWord(f.(error := true)) < 4
  {
    FlagsBitwise(f, f, 0);
  }

  lemma ControlAgrees(f: File, d: Dev, val: u32, now: int)
    requires SameWords(f.regs, d) && f.timer == d.timer
    ensures SameWords(Control(f, val, now).regs, WriteControl(d, val, now))
    ensures Control(f, val, now).timer == WriteControl(d, val, now).timer
  {
    ControlBits(val);
    ErrorBit(d.irqStatus);
    StatusRead(d);
    assert At(f.regs, 0x010) == ReadValue(d, 0x010) && At(f.regs, 0x014) == ReadValue(d, 0x014);
    assert At(f.regs, 0x01C) == ReadValue(d, 0x01C);
    var w := WriteControl(d, val, now);
    assert SameData(d, w);
    hide And, Or, Bit, Overlap, ReadValue;
    forall a: nat
      ensures At(Control(f, val, now).regs, a) == ReadValue(w, a)
    {
      assert At(f.regs, a) == ReadValue(d, a);
      StateRead(d, w, a);
    }
  }

  lemma LengthAgrees(f: File, d: Dev, val: u32)
    requires SameWords(f.regs, d) && f.timer == d.timer && Configured(d)
    ensures SameWords(Length(f, val).regs, WriteLength(d, val)) && Length(f, val).timer == WriteLength(d, val).timer
  {
    StatusRead(d);
    assert At(f.regs, 0x004) == ReadValue(d, 0x004);
    hide ReadValue, Overlap, SameWords;
    if LengthAccepted(d, val) {
      LengthTaken(f, d, val);
    } else {
      LengthRefused(f, d, val);
    }
  }

  lemma LengthTaken(f: File, d: Dev, val: u32)
    requires SameWords(f.regs, d)
    ensures SameWords(f.regs[0x024 := val], d.(vecLen := val))
  {
    forall a: nat
      ensures At(f.regs[0x024 := val], a) == ReadValue(d.(vecLen := val), a)
    {
      assert At(f.regs, a) == ReadValue(d, a);
    }
  }

  lemma LengthRefused(f: File, d: Dev, val: u32)
    requires SameWords(f.regs, d) && Configured(d) && !LengthAccepted(d, val) && At(f.regs, 0x004) == d.id.revision
    ensures SameWords(Length(f, val).regs, WriteLength(d, val))
  {
    var w := WriteLength(d, val);
    assert SameData(d, w);
    hide Overlap, ReadValue;
    forall a: nat
      ensures At(Length(f, val).regs, a) == ReadValue(w, a)
    {
      assert At(f.regs, a) == ReadValue(d, a);
      StateRead(d, w, a);
    }
  }

  lemma StatusAgrees(f: File, d: Dev, val: u32, now: int)
    requires SameWords(f.regs, d) && f.timer == d.timer
    ensures SameWords(Written(f, 0x014, val, now).regs, ClearIrq(d, val))
  {
    FlagsBitwise(d.irqStatus, d.irqEnable, val);
    StatusRead(d);
    assert At(f.regs, 0x014) == ReadValue(d, 0x014);
    var w := ClearIrq(d, val);
    assert SameData(d, w);
    hide And, Or, FlagsOf, Cleared, Overlap, Complement, ReadValue;
    forall a: nat
      ensures At(Written(f, 0x014, val, now).regs, a) == ReadValue(w, a)
    {
      assert At(f.regs, a) == ReadValue(d, a);
      StateRead(d, w, a);
    }
  }

  lemma EnableAgrees(f: File, d: Dev, val: u32, now: int)
    requires SameWords(f.regs, d) && f.timer == d.timer
    ensures SameWords(Written(f, 0x018, val, now).regs, EnableIrq(d, val))
  {
    FlagsBitwise(d.irqStatus, d.irqEnable, val);
    hide And, Or, FlagsWord, FlagsOf, Cleared, Overlap;
    forall a: nat
      ensures At(Written(f, 0x018, val, now).regs, a) == ReadValue(EnableIrq(d, val), a)
    {
      assert At(f.regs, a) == ReadValue(d, a);
    }
  }

  lemma FaultAgrees(f: File, d: Dev, val: u32, now: int)
    requires SameWords(f.regs, d) && f.timer == d.timer
    ensures SameWords(Written(f, 0x180, val, now).regs, Write(d, 0x180, val, now))
    ensures Written(f, 0x180, val, now).timer == Write(d, 0x180, val, now).timer
  {
    LowestBitIsAnd(val);
    hide And, Negate, LowestBit;
    forall a: nat
      ensures At(Written(f, 0x180, val, now).regs, a) == ReadValue(Write(d, 0x180, val, now), a)
    {
      assert At(f.regs, a) == ReadValue(d, a);
    }
  }

  lemma PlainAgrees(f: File, d: Dev, addr: nat, val: u32, now: int)
    requires SameWords(f.regs, d) && f.timer == d.timer && addr !in {0x00C, 0x014, 0x018, 0x024, 0x180}
    ensures SameWords(Written(f, addr, val, now).regs, Write(d, addr, val, now))
    ensures Written(f, addr, val, now).timer == Write(d, addr, val, now).timer
  {
    forall a: nat
      ensures At(Written(f, addr, val, now).regs, a) == ReadValue(Write(d, addr, val, now), a)
    {
      assert At(f.regs, a) == ReadValue(d, a);
      PlainRead(d, addr, val, now, a);
      hide ReadValue, Write;
    }
  }

  /** A plain register reads back what was written; nothing else changes. */
  lemma PlainRead(d: Dev, addr: nat, val: u32, now: int, a: nat)
    requires addr !in {0x00C, 0x014, 0x018, 0x024, 0x180}
    ensures Write(d, addr, val, now).timer == d.timer
    ensures ReadValue(Write(d, addr, val, now), a) ==
            if a == addr && addr in {0x020, 0x100, 0x104, 0x108, 0x10C, 0x120, 0x124, 0x128, 0x12C} then val
            else ReadValue(d, a)
  {
    hide WriteControl, WriteLength, ClearIrq, EnableIrq, LowestBit, FlagsWord, StatusWord, ToWord;
  }

  lemma WriteAgrees(f: File, d: Dev, addr: nat, val: u32, now: int)
    requires Agrees(f, d) && Reachable(d)
    ensures Agrees(Written(f, addr, val, now), Write(d, addr, val, now))
  {
    WriteReachable(d, addr, val, now);
    WriteLine(d, addr, val, now);
    if addr == 0x00C {
      ControlAgrees(f, d, val, now);
    } else if addr == 0x014 {
      StatusAgrees(f, d, val, now);
    } else if addr == 0x018 {
      EnableAgrees(f, d, val, now);
    } else if addr == 0x024 {
      LengthAgrees(f, d, val);
    } else if addr == 0x180 {
      FaultAgrees(f, d, val, now);
    } else {
      PlainAgrees(f, d, addr, val, now);
    }
    hide SameWords, Control, Length, WriteControl, WriteLength, And, Cleared, FlagsOf, Overlap;
    WordsAgree(Written(f, addr, val, now), Write(d, addr, val, now));
  }

  lemma ReadAgrees(f: File, d: Dev, addr: nat)
    requires Agrees(f, d) && Reachable(d)
    ensures Agrees(Acknowledged(f, addr), AfterRead(d, addr))
  {
    StatusRead(d);
    assert At(f.regs, 0x010) == ReadValue(d, 0x010);
    if addr == 0x140 && d.status.Done? {
      ReadReachable(d, addr);
      IdleAgrees(f, d);
      ReachableParts(d);
      hide ReadValue, SameWords, Reachable, LineAgrees;
      ReachableParts(AfterRead(d, addr));
      WordsAgree(Acknowledged(f, addr), AfterRead(d, addr));
    }
  }

  lemma IdleAgrees(f: File, d: Dev)
    requires SameWords(f.regs, d)
    ensures SameWords(f.regs[0x010 := 0], d.(status := Idle))
  {
    var w := d.(status := Idle);
    assert SameData(d, w);
    StatusRead(d);
    hide ReadValue;
    forall a: nat
      ensures At(f.regs[0x010 := 0], a) == ReadValue(w, a)
    {
      assert At(f.regs, a) == ReadValue(d, a);
      StateRead(d, w, a);
    }
  }

  // ---------------------------------------------------------------- expiry

  lemma OperandRead(d: Dev, i: nat)
    requires i < 4
    ensures ReadValue(d, 0x100 + 4 * i) == d.input.a[i] && ReadValue(d, 0x120 + 4 * i) == d.input.b[i]
  {}

  lemma LaneRead(regs: Registers, d: Dev, k: nat)
    requires SameWords(regs, d) && k < 16
    ensures LaneAtOffset(regs, 0x100, k) == Lane(d.input.a, k) && LaneAtOffset(regs, 0x120, k) == Lane(d.input.b, k)
  {
    OperandRead(d, k / 4);
    assert At(regs, 0x100 + 4 * (k / 4)) == ReadValue(d, 0x100 + 4 * (k / 4));
    assert At(regs, 0x120 + 4 * (k / 4)) == ReadValue(d, 0x120 + 4 * (k / 4));
    UnpackBitwise(d.input.a[k / 4], k % 4);
    UnpackBitwise(d.input.b[k / 4], k % 4);
    hide And, ShiftedRight, UnpackI8, ReadValue, At;
  }

  /** The register sum is the sum over the first `n` lanes. */
  lemma {:induction false} SumAgrees(regs: Registers, d: Dev, n: nat)
    requires SameWords(regs, d) && n <= 16
    ensures LaneSum(regs, n) == LaneDot(d.input.a, d.input.b, n)
  {
    hide SameWords, LaneAtOffset, Lane, LaneDot;
    if n == 0 {
      LaneDotEmpty(d.input.a, d.input.b);
    } else {
      SumAgrees(regs, d, n - 1);
      LaneRead(regs, d, n - 1);
      LaneDotStep(d.input.a, d.input.b, n - 1);
    }
  }

  lemma WordOfResult(r: int32)
    ensures WordOf(r) == ToWord(r) && Stored(Xor(ToWord(r), 1)) == ToWord(FlipLowBit(r))
  {
    FlipLowBitIsXor(r);
    hide Xor;
  }

  lemma FaultTests(fault: u32)
    ensures And(fault, 1) != 0 <==> Bit(fault, 0)
    ensures And(fault, 2) != 0 <==> Bit(fault, 1)
    ensures And(fault, 4) != 0 <==> Bit(fault, 2)
    ensures And(fault, 8) != 0 <==> Bit(fault, 3)
  {
    BitIsAnd(fault, 0);
    BitIsAnd(fault, 1);
    BitIsAnd(fault, 2);
    BitIsAnd(fault, 3);
  }

  lemma ResultRead(d: Dev, w: Dev, a: nat)
    requires SameData(d.(result := w.result), w)
    ensures ReadValue(w, a) == if a == 0x140 then ToWord(w.result)
                               else if a == 0x010 then StatusWord(w.status)
                               else if a == 0x014 then FlagsWord(w.irqStatus)
                               else if a == 0x01C then w.errCode else if a == 0x180 then w.faultControl
                               else ReadValue(d, a)
  {}

  lemma ResultIsSum(f: File, d: Dev)
    requires SameWords(f.regs, d) && Configured(d)
    ensures WordOf(LaneSum(f.regs, At(f.regs, 0x024))) == ToWord(OperandDot(d.input, d.vecLen))
  {
    StatusRead(d);
    assert At(f.regs, 0x024) == ReadValue(d, 0x024);
    SumAgrees(f.regs, d, d.vecLen);
    WordOfResult(OperandDot(d.input, d.vecLen));
    hide LaneSum, LaneDot, ReadValue;
  }

  /** The registers an expiry leaves behind. */
  function Ending(d: Dev): Dev
    requires Configured(d)
  {
    var e := d.(timer := Stopped, result := OperandDot(d.input, d.vecLen));
    if Bit(d.faultControl, 0) then e.(status := Done, irqStatus := NO_FLAGS)
    else if Bit(d.faultControl, 1) then e.(status := Busy, irqStatus := NO_FLAGS)
    else if Bit(d.faultControl, 2) then e.(status := Done, irqStatus := IRQ_COMPLETION, result := FlipLowBit(e.result))
    else if Bit(d.faultControl, 3) then e.(status := Error, irqStatus := IRQ_ERROR, errCode := ERR_FORCED)
    else e.(status := Done, irqStatus := IRQ_COMPLETION)
  }

  lemma FireIsEnding(d: Dev)
    requires Configured(d)
    ensures Fire(d) == UpdateIrq(Ending(d))
  {
    ComputedDone(d.(timer := Stopped));
    hide OperandDot, Overlap, Bit, FlipLowBit;
  }

  lemma EndingData(d: Dev)
    requires Configured(d)
    ensures var w := UpdateIrq(Ending(d));
            && SameData(d.(result := w.result), w) && w.faultControl == d.faultControl && w.timer.Stopped?
            && w.result == Ending(d).result && w.status == Ending(d).status && w.irqStatus == Ending(d).irqStatus
            && w.errCode == Ending(d).errCode
  {
    hide OperandDot, Overlap, Bit, FlipLowBit;
  }

  lemma EndingRead(d: Dev, a: nat)
    requires Configured(d)
    ensures var e := Ending(d);
            ReadValue(UpdateIrq(e), a) ==
              if a == 0x140 then ToWord(e.result)
              else if a == 0x010 then StatusWord(e.status) else if a == 0x014 then FlagsWord(e.irqStatus)
              else if a == 0x01C then e.errCode else ReadValue(d, a)
  {
    EndingData(d);
    StatusRead(d);
    hide ReadValue, Ending, UpdateIrq, Configured, ToWord, StatusWord, FlagsWord, SameData;
    ResultRead(d, UpdateIrq(Ending(d)), a);
  }

  /** The numbers of an ending. */
  lemma EndingNumbers(d: Dev)
    requires Configured(d)
    ensures var e := Ending(d);
            EndingOf(d.faultControl, ToWord(OperandDot(d.input, d.vecLen)), d.errCode)
            == (StatusWord(e.status), FlagsWord(e.irqStatus), e.errCode, ToWord(e.result))
  {
    WordOfResult(OperandDot(d.input, d.vecLen));
    FaultTests(d.faultControl);
    hide And, Bit, Xor, OperandDot, FlipLowBit, ToWord, Stored, Configured;
  }

  /** One offset of a file that agrees, before and after. */
  lemma EndingOffset(f: File, d: Dev, a: nat)
    requires Configured(d) && At(f.regs, a) == ReadValue(d, a)
    requires At(f.regs, 0x180) == d.faultControl && At(f.regs, 0x01C) == d.errCode
    requires WordOf(LaneSum(f.regs, At(f.regs, 0x024))) == ToWord(OperandDot(d.input, d.vecLen))
    ensures At(Expired(f).regs, a) == ReadValue(UpdateIrq(Ending(d)), a)
  {
    EndingNumbers(d);
    EndingRead(d, a);
    hide EndingOf, Ending, StatusWord, FlagsWord, ReadValue, OperandDot, LaneSum, ToWord, WordOf, Configured, UpdateIrq;
  }

  lemma EndingAgrees(f: File, d: Dev)
    requires SameWords(f.regs, d) && Configured(d)
    ensures SameWords(Expired(f).regs, UpdateIrq(Ending(d)))
  {
    ResultIsSum(f, d);
    StatusRead(d);
    assert At(f.regs, 0x180) == ReadValue(d, 0x180) && At(f.regs, 0x01C) == ReadValue(d, 0x01C);
    hide ReadValue, OperandDot, LaneSum, ToWord, WordOf, Configured, UpdateIrq, Ending, Expired, At;
    forall a: nat
      ensures At(Expired(f).regs, a) == ReadValue(UpdateIrq(Ending(d)), a)
    {
      assert At(f.regs, a) == ReadValue(d, a);
      EndingOffset(f, d, a);
    }
  }

  lemma ExpireAgrees(f: File, d: Dev)
    requires Agrees(f, d) && Reachable(d)
    ensures Agrees(Expired(f), Fire(d))
  {
    ReachableParts(d);
    assert Expired(f).timer == Stopped;
    hide Fire, Reachable, ReadValue, SameWords, Configured, Expired, Ending, UpdateIrq, LineAgrees, SameData;
    FireReachable(d);
    ReachableParts(Fire(d));
    FireIsEnding(d);
    EndingData(d);
    EndingAgrees(f, d);
    WordsAgree(Expired(f), Fire(d));
  }

  // ---------------------------------------------------------------- every trace

  lemma NextAgrees(f: File, d: Dev, op: Op)
    requires Agrees(f, d) && Reachable(d)
    ensures Agrees(Next(f, op), Step(d, op))
  {
    hide Agrees, Reachable, Written, Write, Acknowledged, AfterRead, Expired, Fire;
    match op {
      case Rd(addr, size) => if size == 4 { ReadAgrees(f, d, addr); }
      case Wr(addr, val, size, now) => if size == 4 { WriteAgrees(f, d, addr, val, now); }
      case Expire => ExpireAgrees(f, d);
    }
  }

  lemma {:induction false} TraceAgrees(f: File, d: Dev, ops: seq<Op>)
    requires Agrees(f, d) && Reachable(d)
    ensures Agrees(After(f, ops), Run(d, ops))
    decreases ops
  {
    hide Agrees, Reachable, Next, Step;
    if ops != [] {
      NextAgrees(f, d, ops[0]);
      StepReachable(d, ops[0]);
      TraceAgrees(Next(f, ops[0]), Step(d, ops[0]), ops[1..]);
    }
  }

  /** From power-on, on either revision and over every trace of reads, writes and expiries, every offset of
      the device reads as the register file says, the timer is armed alike, and the line is high exactly
      when a pending interrupt is enabled. */
  lemma DeviceIsRegisterFile(revision: u32, ops: seq<Op>)
    requires revision == 1 || revision == 2
    ensures Agrees(After(PowerOn(revision), ops), Run(Fresh(revision), ops))
  {
    PowerOnAgrees(revision);
    FreshReachable(revision);
    TraceAgrees(PowerOn(revision), Fresh(revision), ops);
  }

  // ---------------------------------------------------------------- single registers, in numbers

  /** START on a device that is not idle, an operation running or not: nothing of the operation changes, the
      error bit joins the completion bit, and ERROR_CODE reads 2 unless the device is in ERROR. */
  lemma StartRefused(d: Dev, val: u32, now: int)
    requires ReadValue(d, 0x010) != 0 && And(val, 2) == 0 && And(val, 1) != 0
    ensures var w := Write(d, 0x00C, val, now);
            && ReadValue(w, 0x010) == ReadValue(d, 0x010) && w.timer == d.timer
            && w.input == d.input && w.vecLen == d.vecLen && w.result == d.result && w.faultControl == d.faultControl
            && ReadValue(w, 0x014) == Or(ReadValue(d, 0x014), 2)
            && w.irqStatus.error && (w.irqStatus.completion <==> d.irqStatus.completion)
            && (d.irqEnable.error ==> w.line)
            && ReadValue(w, 0x01C) == if ReadValue(d, 0x010) == 3 then ReadValue(d, 0x01C) else 2
  {
    ControlBits(val);
    ErrorBit(d.irqStatus);
    StatusRead(d);
    StatusRead(Write(d, 0x00C, val, now));
    hide And, Or, Bit, FlagsWord, ReadValue;
  }

  /** START on an idle device: STATUS reads 1, nothing is pending, and the operation ends 100 ms later. */
  lemma StartAccepted(d: Dev, val: u32, now: int)
    requires ReadValue(d, 0x010) == 0 && And(val, 2) == 0 && And(val, 1) != 0
    ensures var w := Write(d, 0x00C, val, now);
            && ReadValue(w, 0x010) == 1 && ReadValue(w, 0x014) == 0 && ReadValue(w, 0x01C) == 0
            && w.timer == Running(now + 100) && w.input == d.input && w.vecLen == d.vecLen
            && w.faultControl == d.faultControl
  {
    ControlBits(val);
    StatusRead(d);
    StatusRead(Write(d, 0x00C, val, now));
    hide And, Bit, ReadValue, Overlap;
  }

  lemma ResetReads(d: Dev, val: u32, now: int)
    requires And(val, 2) != 0
    ensures var w := Write(d, 0x00C, val, now);
            && ReadValue(w, 0x010) == 0 && ReadValue(w, 0x014) == 0 && ReadValue(w, 0x01C) == 0
            && ReadValue(w, 0x180) == 0 && w.timer == Stopped && !w.line
            && w.irqEnable == d.irqEnable && w.input == d.input && w.vecLen == d.vecLen && w.result == d.result
  {
    ControlBits(val);
    StatusRead(Write(d, 0x00C, val, now));
    hide And, Bit, ReadValue;
  }

  lemma BadLengthReads(d: Dev, val: u32, now: int)
    requires Configured(d) && val != 8 && (ReadValue(d, 0x004) == 1 || val != 16)
    ensures var w := Write(d, 0x024, val, now);
            && ReadValue(w, 0x010) == 3 && ReadValue(w, 0x01C) == 1 && ReadValue(w, 0x014) == 2
            && w.vecLen == d.vecLen && w.timer == d.timer
  {
    StatusRead(d);
    StatusRead(Write(d, 0x024, val, now));
    hide ReadValue, Overlap;
  }

  /** Clearing interrupts one by one: a bit goes down exactly when it is written as one. */
  lemma ClearReads(d: Dev, val: u32, now: int)
    ensures ReadValue(Write(d, 0x014, val, now), 0x014) == And(ReadValue(d, 0x014), Complement(val))
    ensures var w := Write(d, 0x014, val, now);
            && (w.irqStatus.completion <==> d.irqStatus.completion && And(val, 1) == 0)
            && (w.irqStatus.error <==> d.irqStatus.error && And(val, 2) == 0)
  {
    ControlBits(val);
    FlagsBitwise(d.irqStatus, d.irqEnable, val);
    StatusRead(d);
    StatusRead(Write(d, 0x014, val, now));
    hide And, Bit, ReadValue, Overlap, FlagsWord, Complement;
  }

  /** The dot product of the first `n` lanes. */
  function FirstLanes(d: Dev, n: nat): int
    requires n <= 16
  {
    Dot(Unpack(d.input.a)[..n], Unpack(d.input.b)[..n])
  }

  /** An expiry, per fault, in numbers. RESULT holds the dot product of exactly as many lanes as
      VECTOR_LENGTH reads. */
  lemma ExpiryReads(d: Dev)
    requires Reachable(d)
    ensures var w := Fire(d);
            var fault := ReadValue(d, 0x180);
            var word := WordOf(FirstLanes(d, ReadValue(d, 0x024)));
            && fault in {0, 1, 2, 4, 8}
            && ReadValue(w, 0x010) == (if fault == 2 then 1 else if fault == 8 then 3 else 2)
            && ReadValue(w, 0x014) == (if fault == 1 || fault == 2 then 0 else if fault == 8 then 2 else 1)
            && ReadValue(w, 0x01C) == (if fault == 8 then 3 else ReadValue(d, 0x01C))
            && ReadValue(w, 0x140) == (if fault == 4 then Xor(word, 1) else word)
            && w.timer == Stopped
  {
    ReachableParts(d);
    FaultBits(d.faultControl);
    FireIsEnding(d);
    EndingData(d);
    var w := Fire(d);
    StatusRead(d);
    StatusRead(w);
    var r := OperandDot(d.input, d.vecLen);
    assert r == FirstLanes(d, d.vecLen) by {
      hide Dot;
    }
    WordOfResult(r);
    FlipLowBitIsXor(r);
    hide ReadValue, OperandDot, FirstLanes, Fire, Reachable, Configured, Bit, Xor, FlipLowBit, ToWord, WordOf, Stored;
    hide SameData;
  }

  /** STATUS by number, after any trace from power-on: 0 after a reset; 1 after START on an idle device and
      for as long as the operation runs; then 2, or 1 under stuck-busy, or 3 under force-error; 3 after a
      rejected length; and from 2 back to 0 when RESULT is read. */
  lemma StatusNumbers(revision: u32, ops: seq<Op>, now: int)
    requires revision == 1 || revision == 2
    ensures var d := Run(Fresh(revision), ops);
            var status := ReadValue(d, 0x010);
            var fault := ReadValue(d, 0x180);
            && ReadValue(Fresh(revision), 0x010) == 0 && status <= 3
            && ReadValue(Step(d, Wr(0x00C, 2, 4, now)), 0x010) == 0
            && ReadValue(Step(d, Wr(0x00C, 1, 4, now)), 0x010) == (if status == 0 then 1 else status)
            && ReadValue(Step(d, Expire), 0x010) == (if fault == 2 then 1 else if fault == 8 then 3 else 2)
            && ReadValue(Step(d, Wr(0x024, 5, 4, now)), 0x010) == 3
            && ReadValue(Step(d, Rd(0x140, 4)), 0x010) == (if status == 2 then 0 else status)
  {
    FreshReachable(revision);
    TraceReachable(Fresh(revision), ops);
    var d := Run(Fresh(revision), ops);
    ReachableParts(d);
    SmallWords();
    StatusRead(d);
    ResetReads(d, 2, now);
    if ReadValue(d, 0x010) == 0 {
      StartAccepted(d, 1, now);
    } else {
      StartRefused(d, 1, now);
    }
    ExpiryReads(d);
    BadLengthReads(d, 5, now);
    StatusRead(AfterRead(d, 0x140));
    hide Write, Fire, ReadValue, Reachable, Configured, And, Run, WordOf;
  }

  lemma SmallWords()
    ensures And(2, 2) == 2 && And(1, 2) == 0 && And(1, 1) == 1
    ensures ReadValue(Fresh(1), 0x010) == 0 && ReadValue(Fresh(2), 0x010) == 0
  {}

  /** While an operation runs, no access but RESET and a rejected length changes STATUS. */
  lemma StatusWhileRunning(d: Dev, op: Op)
    requires d.timer.Running? && ReadValue(d, 0x010) == 1
    requires !op.Expire? && !IsReset(op) && !IsBadLength(d, op)
    ensures ReadValue(Step(d, op), 0x010) == 1
  {
    StatusRead(d);
    StatusRead(Step(d, op));
    BusyStays(d, op);
    hide ReadValue, Step, IsReset, IsBadLength;
  }

  lemma BusyStays(d: Dev, op: Op)
    requires d.status.Busy? && !op.Expire? && !IsReset(op) && !IsBadLength(d, op)
    ensures Step(d, op).status.Busy?
  {
    hide Fire, WriteOperand, Overlap, Bit, FlagsOf, Cleared, LowestBit, LengthAccepted;
  }
}
