/** The register-level device of qemu-device/src/vnpu.c: its registers as a value, the effect of every
    register access and of the operation timer, and the class whose methods update the registers in
    place the way the C functions do.
 */
module Device {
  import opened Words
  import opened Lanes

  const REVISION_A: u32 := 1
  const REVISION_B: u32 := 2
  const CAP_A: u32 := 0x7B
  const CAP_B: u32 := 0x7D

  const ERR_NONE: u32 := 0
  const ERR_INVALID_LENGTH: u32 := 1
  const ERR_BUSY: u32 := 2
  const ERR_FORCED: u32 := 3

  const IRQ_COMPLETION := Flags(true, false)
  const IRQ_ERROR := Flags(false, true)

  const FAULT_IRQ_DROP: u32 := 1
  const FAULT_STUCK_BUSY: u32 := 2
  const FAULT_CORRUPT_RESULT: u32 := 4
  const FAULT_FORCE_ERROR: u32 := 8

  /** Milliseconds from an accepted START to the end of the operation. */
  const LATENCY: int := 100

  datatype Status = Idle | Busy | Done | Error

  /** The one-shot operation timer. */
  datatype Timer = Stopped | Running(deadline: int)

  /** The two input banks. */
  datatype Operands = Operands(a: Bank, b: Bank)

  /** What a revision is: its number, its feature bitmap. */
  datatype Identity = Identity(revision: u32, capabilities: u32)

  datatype Dev = Dev(
    status: Status, errCode: u32, irqStatus: Flags, irqEnable: Flags, faultControl: u32,
    input: Operands, vecLen: u32, result: int32, jobId: u32,
    id: Identity, timer: Timer, line: bool)

  function StatusWord(s: Status): u32 {
    match s case Idle => 0 case Busy => 1 case Done => 2 case Error => 3
  }

  // ---------------------------------------------------------------- one step, on values

  /** The registers after `vnpu_register_init` on a zeroed device. */
  function Fresh(revision: u32): Dev
    requires revision == REVISION_A || revision == REVISION_B
  {
    Dev(Idle, ERR_NONE, NO_FLAGS, NO_FLAGS, 0,
        Operands([0, 0, 0, 0], [0, 0, 0, 0]), if revision == REVISION_A then 8 else 16, 0, 0,
        Identity(revision, if revision == REVISION_A then CAP_A else CAP_B), Stopped, false)
  }

  function UpdateIrq(d: Dev): Dev {
    d.(line := Overlap(d.irqStatus, d.irqEnable))
  }

  function ReadValue(d: Dev, addr: nat): u32 {
    if addr == 0x000 then 0x564E5055
    else if addr == 0x004 then d.id.revision
    else if addr == 0x008 then d.id.capabilities
    else if addr == 0x010 then StatusWord(d.status)
    else if addr == 0x014 then FlagsWord(d.irqStatus)
    else if addr == 0x018 then FlagsWord(d.irqEnable)
    else if addr == 0x01C then d.errCode
    else if addr == 0x020 then d.jobId
    else if addr == 0x024 then d.vecLen
    else if addr == 0x140 then ToWord(d.result)
    else if addr == 0x180 then d.faultControl
    else ReadOperand(d.input, addr)
  }

  function ReadOperand(o: Operands, addr: nat): u32 {
    if addr == 0x100 then o.a[0]
    else if addr == 0x104 then o.a[1]
    else if addr == 0x108 then o.a[2]
    else if addr == 0x10C then o.a[3]
    else if addr == 0x120 then o.b[0]
    else if addr == 0x124 then o.b[1]
    else if addr == 0x128 then o.b[2]
    else if addr == 0x12C then o.b[3]
    else 0
  }

  /** Reading RESULT acknowledges a finished operation; no other read changes anything. */
  function AfterRead(d: Dev, addr: nat): Dev {
    if addr == 0x140 && d.status.Done? then d.(status := Idle) else d
  }

  function Reset(d: Dev): Dev {
    UpdateIrq(d.(timer := Stopped, status := Idle, irqStatus := NO_FLAGS, errCode := ERR_NONE, faultControl := 0))
  }

  function Start(d: Dev, now: int): Dev {
    if d.status.Idle? then
      UpdateIrq(d.(status := Busy, irqStatus := NO_FLAGS)).(errCode := ERR_NONE, timer := Running(now + LATENCY))
    else
      UpdateIrq(d.(irqStatus := d.irqStatus.(error := true),
                   errCode := if d.status.Error? then d.errCode else ERR_BUSY))
  }

  predicate LengthAccepted(d: Dev, val: u32) {
    val == 8 || (d.id.revision == REVISION_B && val == 16)
  }

  function WriteLength(d: Dev, val: u32): Dev {
    if d.id.revision != REVISION_A && d.id.revision != REVISION_B then d
    else if LengthAccepted(d, val) then d.(vecLen := val)
    else UpdateIrq(d.(errCode := ERR_INVALID_LENGTH, status := Error, irqStatus := IRQ_ERROR))
  }

  function WriteControl(d: Dev, val: u32, now: int): Dev {
    if Bit(val, 1) then Reset(d) else if Bit(val, 0) then Start(d, now) else d
  }

  function ClearIrq(d: Dev, val: u32): Dev {
    UpdateIrq(d.(irqStatus := Cleared(d.irqStatus, val)))
  }

  function EnableIrq(d: Dev, val: u32): Dev {
    UpdateIrq(d.(irqEnable := FlagsOf(val)))
  }

  /** A four-byte write at virtual time `now`. */
  function Write(d: Dev, addr: nat, val: u32, now: int): Dev {
    if addr == 0x00C then WriteControl(d, val, now)
    else if addr == 0x014 then ClearIrq(d, val)
    else if addr == 0x018 then EnableIrq(d, val)
    else if addr == 0x020 then d.(jobId := val)
    else if addr == 0x024 then WriteLength(d, val)
    else if addr == 0x180 then d.(faultControl := LowestBit(val))
    else d.(input := WriteOperand(d.input, addr, val))
  }

  /** The effect of a write on the input registers; every other offset leaves them alone. */
  function WriteOperand(o: Operands, addr: nat, val: u32): Operands {
    if addr == 0x100 then o.(a := o.a[0 := val])
    else if addr == 0x104 then o.(a := o.a[1 := val])
    else if addr == 0x108 then o.(a := o.a[2 := val])
    else if addr == 0x10C then o.(a := o.a[3 := val])
    else if addr == 0x120 then o.(b := o.b[0 := val])
    else if addr == 0x124 then o.(b := o.b[1 := val])
    else if addr == 0x128 then o.(b := o.b[2 := val])
    else if addr == 0x12C then o.(b := o.b[3 := val])
    else o
  }

  /** The value the dot product delivers for the current registers. */
  function ResultOf(d: Dev): int32 {
    OperandDot(d.input, d.vecLen)
  }

  function OperandDot(o: Operands, vecLen: u32): int32 {
    if vecLen == 8 then
      LaneDotBound(o.a, o.b, 8); LaneDot(o.a, o.b, 8)
    else if vecLen == 16 then
      LaneDotBound(o.a, o.b, 16); LaneDot(o.a, o.b, 16)
    else 0
  }

  /** The registers after the dot product, before fault injection. */
  function Computed(d: Dev): Dev {
    var c := d.(result := ResultOf(d));
    if d.vecLen == 8 || d.vecLen == 16 then
      c.(status := Done, irqStatus := IRQ_COMPLETION)
    else
      c.(status := Error, irqStatus := IRQ_ERROR, errCode := ERR_INVALID_LENGTH)
  }

  /** Fault injection, applied to the finished operation. */
  function Faulted(c: Dev): Dev {
    if Bit(c.faultControl, 0) then c.(irqStatus := NO_FLAGS)
    else if Bit(c.faultControl, 1) then c.(status := Busy, irqStatus := NO_FLAGS)
    else if Bit(c.faultControl, 2) then c.(result := FlipLowBit(c.result))
    else if Bit(c.faultControl, 3) then c.(status := Error, errCode := ERR_FORCED, irqStatus := IRQ_ERROR)
    else c
  }

  /** The timer callback; the timer is one-shot, so it is stopped when the callback runs. */
  function Fire(d: Dev): Dev {
    UpdateIrq(Faulted(Computed(d.(timer := Stopped))))
  }

  // ---------------------------------------------------------------- the device object

  class VnpuDevice {
    var status: Status
    var errCode: u32
    const inputA: array<u32>
    const inputB: array<u32>
    var result: int32
    var jobId: u32
    var irqStatus: Flags
    var irqEnable: Flags
    var faultControl: u32
    var revision: u32
    var capabilities: u32
    var vecLen: u32
    var timer: Timer
    var line: bool

    ghost predicate Valid()
      reads this
    {
      inputA.Length == 4 && inputB.Length == 4 && inputA != inputB
    }

    ghost function State(): Dev
      reads this, inputA, inputB
      requires Valid()
    {
      Dev(status, errCode, irqStatus, irqEnable, faultControl, Operands(inputA[..], inputB[..]), vecLen, result, jobId,
          Identity(revision, capabilities), timer, line)
    }

    /** Realize a device of the given revision. Any other revision leaves it zeroed. */
    constructor (version: u32)
      ensures Valid() && fresh(inputA) && fresh(inputB)
      ensures version == REVISION_A || version == REVISION_B ==> State() == Fresh(version)
    {
      inputA := new u32[4](_ => 0);
      inputB := new u32[4](_ => 0);
      status, errCode, result, jobId := Idle, ERR_NONE, 0, 0;
      irqStatus, irqEnable, faultControl := NO_FLAGS, NO_FLAGS, 0;
      revision, capabilities, vecLen := 0, 0, 0;
      timer, line := Stopped, false;
      new;
      RegisterInit(version);
    }

    method RegisterInit(version: u32)
      requires Valid()
      modifies this, inputA, inputB
      ensures Valid() && timer == old(timer) && line == old(line)
      ensures version == REVISION_A || version == REVISION_B ==>
                State() == Fresh(version).(timer := old(timer), line := old(line))
      ensures version != REVISION_A && version != REVISION_B ==> State() == old(State())
    {
      if version == REVISION_A {
        ClearRegisters();
        capabilities := CAP_A;
        revision := REVISION_A;
        vecLen := 8;
      } else if version == REVISION_B {
        ClearRegisters();
        capabilities := CAP_B;
        revision := REVISION_B;
        vecLen := 16;
      }
    }

    method ClearRegisters()
      requires Valid()
      modifies this, inputA, inputB
      ensures Valid()
      ensures State() == old(State()).(status := Idle, irqStatus := NO_FLAGS, irqEnable := NO_FLAGS, errCode := 0,
                                       result := 0, faultControl := 0, jobId := 0,
                                       input := Operands([0, 0, 0, 0], [0, 0, 0, 0]))
    {
      status := Idle;
      irqStatus := NO_FLAGS;
      irqEnable := NO_FLAGS;
      errCode := 0;
      result := 0;
      faultControl := 0;
      jobId := 0;
      ClearInputs();
    }

    method ClearInputs()
      requires Valid()
      modifies inputA, inputB
      ensures inputA[..] == [0, 0, 0, 0] && inputB[..] == [0, 0, 0, 0]
    {
      for i := 0 to 4
        invariant forall j :: 0 <= j < i ==> inputA[j] == 0 && inputB[j] == 0
      {
        inputA[i], inputB[i] := 0, 0;
      }
    }

    method UpdateIrqLine()
      requires Valid()
      modifies this`line
      ensures State() == UpdateIrq(old(State()))
    {
      line := Overlap(irqStatus, irqEnable);
    }

    method MmioRead(addr: nat, size: nat) returns (val: u32)
      requires Valid()
      modifies this`status
      ensures size == 4 ==> val == ReadValue(old(State()), addr) && State() == AfterRead(old(State()), addr)
      ensures size != 4 ==> val == 0 && State() == old(State())
    {
      val := 0;
      if size != 4 {
        return;
      }
      match addr {
        case 0x000 => val := 0x564E5055;
        case 0x004 => val := revision;
        case 0x008 => val := capabilities;
        case 0x010 => val := StatusWord(status);
        case 0x014 => val := FlagsWord(irqStatus);
        case 0x018 => val := FlagsWord(irqEnable);
        case 0x01C => val := errCode;
        case 0x020 => val := jobId;
        case 0x024 => val := vecLen;
        case 0x100 => val := inputA[0];
        case 0x104 => val := inputA[1];
        case 0x108 => val := inputA[2];
        case 0x10C => val := inputA[3];
        case 0x120 => val := inputB[0];
        case 0x124 => val := inputB[1];
        case 0x128 => val := inputB[2];
        case 0x12C => val := inputB[3];
        case 0x140 =>
          val := ToWord(result);
          if status == Done {
            status := Idle;
          }
        case 0x180 => val := faultControl;
        case _ =>
      }
    }

    method MmioWrite(addr: nat, val: u32, size: nat, now: int)
      requires Valid()
      modifies this, inputA, inputB
      ensures Valid()
      ensures State() == if size == 4 then Write(old(State()), addr, val, now) else old(State())
    {
      if size != 4 {
        return;
      }
      match addr {
        case 0x00C => WriteControlRegister(val, now);
        case 0x014 =>
          irqStatus := Cleared(irqStatus, val);
          UpdateIrqLine();
        case 0x018 =>
          irqEnable := FlagsOf(val);
          UpdateIrqLine();
        case 0x020 => jobId := val;
        case 0x024 => WriteVectorLength(val);
        case 0x100 => inputA[0] := val;
        case 0x104 => inputA[1] := val;
        case 0x108 => inputA[2] := val;
        case 0x10C => inputA[3] := val;
        case 0x120 => inputB[0] := val;
        case 0x124 => inputB[1] := val;
        case 0x128 => inputB[2] := val;
        case 0x12C => inputB[3] := val;
        case 0x180 => faultControl := LowestBit(val);
        case _ =>
      }
    }

    method WriteControlRegister(val: u32, now: int)
      requires Valid()
      modifies this
      ensures Valid() && State() == WriteControl(old(State()), val, now)
    {
      if Bit(val, 1) {
        timer := Stopped;
        status := Idle;
        irqStatus := NO_FLAGS;
        errCode := 0;
        faultControl := 0;
        UpdateIrqLine();
        return;
      }
      if Bit(val, 0) {
        if status != Idle {
          irqStatus := irqStatus.(error := true);
          if status == Busy {
            errCode := ERR_BUSY;
          } else if status == Done {
            errCode := ERR_BUSY;
          }
          UpdateIrqLine();
          return;
        }
        status := Busy;
        irqStatus := NO_FLAGS;
        UpdateIrqLine();
        errCode := 0;
        timer := Running(now + LATENCY);
      }
    }

    method WriteVectorLength(val: u32)
      requires Valid()
      modifies this
      ensures Valid() && State() == WriteLength(old(State()), val)
    {
      if revision == REVISION_A {
        if val == 8 {
          vecLen := val;
        } else {
          RejectLength();
        }
      } else if revision == REVISION_B {
        if val == 8 || val == 16 {
          vecLen := val;
        } else {
          RejectLength();
        }
      }
    }

    method RejectLength()
      requires Valid()
      modifies this
      ensures Valid()
      ensures State() ==
              UpdateIrq(old(State()).(errCode := ERR_INVALID_LENGTH, status := Error, irqStatus := IRQ_ERROR))
    {
      errCode := ERR_INVALID_LENGTH;
      status := Error;
      irqStatus := IRQ_ERROR;
      UpdateIrqLine();
    }

    /** The accumulation loops. Every intermediate sum is assigned to a 32-bit variable, so that it
        stays in range is part of what is verified. */
    method DotProduct() returns (sum: int32)
      requires Valid()
      modifies this`status, this`irqStatus, this`errCode
      ensures sum == ResultOf(old(State()))
      ensures State() == Computed(old(State())).(result := result)
    {
      hide LaneDot, UnpackI8;
      LaneDotEmpty(inputA[..], inputB[..]);
      sum := 0;
      if vecLen == 8 || vecLen == 16 {
        var words := if vecLen == 8 then 2 else 4;
        ghost var a, b := inputA[..], inputB[..];
        for i := 0 to words
          invariant sum == LaneDot(a, b, 4 * i)
          invariant State() == old(State()).(status := status, irqStatus := irqStatus)
          invariant i > 0 ==> status == Done && irqStatus == IRQ_COMPLETION
        {
          sum := AddLane(sum, inputA[i], inputB[i], a, b, i, 0);
          sum := AddLane(sum, inputA[i], inputB[i], a, b, i, 1);
          sum := AddLane(sum, inputA[i], inputB[i], a, b, i, 2);
          sum := AddLane(sum, inputA[i], inputB[i], a, b, i, 3);
          status := Done;
          irqStatus := IRQ_COMPLETION;
        }
      } else {
        status := Error;
        irqStatus := IRQ_ERROR;
        errCode := ERR_INVALID_LENGTH;
      }
    }

    static method AddLane(sum: int32, wordA: u32, wordB: u32, ghost a: Bank, ghost b: Bank, i: nat, k: nat)
      returns (next: int32)
      requires i < 4 && k < 4 && wordA == a[i] && wordB == b[i]
      requires sum == LaneDot(a, b, 4 * i + k)
      ensures next == LaneDot(a, b, 4 * i + k + 1)
    {
      LaneAt(a, i, k);
      LaneAt(b, i, k);
      LaneDotStep(a, b, 4 * i + k);
      LaneDotBound(a, b, 4 * i + k + 1);
      next := sum + Product(UnpackI8(wordA, k), UnpackI8(wordB, k));
    }

    /** The timer callback. */
    method DotTimer()
      requires Valid()
      modifies this
      ensures Valid() && State() == Fire(old(State()))
    {
      hide OperandDot;
      timer := Stopped;
      var r := DotProduct();
      result := r;
      if Bit(faultControl, 0) {
        irqStatus := NO_FLAGS;
      } else if Bit(faultControl, 1) {
        status := Busy;
        irqStatus := NO_FLAGS;
      } else if Bit(faultControl, 2) {
        result := FlipLowBit(result);
      } else if Bit(faultControl, 3) {
        status := Error;
        errCode := ERR_FORCED;
        irqStatus := IRQ_ERROR;
      }
      UpdateIrqLine();
    }
  }
}
