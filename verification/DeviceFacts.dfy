/** Each register access the driver makes, as an equation on the registers. */
module DeviceFacts {
  import opened Words
  import opened Device
  import opened DeviceInvariant

  const BOTH := Flags(true, true)

  /** Nothing is running, nothing is pending. */
  predicate Quiet(d: Dev) {
    d.timer.Stopped? && !d.status.Busy? && d.irqStatus == NO_FLAGS && !d.line
  }

  lemma Acknowledge(d: Dev, now: int)
    ensures Write(d, 0x014, 3, now) == d.(irqStatus := NO_FLAGS, line := false)
  {}

  lemma Listen(d: Dev, now: int)
    ensures Write(d, 0x018, 3, now) == d.(irqEnable := BOTH, line := d.irqStatus != NO_FLAGS)
    ensures Write(d, 0x018, 0, now) == d.(irqEnable := NO_FLAGS, line := false)
  {}

  lemma CopyWord(d: Dev, k: nat, val: u32, now: int)
    requires k < 4
    ensures Write(d, 0x100 + 4 * k, val, now) == d.(input := d.input.(a := d.input.a[k := val]))
    ensures Write(d, 0x120 + 4 * k, val, now) == d.(input := d.input.(b := d.input.b[k := val]))
  {
    hide WriteControl, WriteLength, ClearIrq, EnableIrq, LowestBit;
  }

  lemma SelectLength(d: Dev, val: u32, now: int)
    requires Configured(d) && LengthAccepted(d, val)
    ensures Write(d, 0x024, val, now) == d.(vecLen := val)
  {}

  lemma ResetWrite(d: Dev, now: int)
    ensures Write(d, 0x00C, 2, now)
         == d.(timer := Stopped, status := Idle, irqStatus := NO_FLAGS, errCode := ERR_NONE, faultControl := 0,
               line := false)
  {}

  /** START on an idle device begins an operation; on any other it reports an error at once. */
  lemma StartWrite(d: Dev, now: int)
    requires Quiet(d) && d.irqEnable == BOTH
    ensures Write(d, 0x00C, 1, now) ==
            if d.status.Idle? then d.(status := Busy, errCode := ERR_NONE, timer := Running(now + LATENCY))
            else d.(irqStatus := IRQ_ERROR, line := true, errCode := if d.status.Error? then d.errCode else ERR_BUSY)
  {}

  lemma FaultWrite(d: Dev, val: u32, now: int)
    ensures Write(d, 0x180, val, now) == d.(faultControl := LowestBit(val))
  {
    hide LowestBit;
  }

  /** How an operation ends, per fault, for a driver that listens to both interrupts. */
  function Ended(d: Dev): Dev
    requires Configured(d)
  {
    var e := d.(timer := Stopped, result := ResultOf(d), status := Done, irqStatus := NO_FLAGS, line := false);
    if d.faultControl == FAULT_IRQ_DROP then e
    else if d.faultControl == FAULT_STUCK_BUSY then e.(status := Busy)
    else if d.faultControl == FAULT_CORRUPT_RESULT then
      e.(result := FlipLowBit(ResultOf(d)), irqStatus := IRQ_COMPLETION, line := true)
    else if d.faultControl == FAULT_FORCE_ERROR then
      e.(status := Error, errCode := ERR_FORCED, irqStatus := IRQ_ERROR, line := true)
    else e.(irqStatus := IRQ_COMPLETION, line := true)
  }

  lemma FireEnds(d: Dev)
    requires Configured(d) && d.irqEnable == BOTH
    ensures Fire(d) == Ended(d)
  {
    hide OperandDot;
    FaultBits(d.faultControl);
    hide Bit;
    assert d.vecLen == 8 || d.vecLen == 16;
  }

  lemma FaultBits(fault: u32)
    requires SingleFault(fault)
    ensures fault in {0, 1, 2, 4, 8}
    ensures Bit(fault, 0) <==> fault == FAULT_IRQ_DROP
    ensures Bit(fault, 1) <==> fault == FAULT_STUCK_BUSY
    ensures Bit(fault, 2) <==> fault == FAULT_CORRUPT_RESULT
    ensures Bit(fault, 3) <==> fault == FAULT_FORCE_ERROR
  {}

  lemma FlagsRoundTrip(f: Flags)
    ensures FlagsOf(FlagsWord(f)) == f
  {}

  lemma StatusRead(d: Dev)
    ensures ReadValue(d, 0x010) == StatusWord(d.status) && ReadValue(d, 0x01C) == d.errCode
    ensures ReadValue(d, 0x014) == FlagsWord(d.irqStatus) && ReadValue(d, 0x018) == FlagsWord(d.irqEnable)
    ensures ReadValue(d, 0x180) == d.faultControl && ReadValue(d, 0x024) == d.vecLen
    ensures ReadValue(d, 0x140) == ToWord(d.result)
    ensures ReadValue(d, 0x000) == 0x564E5055 && ReadValue(d, 0x004) == d.id.revision
  {}

  lemma SignedImage(r: int32)
    ensures Signed(ToWord(r)) == r
  {}
}
