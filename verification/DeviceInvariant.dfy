/** What every register access and every expiry of the timer keeps of the device's registers. */
module DeviceInvariant {
  import opened Words
  import opened Lanes
  import opened Device

  /** Identity, vector length and fault register: the length is always one the dot product handles,
      and at most one fault bit is set. */
  predicate Configured(d: Dev) {
    && (d.id.revision == REVISION_A || d.id.revision == REVISION_B)
    && d.id.capabilities == (if d.id.revision == REVISION_A then CAP_A else CAP_B)
    && (d.vecLen == 8 || (d.id.revision == REVISION_B && d.vecLen == 16))
    && SingleFault(d.faultControl)
  }

  predicate SingleFault(fault: u32) {
    fault == 0 || fault == FAULT_IRQ_DROP || fault == FAULT_STUCK_BUSY
    || fault == FAULT_CORRUPT_RESULT || fault == FAULT_FORCE_ERROR
  }

  /** A running timer means BUSY or ERROR with no completion pending; ERROR always carries one of two
      codes; the codes for an unsupported revision and for an internal error never occur. */
  predicate Coherent(d: Dev) {
    && (d.timer.Running? ==> (d.status.Busy? || d.status.Error?) && !d.irqStatus.completion)
    && (d.status.Error? ==> d.errCode == ERR_INVALID_LENGTH || d.errCode == ERR_FORCED)
    && d.errCode <= ERR_FORCED
  }

  /** The interrupt line is high exactly when an enabled interrupt is pending. */
  predicate LineAgrees(d: Dev) {
    d.line <==> Overlap(d.irqStatus, d.irqEnable)
  }

  predicate ResultInRange(d: Dev) {
    -260096 <= d.result <= 262145
  }

  predicate Reachable(d: Dev) {
    Configured(d) && Coherent(d) && LineAgrees(d) && ResultInRange(d)
  }

  lemma ReachableParts(d: Dev)
    requires Reachable(d)
    ensures Configured(d) && Coherent(d) && LineAgrees(d) && (d.irqStatus == NO_FLAGS ==> !d.line)
  {}

  /** The largest results: sixteen lanes, one bit flipped by fault injection. */
  lemma ResultBound(d: Dev)
    ensures -260096 <= ResultOf(d) <= 262144
  {
    LaneDotBound(d.input.a, d.input.b, 8);
    LaneDotBound(d.input.a, d.input.b, 16);
  }

  lemma WriteConfigured(d: Dev, addr: nat, val: u32, now: int)
    requires Configured(d)
    ensures Configured(Write(d, addr, val, now))
    ensures Write(d, addr, val, now).id == d.id
  {
    hide WriteOperand, Overlap, LowestBit, SingleFault, Bit, FlagsOf, Cleared;
    LowestBitSingle(val);
    NoFault();
  }

  lemma NoFault()
    ensures SingleFault(0)
  {}

  lemma LowestBitSingle(val: u32)
    ensures SingleFault(LowestBit(val))
  {
    hide Bit;
  }

  lemma WriteCoherent(d: Dev, addr: nat, val: u32, now: int)
    requires Coherent(d)
    ensures Coherent(Write(d, addr, val, now))
  {
    hide WriteOperand, Overlap, Bit, LowestBit;
  }

  lemma WriteLine(d: Dev, addr: nat, val: u32, now: int)
    requires LineAgrees(d)
    ensures LineAgrees(Write(d, addr, val, now))
    ensures Write(d, addr, val, now).result == d.result
  {
    hide Overlap;
  }

  /** With a length the dot product handles, a finished operation is DONE before fault injection. */
  lemma ComputedDone(d: Dev)
    requires Configured(d)
    ensures var c := Computed(d);
            c == d.(status := Done, irqStatus := IRQ_COMPLETION, result := OperandDot(d.input, d.vecLen))
            && -260096 <= c.result <= 262144
  {
    ResultBound(d);
    hide OperandDot;
  }

  lemma FaultedReachable(c: Dev)
    requires Configured(c) && c.status.Done? && c.timer.Stopped? && c.errCode <= ERR_FORCED
    requires -260096 <= c.result <= 262144
    ensures Reachable(UpdateIrq(Faulted(c))) && Faulted(c).id == c.id
  {
    hide Overlap;
  }

  lemma FireReachable(d: Dev)
    requires Reachable(d)
    ensures Reachable(Fire(d)) && Fire(d).id == d.id
  {
    ReachableParts(d);
    hide Computed, Faulted, Overlap, Reachable;
    ComputedDone(d.(timer := Stopped));
    FaultedReachable(Computed(d.(timer := Stopped)));
  }

  lemma WriteReachable(d: Dev, addr: nat, val: u32, now: int)
    requires Reachable(d)
    ensures Reachable(Write(d, addr, val, now)) && Write(d, addr, val, now).id == d.id
  {
    hide Write, Configured, Coherent, LineAgrees;
    WriteConfigured(d, addr, val, now);
    WriteCoherent(d, addr, val, now);
    WriteLine(d, addr, val, now);
  }

  lemma ReadReachable(d: Dev, addr: nat)
    requires Reachable(d)
    ensures Reachable(AfterRead(d, addr)) && AfterRead(d, addr).id == d.id
  {}

  lemma FreshReachable(revision: u32)
    requires revision == REVISION_A || revision == REVISION_B
    ensures Reachable(Fresh(revision))
  {}
}
