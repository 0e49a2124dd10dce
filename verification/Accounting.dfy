/** Where every submitted operation goes: completed, timed out, or failed with an error interrupt.
    The upper bound and the exact balance need calls that do not overlap the one window in which the
    driver has given up the mutex but still owns the error flag (linux-driver/src/vnpu_drv.c:372-373).
 */
module Accounting {
  import opened Words
  import opened Device
  import opened DeviceInvariant
  import opened DeviceFacts
  import opened Machine
  import opened Protocol

  /** Inside a RUN_DOT, from acquiring the mutex to clearing the error flag. */
  predicate Active(c: Client) {
    c.Run? && !c.at.AtLock?
  }

  predicate NoneActive(s: State) {
    forall i :: 0 <= i < |s.clients| ==> !Active(s.clients[i])
  }

  /** The schedule condition: a RUN_DOT takes the mutex only when no other RUN_DOT is still active. */
  predicate SerialStep(s: State, a: Action) {
    a.Go? && a.i < |s.clients| && s.clients[a.i].Run? && s.clients[a.i].at.AtLock? ==> NoneActive(s)
  }

  predicate Serial(s: State, acts: seq<Action>)
    requires Legal(s, acts)
    decreases acts
  {
    acts == [] || (SerialStep(s, acts[0]) && Serial(Apply(s, acts[0]), acts[1..]))
  }

  // ---------------------------------------------------------------- the ledger

  function Spent(k: Counters): nat {
    k.completed + k.timedOut + k.deviceErrors
  }

  function Flagged(s: Sys): nat {
    if s.errorFlag then 1 else 0
  }

  /** `booked` operations are covered by the counters, one error being kept back for a raised flag; the
      balance is exact as long as no error interrupt has arrived late. */
  predicate Covered(s: Sys, booked: int) {
    booked + Flagged(s) <= Spent(s.counters) && (s.late == 0 ==> booked + Flagged(s) == Spent(s.counters))
  }

  predicate RunLedger(s: Sys, at: RunPoint) {
    var n := s.counters.submitted;
    && (s.expired <==> at.AtTimeoutReset?)
    && match at
       case AtWait(_) => Covered(s, n - 1) && (s.late == 0 && s.errorFlag ==> s.done > 0)
       case AtCount => Covered(s, n) && (s.late == 0 && s.errorFlag ==> s.done > 0)
       case AtTimeoutReset => Covered(s, n - 1) && (s.late == 0 ==> !s.errorFlag)
       case AtTimeoutCount => Covered(s, n - 1) && (s.late == 0 ==> !s.errorFlag)
       case AtCheck => Covered(s, n - 1)
       case AtErrorUnlock => Covered(s, n - 1) && s.errorFlag
       case AtErrorReturn => Covered(s, n - 1) && s.errorFlag
       case AtResult => Covered(s, n - 1) && !s.errorFlag
       case AtCountDone(_) => Covered(s, n - 1) && !s.errorFlag
       case _ => Covered(s, n) && (s.late == 0 ==> !s.errorFlag)
  }

  predicate RestLedger(s: Sys) {
    !s.expired && Covered(s, s.counters.submitted) && (s.late == 0 ==> !s.errorFlag)
  }

  predicate OneActive(s: State) {
    forall i, j :: 0 <= i < j < |s.clients| ==> !(Active(s.clients[i]) && Active(s.clients[j]))
  }

  predicate Ledger(s: State) {
    && OneActive(s)
    && (forall i :: 0 <= i < |s.clients| && Active(s.clients[i]) ==> RunLedger(s.sys, s.clients[i].at))
    && (NoneActive(s) ==> RestLedger(s.sys))
  }

  // ---------------------------------------------------------------- steps

  /** The state after an active client's step: still active, or done with. */
  predicate Settles(s: Sys, c: Client) {
    if Active(c) then RunLedger(s, c.at) else RestLedger(s)
  }

  lemma PrepareBooks(s: Sys, i: nat, req: Request, at: RunPoint)
    requires Local(s, i, Run(req, at)) && CanRun(s, at) && Global(s) && (at.AtLock? || Preparing(at))
    requires if at.AtLock? then RestLedger(s) else RunLedger(s, at)
    ensures var (s', c') := RunStep(s, i, req, at); Settles(s', c')
  {
    hide Write, Quiet, Reachable, Outstanding;
    AcceptedLength(s, req);
  }

  lemma FinishBooks(s: Sys, i: nat, req: Request, at: RunPoint)
    requires Local(s, i, Run(req, at)) && CanRun(s, at) && !at.AtLock? && !Preparing(at) && RunLedger(s, at)
    ensures var (s', c') := RunStep(s, i, req, at); Settles(s', c')
  {
    hide Write, AfterRead, ReadValue, Quiet, Outstanding;
  }

  lemma RunBooks(s: Sys, i: nat, req: Request, at: RunPoint)
    requires Local(s, i, Run(req, at)) && CanRun(s, at) && Global(s)
    requires if at.AtLock? then RestLedger(s) else RunLedger(s, at)
    ensures var (s', c') := RunStep(s, i, req, at); Settles(s', c')
  {
    hide RunStep, Local, Global, RestLedger, RunLedger, Settles;
    if at.AtLock? || Preparing(at) {
      PrepareBooks(s, i, req, at);
    } else {
      FinishBooks(s, i, req, at);
    }
  }

  lemma WaitBooks(s: Sys, at: RunPoint)
    requires at.AtWait? && RunLedger(s, at)
    ensures if s.done > 0 then RunLedger(Woken(s), AtCheck) else RunLedger(s.(expired := true), AtTimeoutReset)
  {}

  /** A raised interrupt meets a client that waits for it, and no completion before it. */
  lemma HandleBooks(s: Sys, i: nat, c: Client)
    requires Local(s, i, c) && s.holder == Held(i) && s.dev.irqStatus != NO_FLAGS
    requires Active(c) && RunLedger(s, c.at)
    ensures RunLedger(Handler(s), c.at)
  {
    RaisedHandler(s);
    hide Handler;
  }

  lemma PendingIsActive(s: Sys, i: nat, c: Client)
    requires Local(s, i, c) && s.holder == Held(i) && s.dev.irqStatus != NO_FLAGS
    ensures Active(c)
  {}

  /** A step of anything else leaves the books alone. */
  predicate BooksUntouched(s: Sys, s': Sys) {
    && s'.counters.submitted == s.counters.submitted && Spent(s'.counters) == Spent(s.counters)
    && s'.errorFlag == s.errorFlag && s'.late == s.late && s'.expired == s.expired
  }

  lemma PassiveStep(s: Sys, i: nat, c: Client)
    requires Local(s, i, c) && CanGo(s, c) && !c.Run?
    ensures var (s', c') := ClientStep(s, i, c);
            && BooksUntouched(s, s') && !Active(c')
            && (s'.done == s.done || s.holder == Held(i))
  {
    hide Write, ReadValue, LowNibble, Quiet;
  }

  lemma LedgerCarries(s: Sys, s': Sys, at: RunPoint)
    requires RunLedger(s, at) && BooksUntouched(s, s')
    requires s'.done == s.done || at.AtErrorReturn?
    ensures RunLedger(s', at)
  {}

  // ---------------------------------------------------------------- the whole system

  lemma ActiveOnly(s: State, i: nat)
    requires OneActive(s) && i < |s.clients| && Active(s.clients[i])
    ensures forall j :: 0 <= j < |s.clients| && j != i ==> !Active(s.clients[j])
  {}

  lemma ReplaceActive(s: State, sys': Sys, i: nat, c': Client)
    requires i < |s.clients| && forall j :: 0 <= j < |s.clients| && j != i ==> !Active(s.clients[j])
    requires Settles(sys', c')
    ensures Ledger(State(sys', s.clients[i := c']))
  {
    hide RunLedger, RestLedger;
    var clients' := s.clients[i := c'];
    assert clients'[i] == c';
    assert forall j :: 0 <= j < |clients'| && j != i ==> clients'[j] == s.clients[j];
  }

  lemma ReplacePassive(s: State, sys': Sys, i: nat, c': Client)
    requires Inv(s) && Ledger(s) && i < |s.clients| && !Active(s.clients[i]) && !Active(c')
    requires BooksUntouched(s.sys, sys')
    requires sys'.done == s.sys.done || s.sys.holder == Held(i)
    ensures Ledger(State(sys', s.clients[i := c']))
  {
    hide RunLedger;
    var s' := State(sys', s.clients[i := c']);
    forall j | 0 <= j < |s'.clients| && Active(s'.clients[j])
      ensures RunLedger(sys', s'.clients[j].at)
    {
      assert s'.clients[j] == s.clients[j];
      assert Local(s.sys, j, s.clients[j]);
      LedgerCarries(s.sys, sys', s.clients[j].at);
    }
    if NoneActive(s') {
      forall j | 0 <= j < |s.clients|
        ensures !Active(s.clients[j])
      {
        assert j != i ==> s'.clients[j] == s.clients[j];
      }
    }
  }

  lemma GoBooks(s: State, i: nat)
    requires Inv(s) && Ledger(s) && Enabled(s, Go(i)) && SerialStep(s, Go(i))
    ensures Ledger(Apply(s, Go(i)))
  {
    hide Ledger, RunStep, RunLedger, RestLedger, Global, Local;
    var c := s.clients[i];
    var (sys', c') := ClientStep(s.sys, i, c);
    assert Local(s.sys, i, c);
    if c.Run? {
      LedgerOf(s, i);
      RunBooks(s.sys, i, c.req, c.at);
      ReplaceActive(s, sys', i, c');
    } else {
      PassiveStep(s.sys, i, c);
      ReplacePassive(s, sys', i, c');
    }
  }

  /** The ledger as seen by a client that is, or is about to become, the active one. */
  lemma LedgerOf(s: State, i: nat)
    requires Ledger(s) && i < |s.clients| && s.clients[i].Run?
    requires s.clients[i].at.AtLock? ==> NoneActive(s)
    ensures if s.clients[i].at.AtLock? then RestLedger(s.sys) else RunLedger(s.sys, s.clients[i].at)
    ensures forall j :: 0 <= j < |s.clients| && j != i ==> !Active(s.clients[j])
  {
    hide RunLedger, RestLedger;
    if Active(s.clients[i]) {
      ActiveOnly(s, i);
    }
  }

  lemma HandlerBooks(s: State)
    requires Inv(s) && Ledger(s)
    ensures Ledger(Apply(s, Handle))
  {
    match s.sys.holder {
      case Free =>
        QuietHandler(s.sys);
        hide Handler, RunLedger, RestLedger;
      case Held(i) =>
        var c := s.clients[i];
        assert Local(s.sys, i, c);
        if s.sys.dev.irqStatus == NO_FLAGS {
          LineDown(s.sys);
          IdleHandler(s.sys);
          hide Handler, RunLedger, RestLedger;
        } else {
          PendingIsActive(s.sys, i, c);
          ActiveOnly(s, i);
          HandleBooks(s.sys, i, c);
          ReplaceActive(s, Handler(s.sys), i, c);
          assert s.clients[i := c] == s.clients;
        }
    }
  }

  lemma SystemOnly(s: State, sys': Sys)
    requires Ledger(s) && BooksUntouched(s.sys, sys') && sys'.done == s.sys.done
    ensures Ledger(s.(sys := sys'))
  {
    hide RunLedger;
    forall j | 0 <= j < |s.clients| && Active(s.clients[j])
      ensures RunLedger(sys', s.clients[j].at)
    {
      LedgerCarries(s.sys, sys', s.clients[j].at);
    }
  }

  lemma StepBooks(s: State, a: Action)
    requires Inv(s) && Ledger(s) && Enabled(s, a) && SerialStep(s, a)
    ensures Ledger(Apply(s, a))
  {
    hide Ledger, Inv, RunLedger, RestLedger, Global, Local;
    match a {
      case Call(i, cmd) => ReplacePassive(s, s.sys, i, Entered(s.sys, cmd));
      case Go(i) => GoBooks(s, i);
      case Wake(i) =>
        LedgerOf(s, i);
        WaitBooks(s.sys, s.clients[i].at);
        ReplaceActive(s, Woken(s.sys), i, s.clients[i].(at := AtCheck));
      case Timeout(i) =>
        LedgerOf(s, i);
        WaitBooks(s.sys, s.clients[i].at);
        ReplaceActive(s, s.sys.(expired := true), i, s.clients[i].(at := AtTimeoutReset));
      case Return(i) => ReplacePassive(s, s.sys, i, User);
      case Expire => SystemOnly(s, s.sys.(dev := Fire(s.sys.dev)));
      case Handle => HandlerBooks(s);
      case Tick(ms) => SystemOnly(s, s.sys.(now := s.sys.now + ms));
    }
  }

  lemma {:induction false} RunBooksOn(s: State, acts: seq<Action>)
    requires Inv(s) && Ledger(s) && Legal(s, acts) && Serial(s, acts)
    ensures Inv(Execute(s, acts)) && Ledger(Execute(s, acts))
    decreases acts
  {
    hide Inv, Ledger, Apply, Enabled, SerialStep;
    if acts != [] {
      StepKeeps(s, acts[0]);
      StepBooks(s, acts[0]);
      RunBooksOn(Apply(s, acts[0]), acts[1..]);
    }
  }

  lemma InitialLedger(s: State)
    requires Initial(s)
    ensures Ledger(s)
  {}

  /** Whenever the mutex is free and no failing call is still on its way out, every submitted operation
      is accounted for; and exactly so if no error interrupt ever arrived between the expiry of a wait
      and the reset that follows it. */
  lemma CountersBalance(s0: State, acts: seq<Action>)
    requires Initial(s0) && s0.sys.repaired && Legal(s0, acts) && Serial(s0, acts)
    ensures var s := Execute(s0, acts);
            var k := s.sys.counters;
            s.sys.holder.Free? && NoneActive(s) ==>
              && k.completed + k.timedOut <= k.submitted <= k.completed + k.timedOut + k.deviceErrors
              && k.deviceErrors <= k.submitted
              && (s.sys.late == 0 ==> k.submitted == k.completed + k.timedOut + k.deviceErrors && !s.sys.errorFlag)
  {
    InitialInv(s0);
    InitialLedger(s0);
    RunBooksOn(s0, acts);
  }
}
