/** The driver as written, with the assignment of `vec_len` commented out: no dot product is ever
    submitted, and the first validated request returns with the mutex held for good.
 */
module AsWritten {
  import opened Words
  import opened Device
  import opened DeviceFacts
  import opened Machine
  import opened Protocol

  predicate Early(c: Client) {
    c.Run? ==> c.at.AtLock? || c.at.AtReinit? || c.at.AtClear? || c.at.AtEnable?
  }

  predicate NothingRan(k: Counters) {
    k.submitted == 0 && k.completed == 0 && k.timedOut == 0 && k.deviceErrors == 0
  }

  predicate Idling(s: Sys) {
    !s.repaired && Quiet(s.dev) && NothingRan(s.counters)
  }

  predicate Caller(s: Sys, i: nat, c: Client) {
    && Early(c)
    && (InSection(c) ==> s.holder == Held(i))
    && (c.Returned? ==> !c.reply.Delivered?)
  }

  predicate Futile(s: State) {
    Idling(s.sys) && forall i :: 0 <= i < |s.clients| ==> Caller(s.sys, i, s.clients[i])
  }

  /** What a step may do to the mutex: take it when free, give it back from inside the section. */
  predicate MutexStep(s: Sys, s': Sys, i: nat, c: Client) {
    s'.holder == s.holder || (s.holder.Free? && s'.holder == Held(i)) || (InSection(c) && s'.holder.Free?)
  }

  lemma RunFutile(s: Sys, i: nat, req: Request, at: RunPoint)
    requires Idling(s) && Caller(s, i, Run(req, at)) && CanRun(s, at)
    ensures var (s', c') := RunStep(s, i, req, at);
            && Idling(s') && Caller(s', i, c') && MutexStep(s, s', i, Run(req, at))
            && (at.AtEnable? ==> c' == Returned(Failed(-EINVAL)) && s'.holder == s.holder)
  {
    hide Write;
    Acknowledge(s.dev, s.now);
    Listen(s.dev, s.now);
  }

  lemma ResetFutile(s: Sys, i: nat, to: ResetPoint)
    requires Idling(s) && Caller(s, i, Resetting(to)) && CanReset(s, to)
    ensures var (s', c') := ResetStep(s, i, to);
            Idling(s') && Caller(s', i, c') && MutexStep(s, s', i, Resetting(to))
  {
    hide Write, ReadValue;
    Acknowledge(s.dev, s.now);
    Listen(s.dev, s.now);
    ResetWrite(s.dev, s.now);
  }

  lemma FaultFutile(s: Sys, i: nat, mask: u32, fp: FaultPoint)
    requires Idling(s) && Caller(s, i, Faulting(mask, fp)) && CanFault(s, fp)
    ensures var (s', c') := FaultStep(s, i, mask, fp);
            Idling(s') && Caller(s', i, c') && MutexStep(s, s', i, Faulting(mask, fp))
  {
    hide Write, LowNibble, LowestBit;
    DeviceFacts.FaultWrite(s.dev, LowNibble(mask), s.now);
  }

  lemma ClientFutile(s: Sys, i: nat, c: Client)
    requires Idling(s) && Caller(s, i, c) && CanGo(s, c)
    ensures var (s', c') := ClientStep(s, i, c);
            Idling(s') && Caller(s', i, c') && MutexStep(s, s', i, c)
  {
    hide RunStep, ResetStep, FaultStep;
    match c {
      case Run(req, at) => RunFutile(s, i, req, at);
      case Resetting(to) => ResetFutile(s, i, to);
      case Faulting(mask, fp) => FaultFutile(s, i, mask, fp);
      case Reading(_) =>
    }
  }

  lemma StepFutile(s: State, a: Action)
    requires Futile(s) && Enabled(s, a)
    ensures Futile(Apply(s, a)) && |Apply(s, a).clients| == |s.clients|
    ensures a.Go? ==> MutexStep(s.sys, Apply(s, a).sys, a.i, s.clients[a.i])
    ensures !a.Go? ==> Apply(s, a).sys.holder == s.sys.holder
  {
    hide Write, Fire, ReadValue, ClientStep, Handler, MaskRejected;
    match a {
      case Go(i) => ClientFutile(s.sys, i, s.clients[i]);
      case Handle => QuietHandler(s.sys);
      case _ =>
    }
  }

  lemma {:induction false} RunFutileOn(s: State, acts: seq<Action>)
    requires Futile(s) && Legal(s, acts)
    ensures Futile(Execute(s, acts))
    decreases acts
  {
    if acts != [] {
      StepFutile(s, acts[0]);
      hide Apply, Enabled, Futile;
      RunFutileOn(Apply(s, acts[0]), acts[1..]);
    }
  }

  lemma InitialFutile(s: State)
    requires Initial(s) && !s.sys.repaired
    ensures Futile(s)
  {}

  /** In no run of the driver as written is a dot product submitted, let alone answered. */
  lemma NeverSubmits(s: State, acts: seq<Action>)
    requires Initial(s) && !s.sys.repaired && Legal(s, acts)
    ensures var s' := Execute(s, acts);
            && s'.sys.counters.submitted == 0 && s'.sys.counters.completed == 0
            && forall i :: 0 <= i < |s'.clients| && s'.clients[i].Returned? ==> !s'.clients[i].reply.Delivered?
  {
    InitialFutile(s);
    RunFutileOn(s, acts);
    var s' := Execute(s, acts);
    forall i | 0 <= i < |s'.clients| && s'.clients[i].Returned?
      ensures !s'.clients[i].reply.Delivered?
    {
      assert Caller(s'.sys, i, s'.clients[i]);
    }
  }

  /** A validated request leaves its call with -EINVAL at 345-349 and the mutex still held. */
  lemma RequestAbandonsMutex(s: State, i: nat)
    requires Futile(s) && i < |s.clients| && s.clients[i].Run? && s.clients[i].at.AtEnable?
    ensures var s' := Apply(s, Go(i));
            s'.sys.holder == Held(i) && s'.clients[i] == Returned(Failed(-EINVAL))
  {
    RunFutile(s.sys, i, s.clients[i].req, AtEnable);
    hide RunStep;
  }

  predicate Abandoned(s: State, i: nat) {
    i < |s.clients| && s.sys.holder == Held(i) && !InSection(s.clients[i])
  }

  lemma StillAbandoned(s: State, a: Action, i: nat)
    requires Futile(s) && Abandoned(s, i) && Enabled(s, a)
    ensures Abandoned(Apply(s, a), i)
  {
    StepFutile(s, a);
    var s' := Apply(s, a);
    assert a.Go? ==> Caller(s.sys, a.i, s.clients[a.i]);
    if a.Go? && a.i == i {
      StepOutside(s.sys, i, s.clients[i]);
    }
    hide ClientStep, Handler, MaskRejected, Fire;
  }

  /** Outside the section and with the mutex taken, a client can only go on reading counters or return. */
  lemma StepOutside(s: Sys, i: nat, c: Client)
    requires !InSection(c) && CanGo(s, c) && s.holder.Held? && Early(c)
    ensures !InSection(ClientStep(s, i, c).1)
  {}

  /** From then on the mutex is never free again, so no client gets past its lock. */
  lemma {:induction false} MutexNeverFree(s: State, acts: seq<Action>, i: nat)
    requires Futile(s) && Abandoned(s, i) && Legal(s, acts)
    ensures var s' := Execute(s, acts);
            s'.sys.holder == Held(i) && forall j :: 0 <= j < |s'.clients| ==> !InSection(s'.clients[j])
    decreases acts
  {
    if acts == [] {
      forall j | 0 <= j < |s.clients|
        ensures !InSection(s.clients[j])
      {
        assert Caller(s.sys, j, s.clients[j]);
      }
    } else {
      StepFutile(s, acts[0]);
      StillAbandoned(s, acts[0], i);
      hide Apply, Enabled, Futile, Abandoned;
      MutexNeverFree(Apply(s, acts[0]), acts[1..], i);
    }
  }

  ghost predicate ForeverHeld(s: State, i: nat) {
    forall acts :: Legal(s, acts) ==>
      var t := Execute(s, acts);
      t.sys.holder == Held(i) && forall j :: 0 <= j < |t.clients| ==> !InSection(t.clients[j])
  }

  lemma AbandonedForever(s: State, i: nat)
    requires Futile(s) && Abandoned(s, i)
    ensures ForeverHeld(s, i)
  {
    hide Futile, Abandoned;
    forall acts | Legal(s, acts)
      ensures var t := Execute(s, acts);
              t.sys.holder == Held(i) && forall j :: 0 <= j < |t.clients| ==> !InSection(t.clients[j])
    {
      MutexNeverFree(s, acts, i);
    }
  }

  /** The first request after probe, whoever makes it: five steps lead to a call that has returned -EINVAL
      with the mutex held, and from there no schedule lets any client into the critical section again. */
  lemma FirstRequestIsTheLast(s: State, i: nat, req: Request)
    requires Initial(s) && !s.sys.repaired && i < |s.clients| && RequestAccepted(s.sys, req)
    ensures exists acts ::
              && Legal(s, acts) && |acts| == 5
              && Execute(s, acts).clients == s.clients[i := Returned(Failed(-EINVAL))]
              && ForeverHeld(Execute(s, acts), i)
  {
    var acts := [Call(i, RunDot(req)), Go(i)] + [Go(i), Go(i)] + [Go(i)];
    var t := ReachesLength(s, i, req);
    InitialFutile(s);
    RunFutileOn(s, [Call(i, RunDot(req)), Go(i)] + [Go(i), Go(i)]);
    RequestAbandonsMutex(t, i);
    StepFutile(t, Go(i));
    hide Futile, Write, RequestAccepted;
    Single(t, Go(i));
    Chain(s, [Call(i, RunDot(req)), Go(i)] + [Go(i), Go(i)], [Go(i)]);
    var u := Apply(t, Go(i));
    assert u.clients == t.clients[i := Returned(Failed(-EINVAL))];
    AbandonedForever(u, i);
    assert u.clients == s.clients[i := Returned(Failed(-EINVAL))];
    assert Execute(s, acts) == u;
  }

  lemma ReachesLength(s: State, i: nat, req: Request) returns (t: State)
    requires Initial(s) && !s.sys.repaired && i < |s.clients| && RequestAccepted(s.sys, req)
    ensures var acts := [Call(i, RunDot(req)), Go(i)] + [Go(i), Go(i)]; Legal(s, acts) && Execute(s, acts) == t
    ensures t.clients == s.clients[i := Run(req, AtEnable)]
  {
    var s1 := s.(clients := s.clients[i := Run(req, AtLock)]);
    var s2 := State(s.sys.(holder := Held(i)), s.clients[i := Run(req, AtReinit)]);
    assert s1.clients[i := Run(req, AtReinit)] == s2.clients;
    Pair(s, Call(i, RunDot(req)), s1, Go(i), s2);
    hide Write, Initial, RequestAccepted;
    var s3 := State(s2.sys.(done := 0), s.clients[i := Run(req, AtClear)]);
    assert s2.clients[i := Run(req, AtClear)] == s3.clients;
    t := State(Writel(s3.sys, IRQ_ALL, 0x014), s.clients[i := Run(req, AtEnable)]);
    assert s3.clients[i := Run(req, AtEnable)] == t.clients;
    Pair(s2, Go(i), s3, Go(i), t);
    Chain(s, [Call(i, RunDot(req)), Go(i)], [Go(i), Go(i)]);
  }

  lemma Pair(s: State, a: Action, t: State, b: Action, u: State)
    requires Enabled(s, a) && Apply(s, a) == t && Enabled(t, b) && Apply(t, b) == u
    ensures Legal(s, [a, b]) && Execute(s, [a, b]) == u
  {
    hide Enabled, Apply;
    Single(s, a);
    Single(t, b);
    Chain(s, [a], [b]);
    assert [a] + [b] == [a, b];
  }
}
