/** Every call of a single caller can return: for every command and every state between calls there is a
    timely schedule on which the call runs to its end.
 */
module Returns {
  import opened Device
  import opened Machine
  import opened Protocol
  import opened Accounting
  import opened Outcome
  import opened Solo
  import opened Runs

  const ALONE := Rules(true, true, 0)

  lemma Entering(s: State, cmd: Command)
    requires AtRest(s)
    ensures var entered := s.(clients := [Entered(s.sys, cmd)]);
            Inv(entered) && NoneActive(entered) && entered.sys.holder.Free?
  {
    StepKeeps(s, Call(0, cmd));
    assert Apply(s, Call(0, cmd)) == s.(clients := [Entered(s.sys, cmd)]);
    assert Local(s.sys, 0, s.clients[0]);
    hide Global, Local, MaskRejected, RequestAccepted, ReadValue;
  }

  /** A run of the one client from entry to return is a whole call. */
  lemma WholeCall(s: State, cmd: Command, acts: seq<Action>, t: State, reply: Reply)
    requires s.clients == [User]
    requires Leads(ALONE, s.(clients := [Entered(s.sys, cmd)]), acts, t) && t.clients == [Returned(reply)]
    ensures Executes(s, cmd, acts, reply, t.(clients := [User]))
  {
    KeepingMeans(ALONE, s.(clients := [Entered(s.sys, cmd)]), acts);
    hide Keeping, Timely, Entered;
  }

  lemma RestAfter(s: State, reply: Reply)
    requires Inv(s) && s.clients == [Returned(reply)] && !s.sys.errorFlag
    ensures AtRest(s.(clients := [User]))
  {
    StepKeeps(s, Return(0));
    assert Apply(s, Return(0)) == s.(clients := [User]);
    hide Inv;
  }

  lemma RunReturns(s: State, req: Request) returns (body: seq<Action>, reply: Reply, s': State)
    requires AtRest(s) && RequestAccepted(s.sys, req)
    ensures Executes(s, RunDot(req), body, reply, s') && AtRest(s') && EndReply(s.sys, req, reply)
  {
    var entered := s.(clients := [Entered(s.sys, RunDot(req))]);
    Entering(s, RunDot(req));
    hide Inv, Leads, RequestAccepted, Executes, Expected;
    var s1 := Locks(ALONE, entered, 0, req);
    var t;
    body, t, reply := Answers(ALONE, s1, 0, req);
    Join(ALONE, entered, [Go(0)], s1, body, t);
    body := [Go(0)] + body;
    assert t.clients == [Returned(reply)];
    WholeCall(s, RunDot(req), body, t, reply);
    RestAfter(t, reply);
    s' := t.(clients := [User]);
  }

  /** A wait shorter than the device takes can end in a timeout on a schedule that delays nothing. */
  lemma ShortReturns(s: State, req: Request) returns (body: seq<Action>, s': State)
    requires AtRest(s) && RequestAccepted(s.sys, req) && s.sys.dev.status.Idle? && req.timeoutMs < LATENCY
    ensures Executes(s, RunDot(req), body, Failed(-ETIMEDOUT), s') && AtRest(s')
  {
    var entered := s.(clients := [Entered(s.sys, RunDot(req))]);
    Entering(s, RunDot(req));
    hide Inv, Leads, RequestAccepted, Executes;
    var s1 := Locks(ALONE, entered, 0, req);
    var t;
    body, t := ShortWait(ALONE, s1, 0, req);
    Join(ALONE, entered, [Go(0)], s1, body, t);
    body := [Go(0)] + body;
    assert t.clients == [Returned(Failed(-ETIMEDOUT))];
    WholeCall(s, RunDot(req), body, t, Failed(-ETIMEDOUT));
    RestAfter(t, Failed(-ETIMEDOUT));
    s' := t.(clients := [User]);
  }

  lemma AtOnce(s: State, cmd: Command) returns (body: seq<Action>, reply: Reply, s': State)
    requires AtRest(s) && Entered(s.sys, cmd).Returned?
    ensures Executes(s, cmd, body, reply, s') && AtRest(s')
  {
    body, reply, s' := [], Entered(s.sys, cmd).reply, s;
    hide Entered, Inv;
  }

  lemma OtherReturns(s: State, cmd: Command) returns (body: seq<Action>, reply: Reply, s': State)
    requires AtRest(s) && !cmd.RunDot? && !Entered(s.sys, cmd).Returned?
    ensures Executes(s, cmd, body, reply, s') && AtRest(s')
  {
    var entered := s.(clients := [Entered(s.sys, cmd)]);
    Entering(s, cmd);
    assert InCalm(entered.clients[0]) by {
      hide MaskRejected, ReadValue;
    }
    hide Inv, Leads, Executes, Entered;
    var t;
    body, t, reply := CalmFinishes(ALONE, entered, 0);
    assert t.clients == [Returned(reply)];
    WholeCall(s, cmd, body, t, reply);
    s' := t.(clients := [User]);
    WholeCalm(s, cmd, body, reply, s');
  }

  /** Every command, from every state between calls. */
  lemma CallReturns(s: State, cmd: Command) returns (body: seq<Action>, reply: Reply, s': State)
    requires AtRest(s)
    ensures Executes(s, cmd, body, reply, s') && AtRest(s')
  {
    if Entered(s.sys, cmd).Returned? {
      body, reply, s' := AtOnce(s, cmd);
    } else if cmd.RunDot? {
      body, reply, s' := RunReturns(s, cmd.req);
    } else {
      body, reply, s' := OtherReturns(s, cmd);
    }
  }
}
