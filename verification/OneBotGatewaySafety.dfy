/** What gateways/onebot_ws.py keeps while sockets come and go in any order. */
module OneBotGatewaySafety {
  import opened Common
  import opened OneBotGateway

  predicate OnTheWire(call: Call) {
    call.place == Sending || call.place == Awaiting
  }

  /** A pending echo is that of a call on the wire, registered on the socket active now. */
  predicate Registered(s: State, echo: Echo) {
    echo in s.pending ==>
      var c := s.pending[echo];
      && c < |s.calls| && OnTheWire(s.calls[c]) && s.calls[c].echo == Some(echo)
      && s.active.Some? && s.calls[c].conn == s.active
  }

  /** A call on the wire is pending, or its future is done and it is about to return. */
  predicate CallFits(s: State, c: CallId)
    requires c < |s.calls|
  {
    var call := s.calls[c];
    && (OnTheWire(call) ==> call.echo.Some? && call.conn.Some?)
    && (OnTheWire(call) && call.future == Pending ==> call.echo.value in s.pending && s.pending[call.echo.value] == c)
    && (call.echo.Some? ==> call.echo.value < s.nextEcho)
    && (call.echo.None? ==> !call.future.Result? && (call.place == Queued || call.place == Failed))
    && (call.future.Result? ==> call.echo == Some(call.future.payload.echo))
    && (call.place.Returned? ==> call.future == Result(call.place.payload))
    && (call.place == Failed ==> call.future != Pending)
    && (call.place == Queued ==> call.echo.None?)
    && (call.place == Sending ==> s.locked)
  }

  ghost predicate AllRegistered(s: State) {
    forall echo :: Registered(s, echo)
  }

  ghost predicate AllFit(s: State) {
    forall c: CallId | c < |s.calls| :: CallFits(s, c)
  }

  ghost predicate EchoesDiffer(s: State) {
    forall a: CallId, b: CallId | a < |s.calls| && b < |s.calls| && s.calls[a].echo.Some? ::
      s.calls[a].echo == s.calls[b].echo ==> a == b
  }

  /** The lock is held across an await only by the call that is sending. */
  ghost predicate LockFits(s: State) {
    forall a: CallId, b: CallId | a < |s.calls| && b < |s.calls| ::
      s.calls[a].place == Sending && s.calls[b].place == Sending ==> a == b
  }

  ghost predicate Inv(s: State) {
    AllRegistered(s) && AllFit(s) && EchoesDiffer(s) && LockFits(s)
  }

  lemma CancelKeepsInv(s: State, active: Option<Conn>)
    requires Inv(s) && !s.locked
    ensures Inv(PendingCancelled(s.(active := active)))
  {
    var after := PendingCancelled(s.(active := active));
    forall c: CallId | c < |s.calls|
      ensures CallFits(after, c)
    {
      assert CallFits(s, c);
      if OnTheWire(s.calls[c]) && s.calls[c].future == Pending {
        assert s.calls[c].echo.value in s.pending;
        assert c in s.pending.Values;
      }
    }
  }

  lemma RegisterKeepsInv(s: State, c: CallId)
    requires Inv(s) && Enabled(s, Register(c))
    ensures Inv(AfterRegister(s, c))
  {
    var after := AfterRegister(s, c);
    forall a: CallId | a < |s.calls|
      ensures s.calls[a].place != Sending && (s.calls[a].echo.Some? ==> s.calls[a].echo.value < s.nextEcho)
    {
      assert CallFits(s, a);
    }
    forall echo
      ensures Registered(after, echo)
    {
      assert Registered(s, echo);
    }
    forall a: CallId | a < |s.calls|
      ensures CallFits(after, a)
    {
      assert CallFits(s, a);
    }
  }

  lemma ReceiveKeepsInv(s: State, payload: Payload)
    requires Inv(s)
    ensures Inv(AfterReceive(s, payload))
  {
    var after := AfterReceive(s, payload);
    assert Registered(s, payload.echo);
    forall echo
      ensures Registered(after, echo)
    {
      assert Registered(s, echo);
    }
    forall a: CallId | a < |s.calls|
      ensures CallFits(after, a)
    {
      assert CallFits(s, a);
    }
  }

  lemma EndKeepsInv(s: State, c: CallId, place: Place)
    requires Inv(s) && c < |s.calls| && (OnTheWire(s.calls[c]) || s.calls[c].place == Queued)
    requires place == Failed || (place.Returned? && s.calls[c].future == Result(place.payload))
    ensures Inv(AfterEnd(s, c, place))
  {
    var after := AfterEnd(s, c, place);
    assert CallFits(s, c);
    forall echo
      ensures Registered(after, echo)
    {
      assert Registered(s, echo);
    }
    forall a: CallId | a < |s.calls|
      ensures CallFits(after, a)
    {
      assert CallFits(s, a);
    }
  }

  lemma StepKeepsInv(s: State, step: Step)
    requires Inv(s) && Enabled(s, step)
    ensures Inv(Next(s, step))
  {
    match step
    case Activate(conn) => CancelKeepsInv(s, Some(conn));
    case Deactivate(_) => if Next(s, step) != s { CancelKeepsInv(s, None); }
    case Shutdown => CancelKeepsInv(s, None);
    case Register(c) => RegisterKeepsInv(s, c);
    case Receive(payload) => ReceiveKeepsInv(s, payload);
    case Wake(c) => EndKeepsInv(s, c, match s.calls[c].future case Result(p) => Returned(p) case _ => Failed);
    case Abandon(c) => EndKeepsInv(s, c, Failed);
    case _ => OtherKeepsInv(s, step);
  }

  lemma OtherKeepsInv(s: State, step: Step)
    requires Inv(s) && Enabled(s, step) && (step.Drop? || step.Start? || step.Sent?)
    ensures Inv(Next(s, step))
  {
    var after := Next(s, step);
    forall echo
      ensures Registered(after, echo)
    {
      assert Registered(s, echo);
    }
    forall a: CallId | a < |after.calls|
      ensures CallFits(after, a)
    {
      assert a < |s.calls| ==> CallFits(s, a);
    }
  }

  // ---------------------------------------------------------------------
  // Whole runs
  // ---------------------------------------------------------------------

  ghost predicate Leads(s: State, step: Step, next: State) {
    Enabled(s, step) && next == Next(s, step)
  }

  ghost predicate IsRun(states: seq<State>, steps: seq<Step>) {
    && |states| == |steps| + 1 && states[0] == INITIAL
    && forall i :: 0 <= i < |steps| ==> Leads(states[i], steps[i], states[i + 1])
  }

  lemma {:induction false} RunKeepsInv(states: seq<State>, steps: seq<Step>, n: nat)
    requires IsRun(states, steps) && n < |states|
    ensures Inv(states[n])
  {
    if n > 0 {
      RunKeepsInv(states, steps, n - 1);
      assert Leads(states[n - 1], steps[n - 1], states[n]);
      StepKeepsInv(states[n - 1], steps[n - 1]);
    }
  }

  /**
   * Every pending echo was registered on the socket active now, by a call that has not returned;
   * so with no active socket nothing is pending, and no entry outlives its call.
   */
  lemma PendingIsOfActiveSocket(states: seq<State>, steps: seq<Step>, n: nat, echo: Echo)
    requires IsRun(states, steps) && n < |states| && echo in states[n].pending
    ensures var s := states[n];
            var c := s.pending[echo];
            && c < |s.calls| && OnTheWire(s.calls[c]) && s.calls[c].echo == Some(echo)
            && s.active.Some? && s.calls[c].conn == s.active
  {
    RunKeepsInv(states, steps, n);
    assert Registered(states[n], echo);
  }

  /**
   * A call on the wire loses its future only to a new socket, the shutdown, the teardown of the
   * socket it was sent on, or its own end: never to the late teardown of an earlier socket.
   */
  lemma OnlyOwnSocketCancels(states: seq<State>, steps: seq<Step>, n: nat, c: CallId)
    requires IsRun(states, steps) && n < |steps| && c < |states[n].calls| && OnTheWire(states[n].calls[c])
    requires states[n].calls[c].future == Pending
    ensures c < |states[n + 1].calls|
    ensures states[n + 1].calls[c].future == Cancelled ==>
              || steps[n].Activate? || steps[n].Shutdown? || steps[n] == Abandon(c)
              || (steps[n].Deactivate? && states[n].calls[c].conn == Some(steps[n].conn))
  {
    RunKeepsInv(states, steps, n);
    var s, step := states[n], steps[n];
    assert Leads(s, step, states[n + 1]);
    assert CallFits(s, c);
    assert Registered(s, s.calls[c].echo.value);
  }

  /** A call still waiting can be answered: its echo is pending, and on the active socket. */
  lemma NobodyHangs(states: seq<State>, steps: seq<Step>, n: nat, c: CallId, data: string)
    requires IsRun(states, steps) && n < |states| && c < |states[n].calls| && OnTheWire(states[n].calls[c])
    requires states[n].calls[c].future == Pending
    ensures var s := states[n];
            && s.calls[c].echo.Some? && s.calls[c].conn == s.active
            && AfterReceive(s, Payload(s.calls[c].echo.value, data)).calls[c].future
               == Result(Payload(s.calls[c].echo.value, data))
  {
    RunKeepsInv(states, steps, n);
    assert CallFits(states[n], c);
    assert Registered(states[n], states[n].calls[c].echo.value);
  }

  /** A call returns at most once, with the first reply that bears its own echo, and with no other's. */
  lemma ReturnsOwnReplyOnce(states: seq<State>, steps: seq<Step>, n: nat, c: CallId)
    requires IsRun(states, steps) && n < |steps| && c < |states[n].calls|
    ensures var call := states[n].calls[c];
            && c < |states[n + 1].calls|
            && (call.future != Pending ==> states[n + 1].calls[c].future == call.future)
            && (call.place.Returned? || call.place == Failed ==> states[n + 1].calls[c] == call)
            && (call.place.Returned? ==> call.echo == Some(call.place.payload.echo))
            && (call.future == Pending && states[n + 1].calls[c].future.Result? ==>
                  call.echo.Some?
                  && steps[n] == Receive(Payload(call.echo.value, states[n + 1].calls[c].future.payload.data)))
    ensures forall other: CallId :: other < |states[n].calls| && other != c && states[n].calls[c].echo.Some? ==>
                                      states[n].calls[other].echo != states[n].calls[c].echo
  {
    RunKeepsInv(states, steps, n);
    var s, step := states[n], steps[n];
    assert Leads(s, step, states[n + 1]);
    assert CallFits(s, c);
    if step.Receive? {
      assert Registered(s, step.payload.echo);
    }
  }

  // ---------------------------------------------------------------------
  // Calls get out, and their replies in
  // ---------------------------------------------------------------------

  ghost predicate SomeoneSends(s: State) {
    exists c: CallId :: c < |s.calls| && s.calls[c].place == Sending
  }

  /** The lock is held exactly while a call is being sent, so it is released however that ends. */
  lemma {:induction false} LockedIffSending(states: seq<State>, steps: seq<Step>, n: nat)
    requires IsRun(states, steps) && n < |states|
    ensures states[n].locked <==> SomeoneSends(states[n])
  {
    if n > 0 {
      LockedIffSending(states, steps, n - 1);
      RunKeepsInv(states, steps, n - 1);
      assert Leads(states[n - 1], steps[n - 1], states[n]);
      StepKeepsLock(states[n - 1], steps[n - 1]);
    }
  }

  lemma StepKeepsLock(s: State, step: Step)
    requires Inv(s) && Enabled(s, step) && (s.locked <==> SomeoneSends(s))
    ensures Next(s, step).locked <==> SomeoneSends(Next(s, step))
  {
    hide AllRegistered, EchoesDiffer;
    var next := Next(s, step);
    if SomeoneSends(s) {
      var c: CallId :| c < |s.calls| && s.calls[c].place == Sending;
      assert next.calls[c].place == Sending || (step == Sent(c) || step == Abandon(c));
    }
    if step.Register? && next.locked {
      assert next.calls[step.call].place == Sending;
    }
  }

  /**
   * A call that gets the lock is sent on the active socket, under an echo no call had before,
   * exactly if there is one and it has not closed; else it fails and leaves nothing behind.
   */
  lemma SentIffConnected(states: seq<State>, steps: seq<Step>, n: nat)
    requires IsRun(states, steps) && n < |steps| && steps[n].Register?
    ensures var s, next, c := states[n], states[n + 1], steps[n].call;
            && c < |s.calls| == |next.calls|
            && if s.active.Some? && s.active.value !in s.closed then
                 && next.calls[c].place == Sending && next.calls[c].future == Pending && next.calls[c].conn == s.active
                 && next.calls[c].echo.Some? && next.calls[c].echo.value in next.pending
                 && next.pending[next.calls[c].echo.value] == c && next.locked
                 && forall other: CallId :: other < |s.calls| ==> s.calls[other].echo != next.calls[c].echo
               else
                 next.calls[c].place == Failed && next.pending == s.pending && !next.locked
  {
    var s, c := states[n], steps[n].call;
    RunKeepsInv(states, steps, n);
    assert Leads(s, steps[n], states[n + 1]);
    assert CallFits(s, c);
    QueuedIsPending(states, steps, n, c);
    forall other: CallId | other < |s.calls|
      ensures s.calls[other].echo != Some(s.nextEcho)
    {
      assert CallFits(s, other);
    }
  }

  /** A socket counts as closed exactly from its closing on. */
  lemma {:induction false} ClosedIffDropped(states: seq<State>, steps: seq<Step>, n: nat, conn: Conn)
    requires IsRun(states, steps) && n < |states|
    ensures conn in states[n].closed <==> exists i :: 0 <= i < n && steps[i] == Drop(conn)
  {
    if n > 0 {
      ClosedIffDropped(states, steps, n - 1, conn);
      assert Leads(states[n - 1], steps[n - 1], states[n]);
      assert conn in states[n].closed <==> conn in states[n - 1].closed || steps[n - 1] == Drop(conn);
    }
  }

  lemma {:induction false} QueuedIsPending(states: seq<State>, steps: seq<Step>, n: nat, c: CallId)
    requires IsRun(states, steps) && n < |states| && c < |states[n].calls| && states[n].calls[c].place == Queued
    ensures states[n].calls[c].future == Pending
  {
    if n > 0 {
      assert Leads(states[n - 1], steps[n - 1], states[n]);
      RunKeepsInv(states, steps, n - 1);
      if c < |states[n - 1].calls| {
        assert CallFits(states[n - 1], c);
        QueuedIsPending(states, steps, n - 1, c);
        NotRegistered(states[n - 1], c, steps[n - 1]);
      }
    }
  }

  /** A queued call has no entry yet that anybody could cancel or answer. */
  lemma NotRegistered(s: State, c: CallId, step: Step)
    requires Inv(s) && Enabled(s, step) && c < |s.calls| && s.calls[c].place == Queued && s.calls[c].future == Pending
    requires Next(s, step).calls[c].place == Queued
    ensures Next(s, step).calls[c].future == Pending
  {
    hide EchoesDiffer, LockFits;
    forall echo | echo in s.pending
      ensures s.pending[echo] != c
    {
      assert Registered(s, echo);
    }
    assert c !in s.pending.Values;
  }

  /** On an open socket with the lock free a new call is sent, and returns the very data of its reply. */
  lemma CallSucceeds(s: State, data: string)
    requires Inv(s) && !s.locked && s.active.Some? && s.active.value !in s.closed
    ensures var c := |s.calls|;
            var s1 := Next(s, Start);
            && Enabled(s1, Register(c)) && var s2 := Next(s1, Register(c));
            && s2.calls[c].echo.Some? && Enabled(s2, Sent(c)) && var s3 := Next(s2, Sent(c));
            && var s4 := Next(s3, Receive(Payload(s2.calls[c].echo.value, data)));
            && Enabled(s4, Wake(c)) && var s5 := Next(s4, Wake(c));
            && s5.calls[c].place.Returned? && s5.calls[c].place.payload.data == data
            && s5.calls[..c] == s.calls && s5.pending == s.pending && !s5.locked && s5.active == s.active
  {
    forall echo | echo in s.pending
      ensures echo < s.nextEcho
    {
      EchoIsOld(s, echo);
    }
    hide AllRegistered, AllFit, EchoesDiffer, LockFits;
    var c := |s.calls|;
    var s1 := Next(s, Start);
    var s2 := Next(s1, Register(c));
    var s3 := Next(s2, Sent(c));
    var s4 := Next(s3, Receive(Payload(s.nextEcho, data)));
    var s5 := Next(s4, Wake(c));
    assert s5.calls[..c] == s.calls;
    assert s5.pending == s.pending;
  }

  lemma EchoIsOld(s: State, echo: Echo)
    requires Inv(s) && echo in s.pending
    ensures echo < s.nextEcho
  {
    assert Registered(s, echo);
    assert CallFits(s, s.pending[echo]);
  }

  /** A new socket, the shutdown and the teardown of the active socket end every call still waiting. */
  lemma TeardownEndsWaiting(states: seq<State>, steps: seq<Step>, n: nat, c: CallId)
    requires IsRun(states, steps) && n < |steps| && c < |states[n].calls| && OnTheWire(states[n].calls[c])
    requires match steps[n]
             case Activate(_) => true
             case Shutdown => true
             case Deactivate(conn) => states[n].active == Some(conn)
             case _ => false
    ensures states[n + 1].pending == map[] && c < |states[n + 1].calls| && states[n + 1].calls[c].future != Pending
    ensures states[n + 1].active == if steps[n].Activate? then Some(steps[n].conn) else None
  {
    RunKeepsInv(states, steps, n);
    assert Leads(states[n], steps[n], states[n + 1]);
    assert CallFits(states[n], c);
    var s := states[n];
    if s.calls[c].future == Pending {
      assert s.pending[s.calls[c].echo.value] == c;
      assert c in s.pending.Values;
    }
  }
}
