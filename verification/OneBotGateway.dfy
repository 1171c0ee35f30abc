/**
 * gateways/onebot_ws.py: calls sent over the one active socket and matched to their replies by an
 * echo, while sockets are superseded, torn down and closed.
 *
 * Calls, sockets and echoes are numbered; an echo is fresh for every call, as a random one is.
 */
module OneBotGateway {
  import opened Common

  type Conn = nat
  type Echo = nat
  type CallId = nat

  datatype Payload = Payload(echo: Echo, data: string)

  datatype Future = Pending | Result(payload: Payload) | Cancelled

  datatype Place =
    | Queued    // waiting for the gateway's lock
    | Sending   // inside `send_str`, holding the lock
    | Awaiting  // at `wait_for`
    | Returned(payload: Payload)
    | Failed

  /** Echo and socket are set when the call registers. */
  datatype Call = Call(place: Place, future: Future, echo: Option<Echo>, conn: Option<Conn>)

  datatype State = State(active: Option<Conn>, closed: set<Conn>, pending: map<Echo, CallId>, calls: seq<Call>,
                         locked: bool, nextEcho: Echo)

  const INITIAL := State(None, {}, map[], [], false, 0)

  datatype Step =
    | Activate(conn: Conn)
    | Deactivate(conn: Conn)
    | Shutdown
    | Drop(conn: Conn)           // a socket closes
    | Start                      // a new call
    | Register(call: CallId)     // it gets the lock
    | Sent(call: CallId)         // `send_str` returns
    | Receive(payload: Payload)  // a reply arrives, on whichever socket
    | Wake(call: CallId)         // its future is done
    | Abandon(call: CallId)      // timeout, cancellation, or `send_str` raised

  function CancelledFuture(call: Call): Call {
    if call.future == Pending then call.(future := Cancelled) else call
  }

  function CancelAll(calls: seq<Call>, who: set<CallId>): (r: seq<Call>)
    ensures |r| == |calls|
    ensures forall i :: 0 <= i < |calls| ==> r[i] == if i in who then CancelledFuture(calls[i]) else calls[i]
  {
    seq(|calls|, i requires 0 <= i < |calls| => if i in who then CancelledFuture(calls[i]) else calls[i])
  }

  /** `_cancel_pending` */
  function PendingCancelled(s: State): State {
    s.(calls := CancelAll(s.calls, s.pending.Values), pending := map[])
  }

  function AfterDeactivate(s: State, conn: Conn): State {
    if s.active == Some(conn) then PendingCancelled(s.(active := None)) else s
  }

  function AfterRegister(s: State, c: CallId): State
    requires c < |s.calls|
  {
    if s.active.None? || s.active.value in s.closed then
      s.(calls := s.calls[c := CancelledFuture(s.calls[c]).(place := Failed)])
    else
      s.(calls := s.calls[c := s.calls[c].(place := Sending, echo := Some(s.nextEcho), conn := s.active)],
         pending := s.pending[s.nextEcho := c], nextEcho := s.nextEcho + 1, locked := true)
  }

  function AfterReceive(s: State, payload: Payload): State {
    if payload.echo in s.pending && s.pending[payload.echo] < |s.calls|
      && s.calls[s.pending[payload.echo]].future == Pending then
      var c := s.pending[payload.echo];
      s.(calls := s.calls[c := s.calls[c].(future := Result(payload))])
    else s
  }

  /** The `finally` of `_send_action`. */
  function AfterEnd(s: State, c: CallId, place: Place): State
    requires c < |s.calls|
  {
    var call := s.calls[c];
    s.(calls := s.calls[c := CancelledFuture(call).(place := place)],
       pending := if call.echo.Some? then s.pending - {call.echo.value} else s.pending,
       locked := s.locked && call.place != Sending)
  }

  predicate Enabled(s: State, step: Step) {
    match step
    case Activate(_) => !s.locked
    case Deactivate(_) => !s.locked
    case Shutdown => !s.locked
    case Drop(_) => true
    case Start => true
    case Register(c) => !s.locked && c < |s.calls| && s.calls[c].place == Queued
    case Sent(c) => c < |s.calls| && s.calls[c].place == Sending
    case Receive(_) => true
    case Wake(c) => c < |s.calls| && s.calls[c].place == Awaiting && s.calls[c].future != Pending
    case Abandon(c) =>
      c < |s.calls| && (s.calls[c].place == Queued || s.calls[c].place == Sending || s.calls[c].place == Awaiting)
  }

  function Next(s: State, step: Step): State
    requires Enabled(s, step)
  {
    match step
    case Activate(conn) => PendingCancelled(s.(active := Some(conn)))
    case Deactivate(conn) => AfterDeactivate(s, conn)
    case Shutdown => PendingCancelled(s.(active := None))
    case Drop(conn) => s.(closed := s.closed + {conn})
    case Start => s.(calls := s.calls + [Call(Queued, Pending, None, None)])
    case Register(c) => AfterRegister(s, c)
    case Sent(c) => s.(calls := s.calls[c := s.calls[c].(place := Awaiting)], locked := false)
    case Receive(payload) => AfterReceive(s, payload)
    case Wake(c) =>
      AfterEnd(s, c, match s.calls[c].future case Result(p) => Returned(p) case _ => Failed)
    case Abandon(c) => AfterEnd(s, c, Failed)
  }

  /** The gateway, with the calls and sockets around it; each method is one atomic step. */
  class Gateway {
    var activeWs: Option<Conn>
    var closed: set<Conn>
    var pendingEchos: map<Echo, CallId>
    var calls: seq<Call>
    var locked: bool
    var nextEcho: Echo

    ghost function View(): State
      reads this
    {
      State(activeWs, closed, pendingEchos, calls, locked, nextEcho)
    }

    constructor ()
      ensures View() == INITIAL
    {
      activeWs, closed, pendingEchos, calls, locked, nextEcho := None, {}, map[], [], false, 0;
    }

    method Activate(ws: Conn)
      requires Enabled(View(), Step.Activate(ws))
      modifies this
      ensures View() == Next(old(View()), Step.Activate(ws))
    {
      activeWs := Some(ws);
      CancelPending();
    }

    method Deactivate(ws: Conn)
      requires Enabled(View(), Step.Deactivate(ws))
      modifies this
      ensures View() == Next(old(View()), Step.Deactivate(ws))
    {
      if activeWs == Some(ws) {
        activeWs := None;
        CancelPending();
      }
    }

    method Close()
      requires Enabled(View(), Shutdown)
      modifies this
      ensures View() == Next(old(View()), Shutdown)
    {
      activeWs := None;
      CancelPending();
    }

    method CancelPending()
      modifies this
      ensures View() == PendingCancelled(old(View()))
    {
      var pending := pendingEchos.Values;
      pendingEchos := map[];
      var left := pending;
      while left != {}
        invariant left <= pending && |calls| == |old(calls)|
        invariant calls == CancelAll(old(calls), pending - left)
        invariant View() == old(View()).(pending := map[], calls := calls)
        decreases left
      {
        var c :| c in left;
        left := left - {c};
        if c < |calls| && calls[c].future == Pending {
          calls := calls[c := calls[c].(future := Cancelled)];
        }
      }
      assert pending - left == pending;
    }

    method Register(c: CallId) returns (echo: Option<Echo>)
      requires Enabled(View(), Step.Register(c))
      modifies this
      ensures View() == Next(old(View()), Step.Register(c))
      ensures echo == if locked then Some(old(nextEcho)) else None
    {
      if activeWs.None? || activeWs.value in closed {
        calls := calls[c := CancelledFuture(calls[c]).(place := Failed)];
        return None;
      }
      locked, echo, nextEcho := true, Some(nextEcho), nextEcho + 1;
      pendingEchos := pendingEchos[echo.value := c];
      calls := calls[c := calls[c].(place := Sending, echo := echo, conn := activeWs)];
    }

    /** The echo branch of `handle`. */
    method Receive(payload: Payload)
      modifies this
      ensures View() == AfterReceive(old(View()), payload)
    {
      if payload.echo in pendingEchos {
        var c := pendingEchos[payload.echo];
        if c < |calls| && calls[c].future == Pending {
          calls := calls[c := calls[c].(future := Result(payload))];
        }
      }
    }

    method End(c: CallId, place: Place)
      requires c < |calls|
      modifies this
      ensures View() == AfterEnd(old(View()), c, place)
    {
      if calls[c].place == Sending {
        locked := false;
      }
      if calls[c].echo.Some? {
        pendingEchos := pendingEchos - {calls[c].echo.value};
      }
      if calls[c].future == Pending {
        calls := calls[c := calls[c].(future := Cancelled)];
      }
      calls := calls[c := calls[c].(place := place)];
    }
  }
}
