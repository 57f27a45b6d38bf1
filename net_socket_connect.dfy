/**
  A model of `netSocketConnect`: open one outbound TCP socket to a remote
  port/host and report the outcome to a user callback at most once, whichever
  of "connect", "error" or the connect timer happens first.

  The model has three layers:
  - port validation, as a pure predicate over the number `parseInt` produced;
  - the per-call closure (the `triggered` latch, the callback, the socket) as
    the class `ConnectAttempt`, with one method per event handler;
  - a pure specification of the latch over an event trace (`Step`, `Run`)
    that every handler is proved to follow, and the lemmas that state, for
    every trace, what the callback sees and when this code destroys the socket.

  Node's event loop runs each handler to completion before the next one, so an
  interleaving of the three handlers is a sequence of events.
*/
module SocketConnect {

  datatype Option<T> = None | Some(value: T)

  // ---------------------------------------------------------------------------
  // Port validation
  // ---------------------------------------------------------------------------

  /** The result of `parseInt`: an integer, or NaN when nothing numeric was found. */
  datatype JsNumber = NaN | Num(n: int)

  /** JavaScript's `x > k`: every comparison with NaN is false. */
  predicate GreaterThan(x: JsNumber, k: int) {
    x.Num? && x.n > k
  }

  /** JavaScript's `x <= k`: every comparison with NaN is false. */
  predicate AtMost(x: JsNumber, k: int) {
    x.Num? && x.n <= k
  }

  /** `isValidPort`: written, as in the source, as two JavaScript comparisons;
      it accepts exactly the ports 1 to 65535 and never NaN. */
  function IsValidPort(port: JsNumber): (r: bool)
    ensures r <==> port.Num? && 1 <= port.n <= 65535
  {
    GreaterThan(port, 0) && AtMost(port, 65535)
  }

  // ---------------------------------------------------------------------------
  // Values passed to the callback
  // ---------------------------------------------------------------------------

  /** An error object emitted by the socket; its contents are opaque here. */
  datatype TransportError = TransportError(code: string)

  /** The second argument of the callback. `Unspecified` is the string "ERROR"
      that replaces a falsy error object. */
  datatype ConnError =
    | EParam(host: Option<string>, badPort: JsNumber)
    | ETimedOut(timeoutMs: int, host: Option<string>, port: int)
    | Transport(err: TransportError)
    | Unspecified

  /** One call `callback(socket, error)`; `null` and `None` stand for JavaScript's null. */
  datatype Invocation = Invocation(socket: Socket?, error: Option<ConnError>)

  /** What the error handler passes on for the emitted `err` (`None` is a falsy
      value): the error itself, or "ERROR" in its place. */
  function ErrorArgument(err: Option<TransportError>): (e: ConnError)
    ensures e.Transport? || e.Unspecified?
    ensures e.Unspecified? <==> err.None?
    ensures e.Transport? ==> e.err == err.value
  {
    if err.Some? then Transport(err.value) else Unspecified
  }

  // ---------------------------------------------------------------------------
  // The socket, an opaque handle
  // ---------------------------------------------------------------------------

  /** The arguments of `socket.connect`: with a host, or the port alone (local host). */
  datatype Target = HostAndPort(port: int, host: string) | PortOnly(port: int)

  /** A host argument is truthy when it is present and not the empty string. */
  predicate Truthy(host: Option<string>) {
    host.Some? && host.value != ""
  }

  /** The `connect` call the source makes: the host is passed exactly when it
      is truthy, and the port always. */
  function TargetFor(port: int, host: Option<string>): (t: Target)
    ensures t.port == port
    ensures t.PortOnly? <==> host.None? || host.value == ""
    ensures t.HostAndPort? ==> Some(t.host) == host
  {
    if Truthy(host) then HostAndPort(port, host.value) else PortOnly(port)
  }

  /** `net.Socket`, reduced to what this code observes: the connect call it
      received and whether this code called `destroy()` on it. A socket that
      `net.Socket` tears down by itself (before it emits "error") is not
      recorded here. */
  class Socket {
    var destroyed: bool
    var target: Option<Target>

    constructor ()
      ensures !destroyed && target == None
    {
      destroyed := false;
      target := None;
    }

    /** Starts the asynchronous connection attempt. */
    method Connect(t: Target)
      modifies this
      ensures target == Some(t) && destroyed == old(destroyed)
    {
      target := Some(t);
    }

    method Destroy()
      modifies this
      ensures destroyed && target == old(target)
    {
      destroyed := true;
    }
  }

  // ---------------------------------------------------------------------------
  // The latch as a function of the event trace
  // ---------------------------------------------------------------------------

  /** The events the source registers handlers for. `ErrorEvent(None)` is an
      error event whose argument is falsy. */
  datatype Event = ConnectEvent | ErrorEvent(err: Option<TransportError>) | TimerExpired

  /** What one attempt fixed at call time: whether a callback was given, the
      socket, the host, the parsed port and the timeout. */
  datatype Ctx = Ctx(hasCallback: bool, socket: Socket, host: Option<string>, port: int, timeoutMs: int)

  /** The observable state of one attempt: the latch, the callback invocations
      so far, and whether this code destroyed the socket. */
  datatype LatchState = LatchState(triggered: bool, log: seq<Invocation>, destroyed: bool)

  function Initial(): LatchState {
    LatchState(false, [], false)
  }

  /** The reference outcome of each event, as the callback should receive it:
      the socket and no error on connect, no socket and an error otherwise. */
  function Delivered(ctx: Ctx, ev: Event): (inv: Invocation)
    ensures (inv.socket != null) <==> ev.ConnectEvent?
    ensures inv.error.None? <==> ev.ConnectEvent?
    ensures inv.socket != null ==> inv.socket == ctx.socket
  {
    match ev
    case ConnectEvent => Invocation(ctx.socket, None)
    case ErrorEvent(err) => Invocation(null, Some(ErrorArgument(err)))
    case TimerExpired => Invocation(null, Some(ETimedOut(ctx.timeoutMs, ctx.host, ctx.port)))
  }

  /** `triggerCallback(socket, error)` on the state, with `inv` the call
      `callback(socket, error)`: nothing once triggered; otherwise set the latch
      and call the callback if there is one. */
  function Fire(ctx: Ctx, st: LatchState, inv: Invocation): LatchState {
    if st.triggered then st
    else st.(triggered := true, log := st.log + if ctx.hasCallback then [inv] else [])
  }

  /** One handler run, as the source writes each handler: `triggerCallback`
      with the event's outcome, and for the timer only when nothing has
      triggered yet, followed by `destroy()`. Its contract gives the closed
      form: a settled latch ignores every event; a pending one settles with the
      outcome of this event, and only the timer calls `destroy()`. */
  function Step(ctx: Ctx, st: LatchState, ev: Event): (r: LatchState)
    ensures r.triggered
    ensures st.triggered ==> r == st
    ensures !st.triggered ==>
      r == LatchState(true,
                      st.log + (if ctx.hasCallback then [Delivered(ctx, ev)] else []),
                      st.destroyed || ev.TimerExpired?)
  {
    match ev
    case ConnectEvent => Fire(ctx, st, Delivered(ctx, ev))
    case ErrorEvent(_) => Fire(ctx, st, Delivered(ctx, ev))
    case TimerExpired =>
      if !st.triggered then Fire(ctx, st, Delivered(ctx, ev)).(destroyed := true) else st
  }

  /** The state after the handlers have run for `evs`, in order. */
  function Run(ctx: Ctx, st: LatchState, evs: seq<Event>): LatchState
    decreases |evs|
  {
    if evs == [] then st else Run(ctx, Step(ctx, st, evs[0]), evs[1..])
  }

  // ---------------------------------------------------------------------------
  // Properties of every event trace
  // ---------------------------------------------------------------------------

  /** Once triggered, no event changes anything: not the latch, not the
      callback log, not the socket. */
  lemma {:induction false} SettledIgnoresEvents(ctx: Ctx, st: LatchState, evs: seq<Event>)
    requires st.triggered
    ensures Run(ctx, st, evs) == st
    decreases |evs|
  {
    if evs != [] {
      SettledIgnoresEvents(ctx, Step(ctx, st, evs[0]), evs[1..]);
    }
  }

  /** Running two traces one after the other is running their concatenation. */
  lemma {:induction false} RunAppend(ctx: Ctx, st: LatchState, a: seq<Event>, b: seq<Event>)
    ensures Run(ctx, st, a + b) == Run(ctx, Run(ctx, st, a), b)
    decreases |a|
  {
    if a == [] {
      assert a + b == b;
    } else {
      assert (a + b)[0] == a[0];
      assert (a + b)[1..] == a[1..] + b;
      RunAppend(ctx, Step(ctx, st, a[0]), a[1..], b);
    }
  }

  /** First event wins: from a pending latch, a trace ends exactly where its
      first event left it. */
  lemma FirstEventWins(ctx: Ctx, st: LatchState, evs: seq<Event>)
    requires !st.triggered && evs != []
    ensures Run(ctx, st, evs) == Step(ctx, st, evs[0])
  {
    SettledIgnoresEvents(ctx, Step(ctx, st, evs[0]), evs[1..]);
  }

  /** The latch is set exactly when some event has arrived, and stays set. */
  lemma TriggeredIsPermanent(ctx: Ctx, st: LatchState, evs: seq<Event>)
    ensures Run(ctx, st, evs).triggered <==> st.triggered || evs != []
  {
    if st.triggered {
      SettledIgnoresEvents(ctx, st, evs);
    } else if evs != [] {
      FirstEventWins(ctx, st, evs);
    }
  }

  /** Whatever the trace, the callback runs at most once. */
  lemma CallbackAtMostOnce(ctx: Ctx, evs: seq<Event>)
    ensures |Run(ctx, Initial(), evs).log| <= 1
  {
    if evs != [] {
      FirstEventWins(ctx, Initial(), evs);
    }
  }

  /** The callback receives the outcome of the first event, once, if there is
      a callback and an event at all; with no callback nothing is invoked. */
  lemma CallbackSeesFirstEvent(ctx: Ctx, evs: seq<Event>)
    ensures Run(ctx, Initial(), evs).log ==
            if ctx.hasCallback && evs != [] then [Delivered(ctx, evs[0])] else []
  {
    if evs != [] {
      FirstEventWins(ctx, Initial(), evs);
    }
  }

  /** This code destroys the socket exactly when the timer is the first event,
      whether or not a callback was given. */
  lemma DestroyedIffTimerFirst(ctx: Ctx, evs: seq<Event>)
    ensures Run(ctx, Initial(), evs).destroyed <==> evs != [] && evs[0].TimerExpired?
  {
    if evs != [] {
      FirstEventWins(ctx, Initial(), evs);
    }
  }

  /** Events after the first change nothing. */
  lemma LaterEventsIgnored(ctx: Ctx, evs: seq<Event>, later: seq<Event>)
    requires evs != []
    ensures Run(ctx, Initial(), evs + later) == Run(ctx, Initial(), evs)
  {
    RunAppend(ctx, Initial(), evs, later);
    TriggeredIsPermanent(ctx, Initial(), evs);
    SettledIgnoresEvents(ctx, Run(ctx, Initial(), evs), later);
  }

  // ---------------------------------------------------------------------------
  // The closure of one call, and its event handlers
  // ---------------------------------------------------------------------------

  /** The state `netSocketConnect` keeps for one call: its arguments, the
      socket it made (null on the invalid-port path), the `triggered` flag, the
      ghost record of every callback invocation, and the ghost trace of the
      events its handlers have run for. */
  class ConnectAttempt {
    const hasCallback: bool
    const host: Option<string>
    const timeoutMs: int
    var port: JsNumber
    var socket: Socket?
    var triggered: bool
    ghost var log: seq<Invocation>
    ghost var trace: seq<Event>

    /** Handlers are registered and the timer scheduled only on the valid-port path. */
    ghost predicate Armed()
      reads this
    {
      socket != null && IsValidPort(port)
    }

    ghost function Context(): Ctx
      reads this
      requires Armed()
    {
      Ctx(hasCallback, socket, host, port.n, timeoutMs)
    }

    ghost function State(): LatchState
      reads this, socket
      requires socket != null
    {
      LatchState(triggered, log, socket.destroyed)
    }

    /** The object invariant of an armed attempt: its state is the one `Run`
        gives for the events delivered so far. */
    ghost predicate Valid()
      reads this, socket
    {
      Armed() && State() == Run(Context(), Initial(), trace)
    }

    /** What the callback and the socket have seen is decided by the first
        delivered event alone, and the callback has run at most once. */
    ghost predicate FirstEventDecided()
      reads this, socket
      requires Armed()
    {
      && |log| <= 1
      && log == (if hasCallback && trace != [] then [Delivered(Context(), trace[0])] else [])
      && (socket.destroyed <==> trace != [] && trace[0].TimerExpired?)
    }

    constructor (hasCallback: bool, host: Option<string>, port: JsNumber, timeoutMs: int)
      ensures this.hasCallback == hasCallback && this.host == host
      ensures this.port == port && this.timeoutMs == timeoutMs
      ensures socket == null && !triggered && log == [] && trace == []
    {
      this.hasCallback := hasCallback;
      this.host := host;
      this.port := port;
      this.timeoutMs := timeoutMs;
      socket := null;
      triggered := false;
      log := [];
      trace := [];
    }

    /** `triggerCallback`: the first call sets the latch and invokes the
        callback, if any; every later call does nothing. */
    method TriggerCallback(sock: Socket?, error: Option<ConnError>)
      modifies this`triggered, this`log
      ensures triggered
      ensures old(triggered) ==> log == old(log)
      ensures !old(triggered) ==>
        log == old(log) + if hasCallback then [Invocation(sock, error)] else []
    {
      if triggered {
        return;
      }
      triggered := true;
      if hasCallback {
        log := log + [Invocation(sock, error)];
      }
    }

    /** Appends `ev` to the trace once its handler has run, and re-establishes
        the invariant from the handler's single `Step`. */
    ghost method Record(ev: Event, before: LatchState)
      requires Armed()
      requires before == Run(Context(), Initial(), trace)
      requires State() == Step(Context(), before, ev)
      modifies this`trace
      ensures Valid() && FirstEventDecided()
      ensures trace == old(trace) + [ev]
    {
      RunAppend(Context(), Initial(), trace, [ev]);
      trace := trace + [ev];
      CallbackSeesFirstEvent(Context(), trace);
      CallbackAtMostOnce(Context(), trace);
      DestroyedIffTimerFirst(Context(), trace);
    }

    /** The "connect" handler: `triggerCallback(remotesocket, null)`. */
    method OnConnect()
      requires Valid()
      modifies this`triggered, this`log, this`trace
      ensures State() == Step(Context(), old(State()), ConnectEvent)
      ensures Valid() && FirstEventDecided()
      ensures trace == old(trace) + [ConnectEvent]
    {
      ghost var before := State();
      TriggerCallback(socket, None);
      Record(ConnectEvent, before);
    }

    /** The "error" handler: `triggerCallback(null, err || "ERROR")`. */
    method OnError(err: Option<TransportError>)
      requires Valid()
      modifies this`triggered, this`log, this`trace
      ensures State() == Step(Context(), old(State()), ErrorEvent(err))
      ensures Valid() && FirstEventDecided()
      ensures trace == old(trace) + [ErrorEvent(err)]
    {
      ghost var before := State();
      TriggerCallback(null, Some(ErrorArgument(err)));
      Record(ErrorEvent(err), before);
    }

    /** The timer: if nothing has triggered yet, report ETIMEDOUT and destroy
        the socket; otherwise do nothing. */
    method OnTimeout()
      requires Valid()
      modifies this`triggered, this`log, this`trace, socket
      ensures State() == Step(Context(), old(State()), TimerExpired)
      ensures Valid() && FirstEventDecided()
      ensures trace == old(trace) + [TimerExpired]
      ensures socket.target == old(socket.target)
    {
      ghost var before := State();
      if !triggered {
        TriggerCallback(null, Some(ETimedOut(timeoutMs, host, port.n)));
        socket.Destroy();
      }
      Record(TimerExpired, before);
    }
  }

  /** `netSocketConnect(remoteport, remotehost, callback = null, connectTimeout = 5000)`,
      with `remotePort` already coerced by `parseInt` and `hasCallback` standing
      for a truthy callback. The result is the returned socket; null stands for
      the `undefined` of the invalid-port path. The attempt is the call's
      closure, through which the later events arrive. */
  method NetSocketConnect(remotePort: JsNumber, remoteHost: Option<string>,
                          hasCallback: bool := false, connectTimeout: int := 5000)
    returns (attempt: ConnectAttempt, result: Socket?)
    ensures fresh(attempt) && result == attempt.socket
    ensures attempt.hasCallback == hasCallback && attempt.host == remoteHost
    ensures attempt.timeoutMs == connectTimeout && attempt.port == remotePort
    ensures !IsValidPort(remotePort) ==>
      && result == null
      && attempt.triggered
      && attempt.log == if hasCallback then [Invocation(null, Some(EParam(remoteHost, remotePort)))] else []
    ensures IsValidPort(remotePort) ==>
      && result != null && fresh(result)
      && attempt.Valid()
      && attempt.trace == []
      && attempt.State() == Initial()
      && attempt.Context() == Ctx(hasCallback, result, remoteHost, remotePort.n, connectTimeout)
      && result.target == Some(TargetFor(remotePort.n, remoteHost))
  {
    attempt := new ConnectAttempt(hasCallback, remoteHost, remotePort, connectTimeout);
    if !IsValidPort(remotePort) {
      attempt.TriggerCallback(null, Some(EParam(remoteHost, remotePort)));
      result := null;
      return;
    }
    var s := new Socket();
    attempt.socket := s;
    if Truthy(remoteHost) {
      s.Connect(HostAndPort(remotePort.n, remoteHost.value));
    } else {
      s.Connect(PortOnly(remotePort.n));
    }
    result := s;
  }
}
