# netSocketConnect, modelled in Dafny

`netSocketConnect(remoteport, remotehost, callback = null, connectTimeout = 5000)`
opens one outbound `net.Socket` and reports the outcome to `callback` at most once.
Three things can report it: the socket's "connect" event, its "error" event, and a
one-shot connect timer. The first one to run wins. The timer destroys the socket
when it wins. Before any of this, the port, coerced by `parseInt`, must lie in
1..65535. Otherwise the callback gets an `EPARAM` error right away, no socket is
made, and the function returns `undefined`.

The model is one module, `SocketConnect`, in `net_socket_connect.dfy`:

- `IsValidPort` is the port check. It is written with JavaScript's comparisons, under
  which NaN compares false. Its contract says it accepts exactly 1..65535.
- `ConnectAttempt` is the closure of one call. It holds the arguments, the socket
  (null on the invalid-port path), the `triggered` flag and a ghost log of callback
  invocations. It has one method per handler: `OnConnect`, `OnError` and `OnTimeout`.
  A ghost trace records the events the handlers have run for.
  `Socket` stands in for `net.Socket`. It records only the `connect` call it
  received and whether this code called `destroy()` on it.
- `NetSocketConnect` is the function body. It validates the port, reports `EPARAM`
  through `TriggerCallback`, or creates and connects the socket.
- Node's event loop runs each handler to completion, so any interleaving of the
  handlers is a sequence of events. `Step` gives the effect of one handler on the
  state (latch, log, destroyed). Each handler method is proved to have exactly that
  effect. `Run` folds `Step` over an event trace. The lemmas about `Run` state what
  holds for every trace. The callback runs at most once. It sees the outcome of the
  first event. Later events change nothing. `netSocketConnect` itself destroys the
  socket (line 76) exactly when the timer comes first.
- `ConnectAttempt` keeps the invariant that its state is `Run` of its trace. Each
  handler therefore also ensures, on the object itself, that the callback has run
  at most once and saw the first event's outcome. It also ensures the code's own
  `destroy()` happened exactly when the timer came first.

The code and its doc comment disagree. The doc comment at netSocketConnect.js:29
says a socket is returned "regardless of callback outcome". The invalid-port branch
(netSocketConnect.js:51) does a bare `return;`, so no socket is ever created on that
path. The model follows the code: `NetSocketConnect` then returns `null`, which
stands for `undefined`.

## Model

| member | source | states |
|---|---|---|
| SocketConnect.IsValidPort | netSocketConnect.js:9-11 | the port is accepted exactly when it is a number (not NaN) with 1 <= port <= 65535 |
| SocketConnect.ErrorArgument | netSocketConnect.js:61-63 | a truthy error object is passed on unchanged; a falsy one is replaced by "ERROR" |
| SocketConnect.TargetFor | netSocketConnect.js:66-70 | `connect` always gets the port, and also gets the host exactly when the host is truthy (present and not empty) |
| SocketConnect.Delivered | netSocketConnect.js:58-78 | the reference outcome of each event: (socket, null) on connect; (null, error) on error or timeout; the socket is non-null exactly when the error is null |
| SocketConnect.Step | netSocketConnect.js:33-78 | one handler run: it always leaves the latch set; on a settled latch it changes nothing; on a pending latch it appends the event's outcome to the log when there is a callback, and only for the timer does it call `destroy()` |
| SocketConnect.SettledIgnoresEvents | netSocketConnect.js:36-38 | once `triggered` is set, no further trace of events changes the latch, the log or the socket |
| SocketConnect.FirstEventWins | netSocketConnect.js:33-45 | from a pending state, a whole trace ends in the state its first event produced |
| SocketConnect.TriggeredIsPermanent | netSocketConnect.js:33-39 | after a trace, `triggered` is set exactly when it already was set or some event arrived; it is never reset |
| SocketConnect.CallbackAtMostOnce | netSocketConnect.js:32-45 | for every trace of connect/error/timer events, the callback is invoked at most once |
| SocketConnect.CallbackSeesFirstEvent | netSocketConnect.js:34-78 | the callback log is exactly the first event's outcome when there is a callback and an event, and empty otherwise (a null callback is never invoked) |
| SocketConnect.DestroyedIffTimerFirst | netSocketConnect.js:73-77 | netSocketConnect's own `destroy()` (line 76) happens exactly when the timer is the first event, with or without a callback |
| SocketConnect.LaterEventsIgnored | netSocketConnect.js:74 | appending any events to a non-empty trace leaves the final state unchanged (a late timer neither calls back nor destroys) |
| SocketConnect.ConnectAttempt.constructor | netSocketConnect.js:31-33 | a new call starts untriggered, with an empty log and no socket |
| SocketConnect.ConnectAttempt.TriggerCallback | netSocketConnect.js:34-45 | the latch is set afterwards; the first call appends (socket, error) to the log if a callback exists; later calls leave the log unchanged |
| SocketConnect.ConnectAttempt.OnConnect | netSocketConnect.js:58-60 | the connect handler changes the state exactly as `Step` does for a connect event; it keeps the state equal to `Run` of the trace, so the log holds at most one invocation, the first event's outcome |
| SocketConnect.ConnectAttempt.OnError | netSocketConnect.js:61-63 | the error handler changes the state exactly as `Step` does for an error event; it keeps the same invariant and first-event guarantee |
| SocketConnect.ConnectAttempt.OnTimeout | netSocketConnect.js:73-78 | the timer changes the state exactly as `Step` does for timer expiry, keeps the same invariant and first-event guarantee (including: destroyed exactly when the timer came first), and leaves the socket's connect target alone |
| SocketConnect.NetSocketConnect | netSocketConnect.js:31-81 | invalid port: no socket is made, the result is null (undefined), the latch is set, and the log holds one (null, EPARAM(host, port)) when there is a callback; valid port: a fresh, undestroyed socket is returned, connected to `TargetFor(port, host)`, with the latch pending, the log and trace empty, and the invariant established |
| SocketConnect.Socket.constructor | netSocketConnect.js:55 | a new socket is neither connected nor destroyed |
| SocketConnect.Socket.Connect | netSocketConnect.js:66-70 | the socket records the connect arguments and is not destroyed by connecting |
| SocketConnect.Socket.Destroy | netSocketConnect.js:76 | the socket is destroyed and its connect arguments are unchanged |

## Left out

- `parseInt`: the model takes the already coerced port, an integer or NaN. Prefix parsing, radix handling and fractional strings are not modelled. A digit string long enough to parse as Infinity is represented by a large integer, and it is rejected the same way.
- Error messages are tagged values (`EParam`, `ETimedOut`, `Transport`, `Unspecified` for "ERROR") carrying host, port and timeout. The template-literal text is not rendered. For example, a null host printed as "null" is not modelled.
- Hosts are strings or absent. Absent stands for null and undefined; the empty string is also falsy. Non-string hosts and non-function truthy callbacks are not modelled.
- `net.Socket` internals: TCP setup, DNS, OS errors and what `destroy()` releases. The socket is an opaque handle with a destroyed flag and the recorded `connect` arguments.
- `net.Socket` destroys itself before it emits "error". The `destroyed` flag records only this code's own `destroy()` call (line 76), so after an error-first trace the real socket is destroyed although the flag is false.
- Real time and `setTimeout`: timer expiry is an event in the trace. `connectTimeout` is only carried into the ETIMEDOUT error. Node's clamping of out-of-range delays is not modelled.
- A callback that throws is not modelled. The model assumes the callback returns. In the source, a throw inside the timer's callback would skip `destroy()`.
- `require("net")` and `module.exports` wiring (netSocketConnect.js:1, 83).
