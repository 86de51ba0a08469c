# Pairing server session state machine, in Dafny

This project models the WebSocket pairing server of TempChat (`server.js`). A
"pc" connection registers and receives a six-digit code together with a QR image
of `connect:<code>`. A "mobile" connection joins with that code. The server then
relays `message` frames between the two. It tears the pairing down on `logout`
after a 400 ms grace timer, or at once when either socket closes. A 15-second
sweep terminates sockets that stopped answering transport pings.

Every handler is a pure function from the state before an event to the state
after it, plus the actions it emits in order:

- sends
- closes
- terminations
- probes
- arming the logout timer

The state (`Registry.World`) has three parts:

- the accepted connections, each with `role`, `code`, `readyState` and `isAlive`
- the session objects `{pc, mobile}`, which have identity
- the `sessions` registry, which maps a code to a session object

Session objects need identity because the logout timer keeps the object it
captured. The timer also reads `ws.code` only when it fires.

Modules, leaves first:

- `Wrappers`: the option type.
- `Codes`: code generation, decimal rendering and its inverse.
- `Payload`: JSON field values and JavaScript truthiness.
- `Protocol`: the inbound frames, the outbound frames and the actions.
- `Registry`: the state, its invariant `Valid`, lookup, delete and close.
- `Handlers`: one function per handler.
- `Liveness`: the sweep.
- `Server`: the event type, `Step`, and properties over runs.

Inputs from outside the program are parameters:

- The random draw is `Math.floor(100000 + Math.random() * 900000) - 100000`. It lies in [0, 900000) and comes with each inbound frame.
- The QR encoder is an arbitrary function `encode: string -> string`.
- The two timers are the events `TeardownDue` and `SweepDue`.
- The transport's `close` and `pong` events are the events `Disconnect` and `PongFrom`.

`close()` and `terminate()` move an OPEN socket to CLOSING at once, as the `ws`
library does. The socket's later `close` event marks it CLOSED and runs the close
handler. `wss.clients` is the set of sockets whose `close` event has not fired,
taken in acceptance order.

server.js guards none of the following, and the model keeps that behaviour:

- `register-pc` makes no collision check. An existing code is overwritten (`Handlers.RegisterPcOverwrites`).
- `register-pc` and `register-mobile` are accepted from any state, bound or not. An earlier binding is not cleared (`Handlers.RegisterPcKeepsOldBinding`).
- The logout timer deletes the registry entry under the initiator's code as it reads when the timer fires (`Handlers.TeardownAfterReRegister`).

## Model

| member | source | states |
|---|---|---|
| Codes.GenerateCode | server.js:23-25 | every draw in [0, 900000) gives a six-digit code with no leading zero whose value is 100000 + draw |
| Codes.GenerateCodeBijective | server.js:23-25 | each six-digit code comes from exactly one draw, so generation reaches every code and only codes |
| Codes.DecimalRoundTrip | server.js:24 | parsing the `toString()` rendering of a number gives the number back |
| Codes.ParseRoundTrip | server.js:24 | rendering a parsed numeral without a leading zero gives the numeral back |
| Payload.OrNull | server.js:103-105 | a relayed field is either the sender's truthy value, unchanged, or null; absent or falsy fields become null |
| Registry.Lookup | server.js:94 | `sessions[code]` finds an object exactly when the code is registered; the object exists and always has a pc, which the handlers' lookups at lines 71, 94, 114 and 144 rely on |
| Registry.Delete | server.js:133 | `delete sessions[code]` removes only that key, and deleting an absent code changes nothing |
| Registry.DeleteIdempotent | server.js:154 | deleting the same code twice is the same as deleting it once |
| Registry.MarkClosing | server.js:128 | closing a socket takes it out of the OPEN state and changes no other connection or session |
| Handlers.OnConnect | server.js:28-31 | a new connection is fresh, open, alive and unbound, and nothing else changes |
| Handlers.OnPong | server.js:33-35 | a pong marks only that connection alive and emits nothing |
| Handlers.OnRegisterPc | server.js:52-64 | a new session object with the caller as pc and an empty mobile slot goes under the generated code; the caller becomes pc of that code; one `registered` reply carries the code and the encoding of `connect:<code>`; other codes and objects are untouched |
| Handlers.RegisterPcOverwrites | server.js:53-54 | when the generated code is in use, the object that held it is no longer reachable under any code |
| Handlers.RegisterPcKeepsOldBinding | server.js:56-57 | a bound connection that registers as pc again stays in the slot of its earlier session, which stays registered |
| Handlers.OnRegisterMobile | server.js:68-90 | when the code's session has a pc and no mobile, the caller fills the mobile slot and becomes its mobile; the pc gets `peer-connected` and the caller gets `connected`; otherwise there is one `error` reply and the state is unchanged |
| Handlers.RegisterMobileOutcome | server.js:71-87 | the caller is told `connected` exactly once if and only if the join condition held; the pc is told `peer-connected` exactly once; a refused join changes nothing and sends one error to the caller |
| Handlers.OnMessage | server.js:93-110 | a message goes, at most once, only to the open occupant of the other role's slot of the sender's registered session, with `from` set to the sender's role; it always goes there when that occupant exists; the state never changes |
| Handlers.RelayIsBidirectional | server.js:97-106 | between a pc and its joined mobile, a message from either side reaches the other exactly when the other is open |
| Handlers.OnLogout | server.js:113-135 | only open slot occupants other than the initiator are told `logout`, all of them are, exactly one teardown timer is armed on the session object after every notice, and nothing changes yet |
| Handlers.LogoutNotifiesPartnerOnce | server.js:119-123 | in a pairing of two connections, the other side gets exactly one `logout` when open, and the initiator none |
| Handlers.OnTeardownDue | server.js:126-135 | the timer closes exactly the still-open occupants of the captured object, each keeping its record with readyState CLOSING, and deletes the initiator's current code; session objects are kept and no other connection changes |
| Handlers.CloseOccupants | server.js:127-131 | both slots of a session object are closed when open, and only those: each open occupant keeps its record with readyState CLOSING, every other connection is unchanged |
| Handlers.LogoutThenOwnTimer | server.js:113-135 | a logout followed by the timer it arms removes the initiator's code, leaves no occupant open, and closes everyone who was told `logout` |
| Handlers.TeardownOfDeletedCode | server.js:133 | when the code is already gone, the timer leaves the registry unchanged |
| Handlers.TeardownAfterReRegister | server.js:126-135 | a logout followed by a new `register-pc` before the timer fires deletes the new code and keeps the old one |
| Handlers.OnDisconnect | server.js:143-158 | the closing socket becomes CLOSED; if it was bound to a registered code, the other-role occupant, when open, gets one `logout` then a close and keeps its record with readyState CLOSING, a peer that is not open is left as it was, and the code is deleted; otherwise nothing else happens |
| Handlers.JoinAfterTeardownFails | server.js:126-135 | after the logout timer has fired, joining under the deleted code is refused |
| Handlers.JoinAfterDisconnectFails | server.js:143-158 | after a bound connection closes, joining under its code is refused |
| Liveness.Sweep | server.js:163-173 | every client that has not answered is terminated; every other client is marked not-alive and probed; each client gets exactly one of the two, in acceptance order; closed sockets are untouched |
| Liveness.RunSweep | server.js:164-172 | the client-by-client loop computes the same state and actions as the sweep |
| Liveness.SweepActionsOrdered | server.js:164-172 | the sweep's actions are terminations or probes whose targets strictly increase in acceptance order, so no connection is acted on twice |
| Liveness.SweepActionsMembers | server.js:164-172 | the sweep's action list terminates exactly the silent clients and probes exactly the answering ones |
| Server.OnFrame | server.js:37-140 | dispatching one parsed frame keeps the state invariant, never changes any connection's `isAlive`, keeps every session's pc and filled mobile slot, and forgets no connection |
| Server.FrameTriage | server.js:37-49 | `ping` gets one `pong` in any state; malformed frames, unknown types, and `message` or `logout` from a connection without a registered session change nothing and get no reply |
| Server.Step | server.js:28-173 | every handler keeps the state invariant; session objects keep their pc; a filled mobile slot never changes; connections are never forgotten; closed sockets stay closed |
| Server.RegistryChangesOnlyByPairing | server.js:52-157 | only `register-pc` adds codes; only the logout timer and a close remove them; relay, ping, pong, sweep and connect leave registry and sessions unchanged |
| Server.AliveOnlyByPong | server.js:31-35 | no event except the connection's own pong marks it alive again |
| Server.StaysSilent | server.js:33-35 | a not-alive connection stays not-alive through any run of events without its pong |
| Server.SilentClientTerminated | server.js:163-173 | a client that sends no pong is terminated by the sweep after next at the latest, whatever happens between |
| Server.AnsweredClientSpared | server.js:165-171 | a client that answered is probed again, not terminated |
| Server.PairingSetup | server.js:28-90 | three sockets connect; the first registers as pc and is told code 482913 with its QR text; the second joins and both sides are told; each state follows from the previous one |
| Server.PairingSession | server.js:93-157 | in that pairing, a `hi` from the pc reaches the mobile with null file fields, a second mobile is refused with the `InvalidCodeText` error, and when the mobile closes the pc gets `logout` then a close and the code is deleted |

## Left out

- Static file serving, the `/` route and the HTTP listener on `PORT` (server.js:13-18, 176-182) are I/O plumbing.
- `console.log` calls have no effect on the state.
- QR encoding is the caller-supplied function `encode`. A rejected `QRCode.toDataURL` promise is not modelled.
- `await` in `register-pc` is not modelled as a suspension. The session and the caller's fields change before the await and the reply is sent after it. The model does both in one step, so events of other connections cannot interleave in between.
- The floating-point draw is replaced by the integer `draw` above. Floating-point rounding cannot push `100000 + Math.random() * 900000` up to 1000000, so the range [0, 900000) is exact.
- JSON parsing is taken as done. A frame arrives already classified by its `type`.
- `register-mobile`'s `code` is modelled as the property key the payload's value coerces to. Keys inherited from `Object.prototype` name objects without a `pc`, so they behave like absent codes.
- A frame that parses to `null` makes `data.type` throw inside the async listener. The effect is an unhandled promise rejection, which depends on the Node.js version. The model treats such a frame as `Malformed`.
- The transport is reduced to the readyState of each socket and the emitted actions. Delivery, the closing handshake and its timing are not modelled. `send` on a socket that is not open is emitted like any other send.
- Timer durations (400 ms, 15 s) are not modelled. Only the order of events matters.
- Armed timers are not recorded in the state. A run may deliver `TeardownDue` for any existing session object, including one for which no `ScheduleTeardown` was emitted. Every property above holds for such runs too. `Handlers.LogoutThenOwnTimer` covers the timer a logout actually arms.
