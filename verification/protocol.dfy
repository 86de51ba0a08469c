/**
  The wire vocabulary of the pairing server: inbound requests after JSON
  parsing, outbound replies, and the transport actions a handler emits.
 */
module Protocol {
  import opened Wrappers
  import opened Payload
  import opened Codes

  /** A WebSocket connection, identified by the order in which it was accepted. */
  type ConnId = nat

  /** The identity of a `{pc, mobile}` session object. */
  type SessionRef = nat

  /** `ws.role`: undefined until the connection registers. */
  datatype Role = Unbound | Pc | Mobile

  /**
    An inbound frame after `JSON.parse`. `Malformed` is a frame that does not
    parse; `Unrecognised` is any `type` the server does not test for. The
    `code` of `register-mobile` is the property key the payload's code names.
   */
  datatype Inbound =
    | Malformed
    | PingRequest
    | RegisterPc
    | RegisterMobile(code: string)
    | Message(content: Option<Json>, file: Option<Json>, filename: Option<Json>)
    | Logout
    | Unrecognised

  /** An outbound JSON frame, by its `type`. */
  datatype Reply =
    | Pong
    | Registered(code: Code, qr: string)
    | PeerConnected
    | Connected
    | Error(message: string)
    | Relayed(from: Role, content: Json, file: Json, filename: Json)
    | LogoutNotice

  /** What a handler asks of the transport and the timer service. */
  datatype Action =
    | Send(to: ConnId, msg: Reply)
    | Close(target: ConnId)
    | Terminate(target: ConnId)
    | Probe(target: ConnId)
    | ScheduleTeardown(session: SessionRef, initiator: ConnId)

  const InvalidCodeText: string := "Código inválido o ya está en uso en otra sesión."

  /** The text the QR image encodes for a code. */
  function QrText(code: Code): (t: string)
    ensures |t| == 8 + |code| && t[8..] == code
  {
    "connect:" + code
  }

  /** How many times `msg` is sent to `to` in `out`. */
  function Deliveries(out: seq<Action>, to: ConnId, msg: Reply): nat
  {
    if out == [] then 0
    else Deliveries(out[..|out| - 1], to, msg) + (if out[|out| - 1] == Send(to, msg) then 1 else 0)
  }

  lemma {:induction false} DeliveriesAppend(a: seq<Action>, b: seq<Action>, to: ConnId, msg: Reply)
    ensures Deliveries(a + b, to, msg) == Deliveries(a, to, msg) + Deliveries(b, to, msg)
    decreases |b|
  {
    if b == [] {
      assert a + b == a;
    } else {
      assert (a + b)[..|a + b| - 1] == a + b[..|b| - 1];
      DeliveriesAppend(a, b[..|b| - 1], to, msg);
    }
  }

  lemma DeliveriesSingle(a: Action, to: ConnId, msg: Reply)
    ensures Deliveries([a], to, msg) == (if a == Send(to, msg) then 1 else 0)
  {
  }
}
