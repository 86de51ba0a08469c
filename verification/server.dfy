/**
  The server as one state machine: every WebSocket event, timer expiry and
  sweep is an `Event`, and `Step` runs the matching handler to completion.
 */
module Server {
  import opened Wrappers
  import opened Codes
  import opened Payload
  import opened Protocol
  import opened Registry
  import opened Handlers
  import opened Liveness

  /**
    The events the server reacts to. `draw` is
    `Math.floor(100000 + Math.random() * 900000) - 100000` when the frame is
    a `register-pc`;
    `TeardownDue` is the 400 ms logout timer armed by `ScheduleTeardown`;
    `SweepDue` is one tick of the 15 s liveness interval.
   */
  datatype Event =
    | Connect
    | Receive(id: ConnId, msg: Inbound, draw: nat)
    | PongFrom(id: ConnId)
    | Disconnect(id: ConnId)
    | TeardownDue(session: SessionRef, initiator: ConnId)
    | SweepDue

  /**
    What the transport and the timer service guarantee about an event: it
    concerns a connection they accepted, frames and pongs and the `close`
    event come only from a socket whose `close` has not fired yet, and a
    timer refers to a session object that exists.
   */
  ghost predicate Admissible(w: World, ev: Event) {
    match ev
    case Connect => true
    case Receive(id, _, draw) => IsClient(w, id) && draw < CodeSpan
    case PongFrom(id) => IsClient(w, id)
    case Disconnect(id) => IsClient(w, id)
    case TeardownDue(ref, initiator) => ref in w.heap && initiator in w.conns
    case SweepDue => true
  }

  /** The `message` listener: the branches it tries in order on `data.type`. */
  function OnFrame(w: World, id: ConnId, msg: Inbound, draw: nat, encode: string -> string): (e: Effect)
    requires Valid(w) && id in w.conns && draw < CodeSpan
    ensures Valid(e.next)
    ensures forall t :: t in w.conns ==> t in e.next.conns && e.next.conns[t].alive == w.conns[t].alive
    ensures SlotsOnlyFill(w, e.next) && ConnsPersist(w, e.next)
  {
    match msg
    case Malformed => Effect(w, [])
    case PingRequest => Effect(w, [Send(id, Pong)])
    case RegisterPc => OnRegisterPc(w, id, draw, encode)
    case RegisterMobile(code) => OnRegisterMobile(w, id, code)
    case Message(content, file, filename) => OnMessage(w, id, content, file, filename)
    case Logout => OnLogout(w, id)
    case Unrecognised => Effect(w, [])
  }

  /**
    A `ping` frame is answered with one `pong` in any state; a frame that does
    not parse, a type the server does not know, and a `message` or `logout`
    from a connection not bound to a registered session are dropped without
    reply or change.
   */
  lemma FrameTriage(w: World, id: ConnId, msg: Inbound, draw: nat, encode: string -> string)
    requires Valid(w) && id in w.conns && draw < CodeSpan
    ensures msg.PingRequest? ==> OnFrame(w, id, msg, draw, encode) == Effect(w, [Send(id, Pong)])
    ensures msg.Malformed? || msg.Unrecognised? ==> OnFrame(w, id, msg, draw, encode) == Effect(w, [])
    ensures (msg.Message? || msg.Logout?) && !Bound(w, id) ==> OnFrame(w, id, msg, draw, encode) == Effect(w, [])
  {
  }

  function Step(w: World, ev: Event, encode: string -> string): (e: Effect)
    requires Valid(w) && Admissible(w, ev)
    ensures Valid(e.next)
    ensures SlotsOnlyFill(w, e.next)
    ensures ConnsPersist(w, e.next)
  {
    match ev
    case Connect => OnConnect(w)
    case Receive(id, msg, draw) => OnFrame(w, id, msg, draw, encode)
    case PongFrom(id) => OnPong(w, id)
    case Disconnect(id) => OnDisconnect(w, id)
    case TeardownDue(ref, initiator) =>
      TeardownPersists(w, ref, initiator);
      OnTeardownDue(w, ref, initiator)
    case SweepDue => Sweep(w)
  }

  /**
    Only `register-pc` adds to the registry and only the logout timer and the
    `close` event remove from it; relaying, pings, pongs, sweeps and new
    connections leave the registry and every session object as they were.
   */
  lemma RegistryChangesOnlyByPairing(w: World, ev: Event, encode: string -> string)
    requires Valid(w) && Admissible(w, ev)
    ensures var e := Step(w, ev, encode);
      && (e.next.sessions.Keys - w.sessions.Keys != {} ==> ev.Receive? && ev.msg.RegisterPc?)
      && (w.sessions.Keys - e.next.sessions.Keys != {} ==> ev.TeardownDue? || ev.Disconnect?)
      && ((ev.Connect? || ev.PongFrom? || ev.SweepDue? || (ev.Receive? && !ev.msg.RegisterPc? && !ev.msg.RegisterMobile?))
          ==> e.next.sessions == w.sessions && e.next.heap == w.heap)
  {
  }

  /** No event but the connection's own pong marks it alive again. */
  lemma AliveOnlyByPong(w: World, ev: Event, encode: string -> string, id: ConnId)
    requires Valid(w) && Admissible(w, ev)
    requires id in w.conns && !w.conns[id].alive && ev != PongFrom(id)
    ensures id in Step(w, ev, encode).next.conns && !Step(w, ev, encode).next.conns[id].alive
  {
    match ev
    case Connect =>
    case Receive(from, msg, draw) =>
      assert Step(w, ev, encode) == OnFrame(w, from, msg, draw, encode);
    case PongFrom(from) =>
    case Disconnect(from) =>
    case TeardownDue(ref, initiator) =>
    case SweepDue =>
  }

  /** The events can be delivered one after another from `w`. */
  ghost predicate Runs(w: World, evs: seq<Event>, encode: string -> string)
    decreases |evs|
  {
    Valid(w) && (evs != [] ==> Admissible(w, evs[0]) && Runs(Step(w, evs[0], encode).next, evs[1..], encode))
  }

  /** The state after delivering `evs`. */
  function Final(w: World, evs: seq<Event>, encode: string -> string): (w': World)
    requires Runs(w, evs, encode)
    ensures Valid(w')
    decreases |evs|
  {
    if evs == [] then w else Final(Step(w, evs[0], encode).next, evs[1..], encode)
  }

  lemma {:induction false} StaysSilent(w: World, evs: seq<Event>, encode: string -> string, id: ConnId)
    requires Runs(w, evs, encode)
    requires id in w.conns && !w.conns[id].alive
    requires PongFrom(id) !in evs
    ensures id in Final(w, evs, encode).conns && !Final(w, evs, encode).conns[id].alive
    decreases |evs|
  {
    if evs != [] {
      AliveOnlyByPong(w, evs[0], encode, id);
      assert PongFrom(id) !in evs[1..];
      StaysSilent(Step(w, evs[0], encode).next, evs[1..], encode, id);
    }
  }

  /**
    A client that sends no pong is terminated by the sweep after next at the
    latest, whatever else happens in between, unless its socket has closed
    by then.
   */
  lemma SilentClientTerminated(w: World, evs: seq<Event>, encode: string -> string, id: ConnId)
    requires Valid(w) && IsClient(w, id)
    requires Runs(Sweep(w).next, evs, encode)
    requires PongFrom(id) !in evs
    requires IsClient(Final(Sweep(w).next, evs, encode), id)
    ensures Terminate(id) in Sweep(w).out || Terminate(id) in Sweep(Final(Sweep(w).next, evs, encode)).out
  {
    if w.conns[id].alive {
      StaysSilent(Sweep(w).next, evs, encode, id);
    }
  }

  /** A client that answered the last probe is probed again, not terminated. */
  lemma AnsweredClientSpared(w: World, id: ConnId)
    requires Valid(w) && IsClient(w, id)
    ensures var after := OnPong(w, id).next;
      Probe(id) in Sweep(after).out && Terminate(id) !in Sweep(after).out
  {
  }

  lemma SampleCode()
    ensures GenerateCode(382913) == "482913"
  {
    assert Decimal(4) == "4";
    assert Decimal(48) == "48";
    assert Decimal(482) == "482";
    assert Decimal(4829) == "4829";
    assert Decimal(48291) == "48291";
    assert Decimal(482913) == "482913";
  }

  const SampleCodeText: Code := "482913"
  const Fresh: Conn := Conn(Unbound, None, Open, true)

  /** Three accepted connections: 0 will be the pc, 1 and 2 mobiles. */
  const Accepted: World := World(map[0 := Fresh, 1 := Fresh, 2 := Fresh], map[], map[], 3, 0)

  /** Connection 0 registered as pc under the sample code. */
  const Registered0: World :=
    Accepted.(conns := Accepted.conns[0 := Conn(Pc, Some(SampleCodeText), Open, true)],
              heap := map[0 := Session(Some(0), None)],
              sessions := map[SampleCodeText := 0],
              nextRef := 1)

  /** Connection 1 joined as mobile. */
  const Paired: World :=
    Registered0.(conns := Registered0.conns[1 := Conn(Mobile, Some(SampleCodeText), Open, true)],
                 heap := map[0 := Session(Some(0), Some(1))])

  lemma WalkAccept(encode: string -> string)
    ensures Valid(Accepted)
    ensures Step(Step(Step(Init, Connect, encode).next, Connect, encode).next, Connect, encode).next == Accepted
  {
    InitValid();
  }

  lemma WalkRegister(encode: string -> string)
    requires Valid(Accepted)
    ensures Valid(Registered0)
    ensures Step(Accepted, Receive(0, RegisterPc, 382913), encode)
      == Effect(Registered0, [Send(0, Registered(SampleCodeText, encode("connect:482913")))])
  {
    SampleCode();
    assert QrText(SampleCodeText) == "connect:482913";
    var e := OnRegisterPc(Accepted, 0, 382913, encode);
    assert e.next.conns == Registered0.conns;
  }

  lemma WalkJoin(encode: string -> string)
    requires Valid(Registered0)
    ensures Valid(Paired)
    ensures Step(Registered0, Receive(1, RegisterMobile(SampleCodeText), 0), encode)
      == Effect(Paired, [Send(0, PeerConnected), Send(1, Connected)])
  {
  }

  lemma WalkRelayAndRefuse(encode: string -> string)
    requires Valid(Paired)
    ensures Step(Paired, Receive(0, Message(Some(JStr("hi")), None, None), 0), encode)
      == Effect(Paired, [Send(1, Relayed(Pc, JStr("hi"), JNull, JNull))])
    ensures Step(Paired, Receive(2, RegisterMobile(SampleCodeText), 0), encode)
      == Effect(Paired, [Send(2, Error(InvalidCodeText))])
  {
  }

  lemma WalkDisconnect(encode: string -> string)
    requires Valid(Paired)
    ensures var e := Step(Paired, Disconnect(1), encode);
      e.out == [Send(0, LogoutNotice), Close(0)] && SampleCodeText !in e.next.sessions
  {
  }

  /**
    The pairing walkthrough, first half: three sockets connect, the first
    registers as pc and gets code 482913, and the second joins as its mobile.
    Each state is the one the previous event leads to.
   */
  lemma PairingSetup(encode: string -> string)
    ensures Step(Step(Step(Init, Connect, encode).next, Connect, encode).next, Connect, encode).next == Accepted
    ensures Valid(Accepted) && Valid(Registered0) && Valid(Paired)
    ensures Step(Accepted, Receive(0, RegisterPc, 382913), encode)
      == Effect(Registered0, [Send(0, Registered(SampleCodeText, encode("connect:482913")))])
    ensures Step(Registered0, Receive(1, RegisterMobile(SampleCodeText), 0), encode)
      == Effect(Paired, [Send(0, PeerConnected), Send(1, Connected)])
  {
    WalkAccept(encode);
    WalkRegister(encode);
    WalkJoin(encode);
  }

  /**
    The pairing walkthrough, second half, from the paired state the first half
    reaches: the pc's message reaches the mobile with null file fields, a
    second mobile is refused, and when the mobile disconnects the pc hears
    `logout`, is closed, and the code is gone.
   */
  lemma PairingSession(encode: string -> string)
    ensures Valid(Paired)
    ensures Step(Paired, Receive(0, Message(Some(JStr("hi")), None, None), 0), encode)
      == Effect(Paired, [Send(1, Relayed(Pc, JStr("hi"), JNull, JNull))])
    ensures Step(Paired, Receive(2, RegisterMobile(SampleCodeText), 0), encode)
      == Effect(Paired, [Send(2, Error(InvalidCodeText))])
    ensures Step(Paired, Disconnect(1), encode).out == [Send(0, LogoutNotice), Close(0)]
    ensures SampleCodeText !in Step(Paired, Disconnect(1), encode).next.sessions
  {
    PairingSetup(encode);
    WalkRelayAndRefuse(encode);
    WalkDisconnect(encode);
  }
}
