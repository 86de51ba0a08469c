/**
  The per-connection event handlers of the pairing server, each one a pure
  transition from the state before the event to the state after it plus the
  actions it emits, in emission order.
 */
module Handlers {
  import opened Wrappers
  import opened Codes
  import opened Payload
  import opened Protocol
  import opened Registry

  /** The `connection` event: a new socket, open, alive and unbound. */
  function OnConnect(w: World): (e: Effect)
    requires Valid(w)
    ensures Valid(e.next)
    ensures SlotsOnlyFill(w, e.next) && ConnsPersist(w, e.next)
    ensures w.nextConn !in w.conns
    ensures e.next.conns == w.conns[w.nextConn := Conn(Unbound, None, Open, true)]
    ensures e.next.heap == w.heap && e.next.sessions == w.sessions
    ensures e.out == []
  {
    Effect(w.(conns := w.conns[w.nextConn := Conn(Unbound, None, Open, true)], nextConn := w.nextConn + 1), [])
  }

  /** The transport-level `pong` event: the connection has answered the probe. */
  function OnPong(w: World, id: ConnId): (e: Effect)
    requires Valid(w) && id in w.conns
    ensures Valid(e.next)
    ensures SlotsOnlyFill(w, e.next) && ConnsPersist(w, e.next)
    ensures e.next.conns.Keys == w.conns.Keys
    ensures e.next.conns[id] == w.conns[id].(alive := true)
    ensures forall t :: t in w.conns && t != id ==> e.next.conns[t] == w.conns[t]
    ensures e.next == w.(conns := e.next.conns)
    ensures e.out == []
  {
    var w' := w.(conns := w.conns[id := w.conns[id].(alive := true)]);
    ConnFieldsKeepValid(w, w');
    Effect(w', [])
  }

  /**
    `register-pc`: a new session object `{pc: ws, mobile: null}` goes into the
    registry under the generated code, whatever was there before, and the
    caller becomes its pc without leaving any earlier session.
   */
  function OnRegisterPc(w: World, id: ConnId, draw: nat, encode: string -> string): (e: Effect)
    requires Valid(w) && id in w.conns && draw < CodeSpan
    ensures Valid(e.next)
    ensures SlotsOnlyFill(w, e.next) && ConnsPersist(w, e.next)
    ensures var code := GenerateCode(draw);
      && code in e.next.sessions
      && e.next.sessions[code] !in w.heap
      && e.next.heap[e.next.sessions[code]] == Session(Some(id), None)
      && e.next.sessions.Keys == w.sessions.Keys + {code}
      && (forall c :: c in w.sessions && c != code ==> e.next.sessions[c] == w.sessions[c])
      && (forall r :: r in w.heap ==> r in e.next.heap && e.next.heap[r] == w.heap[r])
      && e.next.conns == w.conns[id := w.conns[id].(role := Pc, code := Some(code))]
      && e.out == [Send(id, Registered(code, encode(QrText(code))))]
  {
    var code := GenerateCode(draw);
    var ref := w.nextRef;
    var w' := w.(conns := w.conns[id := w.conns[id].(role := Pc, code := Some(code))],
                 heap := w.heap[ref := Session(Some(id), None)],
                 sessions := w.sessions[code := ref],
                 nextRef := ref + 1);
    RegisterPcKeepsValid(w, w', id, code, ref);
    Effect(w', [Send(id, Registered(code, encode(QrText(code))))])
  }

  lemma RegisterPcKeepsValid(w: World, w': World, id: ConnId, code: Code, ref: SessionRef)
    requires Valid(w) && id in w.conns && IsCode(code) && ref == w.nextRef
    requires w' == w.(conns := w.conns[id := w.conns[id].(role := Pc, code := Some(code))],
                      heap := w.heap[ref := Session(Some(id), None)],
                      sessions := w.sessions[code := ref],
                      nextRef := ref + 1)
    ensures Valid(w')
  {
  }

  /**
    The registry rebinds a code that is already in use: the object that held
    it is no longer reachable under any code, so its pc and mobile lose their
    session without being told.
   */
  lemma RegisterPcOverwrites(w: World, id: ConnId, draw: nat, encode: string -> string)
    requires Valid(w) && id in w.conns && draw < CodeSpan
    requires GenerateCode(draw) in w.sessions
    ensures var e := OnRegisterPc(w, id, draw, encode);
      var displaced := w.sessions[GenerateCode(draw)];
      && e.next.sessions.Keys == w.sessions.Keys
      && displaced in e.next.heap
      && (forall c :: c in e.next.sessions ==> e.next.sessions[c] != displaced)
  {
  }

  /**
    A connection that registers as pc again keeps its place in the session it
    was bound to, which stays registered under its old code.
   */
  lemma RegisterPcKeepsOldBinding(w: World, id: ConnId, draw: nat, encode: string -> string)
    requires Valid(w) && id in w.conns && draw < CodeSpan
    requires HasCode(w.conns[id]) && w.conns[id].code.value in w.sessions
    requires Occupies(w.heap[w.sessions[w.conns[id].code.value]], id)
    requires w.conns[id].code.value != GenerateCode(draw)
    ensures var e := OnRegisterPc(w, id, draw, encode);
      var earlier := w.conns[id].code.value;
      && earlier in e.next.sessions
      && Occupies(e.next.heap[e.next.sessions[earlier]], id)
      && e.next.conns[id].code == Some(GenerateCode(draw))
  {
  }

  /** The test `sessions[code] && sessions[code].pc && !sessions[code].mobile`. */
  ghost predicate Joinable(w: World, code: string)
    requires Valid(w)
  {
    code in w.sessions && w.heap[w.sessions[code]].pc.Some? && w.heap[w.sessions[code]].mobile.None?
  }

  /**
    `register-mobile`: fills the empty mobile slot of the session under
    `code`, or answers with an error and changes nothing.
   */
  function OnRegisterMobile(w: World, id: ConnId, code: string): (e: Effect)
    requires Valid(w) && id in w.conns
    ensures Valid(e.next)
    ensures SlotsOnlyFill(w, e.next) && ConnsPersist(w, e.next)
    ensures !Joinable(w, code) ==> e.next == w && e.out == [Send(id, Error(InvalidCodeText))]
    ensures Joinable(w, code) ==>
      var ref := w.sessions[code];
      var pc := w.heap[ref].pc.value;
      && e.next.sessions == w.sessions
      && e.next.heap == w.heap[ref := Session(Some(pc), Some(id))]
      && e.next.conns == w.conns[id := w.conns[id].(role := Mobile, code := Some(code))]
      && e.out == [Send(pc, PeerConnected), Send(id, Connected)]
  {
    var found := Lookup(w, code);
    if found.Some? && w.heap[found.value].pc.Some? && w.heap[found.value].mobile.None? then
      var ref := found.value;
      var pc := w.heap[ref].pc.value;
      var w' := w.(heap := w.heap[ref := Session(Some(pc), Some(id))],
                   conns := w.conns[id := w.conns[id].(role := Mobile, code := Some(code))]);
      RegisterMobileKeepsValid(w, w', id, code);
      Effect(w', [Send(pc, PeerConnected), Send(id, Connected)])
    else
      Effect(w, [Send(id, Error(InvalidCodeText))])
  }

  lemma RegisterMobileKeepsValid(w: World, w': World, id: ConnId, code: Code)
    requires Valid(w) && id in w.conns && code in w.sessions
    requires var ref := w.sessions[code];
      w' == w.(heap := w.heap[ref := Session(w.heap[ref].pc, Some(id))],
               conns := w.conns[id := w.conns[id].(role := Mobile, code := Some(code))])
    ensures Valid(w')
  {
  }

  /**
    A join succeeds exactly when the code names a session whose pc is set and
    whose mobile slot is empty; the pc then hears `peer-connected` once and
    the caller `connected` once, and on failure the caller hears one `error`
    and nothing else happens.
   */
  lemma RegisterMobileOutcome(w: World, id: ConnId, code: string)
    requires Valid(w) && id in w.conns
    ensures var e := OnRegisterMobile(w, id, code);
      && (Joinable(w, code) <==> Deliveries(e.out, id, Connected) == 1)
      && (Joinable(w, code) ==> Deliveries(e.out, w.heap[w.sessions[code]].pc.value, PeerConnected) == 1)
      && (!Joinable(w, code) <==> e.next == w)
      && (!Joinable(w, code) ==> |e.out| == 1 && e.out[0].to == id && e.out[0].msg.Error?)
  {
    var e := OnRegisterMobile(w, id, code);
    if Joinable(w, code) {
      var ref := w.sessions[code];
      var pc := w.heap[ref].pc.value;
      assert e.out == [Send(pc, PeerConnected)] + [Send(id, Connected)];
      DeliveriesAppend([Send(pc, PeerConnected)], [Send(id, Connected)], id, Connected);
      DeliveriesAppend([Send(pc, PeerConnected)], [Send(id, Connected)], pc, PeerConnected);
      DeliveriesSingle(Send(pc, PeerConnected), id, Connected);
      DeliveriesSingle(Send(id, Connected), id, Connected);
      DeliveriesSingle(Send(pc, PeerConnected), pc, PeerConnected);
      DeliveriesSingle(Send(id, Connected), pc, PeerConnected);
    } else {
      DeliveriesSingle(Send(id, Error(InvalidCodeText)), id, Connected);
    }
  }

  /** `message` is forwarded from `from` to `to`: the test at server.js's relay branch. */
  ghost predicate RelaysTo(w: World, from: ConnId, to: ConnId)
    requires Valid(w) && from in w.conns
  {
    var c := w.conns[from];
    && HasCode(c)
    && c.code.value in w.sessions
    && PeerSlot(w.heap[w.sessions[c.code.value]], c.role) == Some(to)
    && IsOpen(w, to)
  }

  /** The frame a relay sends. */
  function RelayFrame(role: Role, content: Option<Json>, file: Option<Json>, filename: Option<Json>): Reply {
    Relayed(role, OrNull(content), OrNull(file), OrNull(filename))
  }

  /**
    `message`: forwarded once to the open peer in the other role's slot of
    the sender's session, or dropped; it never changes the state.
   */
  function OnMessage(w: World, id: ConnId, content: Option<Json>, file: Option<Json>, filename: Option<Json>): (e: Effect)
    requires Valid(w) && id in w.conns
    ensures e.next == w
    ensures |e.out| <= 1
    ensures forall a :: a in e.out ==>
      a.Send? && RelaysTo(w, id, a.to) && a.msg == RelayFrame(w.conns[id].role, content, file, filename)
    ensures forall t :: RelaysTo(w, id, t) ==> e.out == [Send(t, RelayFrame(w.conns[id].role, content, file, filename))]
  {
    var c := w.conns[id];
    var found := if HasCode(c) then Lookup(w, c.code.value) else None;
    if found.Some? then
      var peer := PeerSlot(w.heap[found.value], c.role);
      if OpenSlot(w, peer) then
        Effect(w, [Send(peer.value, RelayFrame(c.role, content, file, filename))])
      else
        Effect(w, [])
    else
      Effect(w, [])
  }

  /**
    Between a pc and the mobile that joined it, a message from either side
    reaches the other exactly when the other is open, carrying the sender's
    role.
   */
  lemma RelayIsBidirectional(w: World, code: Code, p: ConnId, m: ConnId,
                             content: Option<Json>, file: Option<Json>, filename: Option<Json>)
    requires Valid(w) && code in w.sessions
    requires w.heap[w.sessions[code]] == Session(Some(p), Some(m))
    requires p in w.conns && w.conns[p].role == Pc && w.conns[p].code == Some(code)
    requires m in w.conns && w.conns[m].role == Mobile && w.conns[m].code == Some(code)
    ensures OnMessage(w, p, content, file, filename).out
      == (if IsOpen(w, m) then [Send(m, Relayed(Pc, OrNull(content), OrNull(file), OrNull(filename)))] else [])
    ensures OnMessage(w, m, content, file, filename).out
      == (if IsOpen(w, p) then [Send(p, Relayed(Mobile, OrNull(content), OrNull(file), OrNull(filename)))] else [])
  {
  }

  /** The connection is bound to a session that is still registered. */
  ghost predicate Bound(w: World, id: ConnId)
    requires Valid(w) && id in w.conns
  {
    HasCode(w.conns[id]) && w.conns[id].code.value in w.sessions
  }

  function SessionOf(w: World, id: ConnId): SessionRef
    requires Valid(w) && id in w.conns && Bound(w, id)
  {
    w.sessions[w.conns[id].code.value]
  }

  /** One `logout` to the occupant of `slot`, when it is open and is not the initiator. */
  function NotifyLogout(w: World, slot: Option<ConnId>, initiator: ConnId): seq<Action> {
    if OpenSlot(w, slot) && slot.value != initiator then [Send(slot.value, LogoutNotice)] else []
  }

  /**
    `logout`, the immediate part: every open slot occupant other than the
    initiator hears `logout`, then the teardown timer is armed on the session
    object; nothing is closed or deleted yet.
   */
  function OnLogout(w: World, id: ConnId): (e: Effect)
    requires Valid(w) && id in w.conns
    ensures e.next == w
    ensures !Bound(w, id) ==> e.out == []
    ensures Bound(w, id) ==> |e.out| >= 1 && e.out[|e.out| - 1] == ScheduleTeardown(SessionOf(w, id), id)
    ensures forall i :: 0 <= i < |e.out| - 1 ==> e.out[i].Send?
    ensures forall a :: a in e.out && !a.Send? ==> Bound(w, id) && a == ScheduleTeardown(SessionOf(w, id), id)
    ensures forall t, m :: Send(t, m) in e.out ==>
      && Bound(w, id) && m == LogoutNotice && t != id && IsOpen(w, t) && Occupies(w.heap[SessionOf(w, id)], t)
    ensures Bound(w, id) ==> forall t :: t != id && IsOpen(w, t) && Occupies(w.heap[SessionOf(w, id)], t) ==>
      Send(t, LogoutNotice) in e.out
  {
    var c := w.conns[id];
    var found := if HasCode(c) then Lookup(w, c.code.value) else None;
    if found.Some? then
      var ref := found.value;
      var s := w.heap[ref];
      Effect(w, NotifyLogout(w, s.pc, id) + NotifyLogout(w, s.mobile, id) + [ScheduleTeardown(ref, id)])
    else
      Effect(w, [])
  }

  /** One slot's share of the logout notices: one to its occupant when open and not the initiator, else none. */
  lemma NotifyLogoutDeliveries(w: World, slot: Option<ConnId>, initiator: ConnId, t: ConnId)
    ensures Deliveries(NotifyLogout(w, slot, initiator), t, LogoutNotice)
      == (if OpenSlot(w, slot) && slot.value != initiator && slot.value == t then 1 else 0)
  {
  }

  /**
    In a pairing of two distinct connections, a logout by either one sends
    exactly one `logout` to the other when it is open and none to the initiator.
   */
  lemma LogoutNotifiesPartnerOnce(w: World, code: Code, p: ConnId, m: ConnId, initiator: ConnId)
    requires Valid(w) && code in w.sessions && p != m
    requires w.heap[w.sessions[code]] == Session(Some(p), Some(m))
    requires initiator == p || initiator == m
    requires initiator in w.conns && w.conns[initiator].code == Some(code)
    ensures var e := OnLogout(w, initiator);
      var other := if initiator == p then m else p;
      && Deliveries(e.out, initiator, LogoutNotice) == 0
      && Deliveries(e.out, other, LogoutNotice) == (if IsOpen(w, other) then 1 else 0)
  {
    var e := OnLogout(w, initiator);
    var other := if initiator == p then m else p;
    var ref := w.sessions[code];
    assert IsCode(code);
    var a := NotifyLogout(w, Some(p), initiator);
    var b := NotifyLogout(w, Some(m), initiator);
    var tail := [ScheduleTeardown(ref, initiator)];
    assert e.out == a + b + tail;
    forall t | t == initiator || t == other
      ensures Deliveries(e.out, t, LogoutNotice) == Deliveries(a, t, LogoutNotice) + Deliveries(b, t, LogoutNotice)
    {
      DeliveriesAppend(a + b, tail, t, LogoutNotice);
      DeliveriesAppend(a, b, t, LogoutNotice);
      DeliveriesSingle(tail[0], t, LogoutNotice);
    }
    NotifyLogoutDeliveries(w, Some(p), initiator, initiator);
    NotifyLogoutDeliveries(w, Some(m), initiator, initiator);
    NotifyLogoutDeliveries(w, Some(p), initiator, other);
    NotifyLogoutDeliveries(w, Some(m), initiator, other);
  }

  /** `if (slot && slot.readyState === OPEN) slot.close()`. */
  function CloseIfOpen(w: World, slot: Option<ConnId>): (e: Effect)
    requires Valid(w)
    ensures Valid(e.next)
    ensures slot.Some? ==> !IsOpen(e.next, slot.value)
    ensures OpenSlot(w, slot) ==> slot.value in e.next.conns && e.next.conns[slot.value] == w.conns[slot.value].(ready := Closing)
    ensures e.next.conns.Keys == w.conns.Keys
    ensures forall t :: t in w.conns && (slot != Some(t) || !IsOpen(w, t)) ==> e.next.conns[t] == w.conns[t]
    ensures e.next == w.(conns := e.next.conns)
    ensures e.out == (if OpenSlot(w, slot) then [Close(slot.value)] else [])
  {
    if OpenSlot(w, slot) then
      MarkClosingKeepsValid(w, slot.value);
      Effect(MarkClosing(w, slot.value), [Close(slot.value)])
    else
      Effect(w, [])
  }

  /** The timer's two `close()` calls, pc first, on the occupants of `s` that are still open. */
  function CloseOccupants(w: World, s: Session): (e: Effect)
    requires Valid(w)
    ensures Valid(e.next)
    ensures e.next == w.(conns := e.next.conns)
    ensures e.next.conns.Keys == w.conns.Keys
    ensures forall t :: Occupies(s, t) ==> !IsOpen(e.next, t)
    ensures forall t :: IsOpen(w, t) && Occupies(s, t) ==> e.next.conns[t] == w.conns[t].(ready := Closing)
    ensures forall t :: t in w.conns && !(IsOpen(w, t) && Occupies(s, t)) ==> e.next.conns[t] == w.conns[t]
    ensures forall t :: Close(t) in e.out <==> IsOpen(w, t) && Occupies(s, t)
    ensures forall a :: a in e.out ==> a.Close?
    ensures |e.out| <= 2
  {
    var first := CloseIfOpen(w, s.pc);
    var second := CloseIfOpen(first.next, s.mobile);
    Effect(second.next, first.out + second.out)
  }

  /**
    The logout timer firing, 400 ms later: closes whichever occupants of the
    captured session object are still open, then deletes the registry entry
    under the initiator's code as it reads at that moment.
   */
  function OnTeardownDue(w: World, ref: SessionRef, initiator: ConnId): (e: Effect)
    requires Valid(w) && ref in w.heap && initiator in w.conns
    ensures Valid(e.next)
    ensures e.next.heap == w.heap
    ensures var code := w.conns[initiator].code;
      e.next.sessions == (if code.Some? then w.sessions - {code.value} else w.sessions)
    ensures forall t :: Occupies(w.heap[ref], t) ==> !IsOpen(e.next, t)
    ensures forall t :: IsOpen(w, t) && Occupies(w.heap[ref], t) ==> e.next.conns[t] == w.conns[t].(ready := Closing)
    ensures forall t :: Close(t) in e.out <==> IsOpen(w, t) && Occupies(w.heap[ref], t)
    ensures forall a :: a in e.out ==> a.Close?
    ensures |e.out| <= 2
    ensures e.next.conns.Keys == w.conns.Keys
    ensures forall t :: t in w.conns && !(IsOpen(w, t) && Occupies(w.heap[ref], t)) ==> e.next.conns[t] == w.conns[t]
  {
    var closed := CloseOccupants(w, w.heap[ref]);
    var code := w.conns[initiator].code;
    if code.Some? then
      DeleteKeepsValid(closed.next, code.value);
      Effect(Delete(closed.next, code.value), closed.out)
    else
      closed
  }

  lemma TeardownPersists(w: World, ref: SessionRef, initiator: ConnId)
    requires Valid(w) && ref in w.heap && initiator in w.conns
    ensures SlotsOnlyFill(w, OnTeardownDue(w, ref, initiator).next)
    ensures ConnsPersist(w, OnTeardownDue(w, ref, initiator).next)
  {
  }

  /**
    A logout followed by the timer it arms, with nothing in between: the
    initiator's code is gone, no occupant of its session is left open, and
    everyone told `logout` is then closed.
   */
  lemma LogoutThenOwnTimer(w: World, id: ConnId)
    requires Valid(w) && id in w.conns && Bound(w, id)
    ensures var e := OnLogout(w, id);
      var armed := e.out[|e.out| - 1];
      && armed == ScheduleTeardown(SessionOf(w, id), id)
      && var fired := OnTeardownDue(e.next, armed.session, armed.initiator);
         && w.conns[id].code.value !in fired.next.sessions
         && (forall t :: Occupies(w.heap[SessionOf(w, id)], t) ==> !IsOpen(fired.next, t))
         && (forall t :: Send(t, LogoutNotice) in e.out ==> Close(t) in fired.out)
  {
  }

  /**
    When the `close` event has already deleted the code, the timer still closes
    what is open but leaves the registry as it is.
   */
  lemma TeardownOfDeletedCode(w: World, ref: SessionRef, initiator: ConnId)
    requires Valid(w) && ref in w.heap && initiator in w.conns
    requires w.conns[initiator].code.Some? && w.conns[initiator].code.value !in w.sessions
    ensures OnTeardownDue(w, ref, initiator).next.sessions == w.sessions
  {
  }

  /**
    The timer reads the initiator's code when it fires: a pc that logs out and
    registers again before it fires loses its new session, while the code it
    logged out of stays registered.
   */
  lemma TeardownAfterReRegister(w: World, id: ConnId, draw: nat, encode: string -> string)
    requires Valid(w) && id in w.conns && Bound(w, id) && draw < CodeSpan
    requires w.conns[id].code.value != GenerateCode(draw)
    ensures var ref := SessionOf(w, id);
      var again := OnRegisterPc(OnLogout(w, id).next, id, draw, encode).next;
      var fired := OnTeardownDue(again, ref, id).next;
      && w.conns[id].code.value in fired.sessions
      && fired.sessions[w.conns[id].code.value] == ref
      && GenerateCode(draw) !in fired.sessions
  {
  }

  /**
    The `close` event of a socket: it is now closed; if it was bound to a
    registered session, the peer in the other role's slot, when open, hears
    `logout` and is closed, and the code is deleted.
   */
  function OnDisconnect(w: World, id: ConnId): (e: Effect)
    requires Valid(w) && id in w.conns
    ensures Valid(e.next)
    ensures SlotsOnlyFill(w, e.next) && ConnsPersist(w, e.next)
    ensures e.next.heap == w.heap
    ensures e.next.conns.Keys == w.conns.Keys
    ensures e.next.conns[id] == w.conns[id].(ready := Closed)
    ensures !Bound(w, id) ==>
      && e.next.sessions == w.sessions
      && e.out == []
      && e.next.conns == w.conns[id := w.conns[id].(ready := Closed)]
    ensures Bound(w, id) ==>
      var peer := PeerSlot(w.heap[SessionOf(w, id)], w.conns[id].role);
      && e.next.sessions == w.sessions - {w.conns[id].code.value}
      && (if OpenSlot(w, peer) && peer.value != id then
            e.out == [Send(peer.value, LogoutNotice), Close(peer.value)] && !IsOpen(e.next, peer.value)
          else
            e.out == [])
      && (forall t :: t in w.conns && t != id && peer != Some(t) ==> e.next.conns[t] == w.conns[t])
      && (peer.Some? && peer.value != id ==>
            e.next.conns[peer.value]
              == (if OpenSlot(w, peer) then w.conns[peer.value].(ready := Closing) else w.conns[peer.value]))
  {
    var c := w.conns[id];
    var w0 := w.(conns := w.conns[id := c.(ready := Closed)]);
    ConnFieldsKeepValid(w, w0);
    var found := if HasCode(c) then Lookup(w, c.code.value) else None;
    if found.Some? then
      var peer := PeerSlot(w.heap[found.value], c.role);
      var notified := if OpenSlot(w0, peer) then
          MarkClosingKeepsValid(w0, peer.value);
          Effect(MarkClosing(w0, peer.value), [Send(peer.value, LogoutNotice), Close(peer.value)])
        else
          Effect(w0, []);
      DeleteKeepsValid(notified.next, c.code.value);
      Effect(Delete(notified.next, c.code.value), notified.out)
    else
      Effect(w0, [])
  }

  /**
    After the logout timer or a disconnect has deleted a code, a mobile that
    tries to join under that code is refused.
   */
  lemma JoinAfterTeardownFails(w: World, ref: SessionRef, initiator: ConnId, joiner: ConnId)
    requires Valid(w) && ref in w.heap && initiator in w.conns && joiner in w.conns
    requires w.conns[initiator].code.Some?
    ensures var e := OnTeardownDue(w, ref, initiator);
      var j := OnRegisterMobile(e.next, joiner, w.conns[initiator].code.value);
      j.out == [Send(joiner, Error(InvalidCodeText))] && j.next == e.next
  {
  }

  lemma JoinAfterDisconnectFails(w: World, id: ConnId, joiner: ConnId)
    requires Valid(w) && id in w.conns && joiner in w.conns && Bound(w, id)
    ensures var e := OnDisconnect(w, id);
      var j := OnRegisterMobile(e.next, joiner, w.conns[id].code.value);
      j.out == [Send(joiner, Error(InvalidCodeText))] && j.next == e.next
  {
  }
}
