/**
  Server state: the connections the transport has accepted, the session
  objects, and the `sessions` registry mapping a code to a session object.
  Session objects have identity because the logout timer keeps hold of the
  object it captured even after the registry has dropped or replaced it.
 */
module Registry {
  import opened Wrappers
  import opened Codes
  import opened Protocol

  /** `ws.readyState`, from the moment the `connection` event fires. */
  datatype ReadyState = Open | Closing | Closed

  /** The per-connection fields `role`, `code` and `isAlive`, plus `readyState`. */
  datatype Conn = Conn(role: Role, code: Option<Code>, ready: ReadyState, alive: bool)

  /** A `{pc, mobile}` session object; `None` is `null`. */
  datatype Session = Session(pc: Option<ConnId>, mobile: Option<ConnId>)

  datatype World = World(
    conns: map<ConnId, Conn>,
    heap: map<SessionRef, Session>,
    sessions: map<Code, SessionRef>,
    nextConn: nat,
    nextRef: nat)

  /** The new state and the actions one run-to-completion handler produces. */
  datatype Effect = Effect(next: World, out: seq<Action>)

  const Init: World := World(map[], map[], map[], 0, 0)

  /** The truthiness test `ws.code && ...`. */
  predicate HasCode(c: Conn) {
    c.code.Some? && c.code.value != ""
  }

  /** `ws.readyState === WebSocket.OPEN`. */
  predicate IsOpen(w: World, id: ConnId) {
    id in w.conns && w.conns[id].ready == Open
  }

  /** `slot && slot.readyState === WebSocket.OPEN`. */
  predicate OpenSlot(w: World, slot: Option<ConnId>) {
    slot.Some? && IsOpen(w, slot.value)
  }

  /** The connection the transport still lists in `wss.clients`. */
  predicate IsClient(w: World, id: ConnId) {
    id in w.conns && w.conns[id].ready != Closed
  }

  /** `ws.role === "pc" ? session.mobile : session.pc`. */
  function PeerSlot(s: Session, r: Role): Option<ConnId> {
    if r == Pc then s.mobile else s.pc
  }

  predicate Occupies(s: Session, id: ConnId) {
    s.pc == Some(id) || s.mobile == Some(id)
  }

  predicate SlotsKnown(conns: map<ConnId, Conn>, s: Session) {
    s.pc.Some? && s.pc.value in conns && (s.mobile.Some? ==> s.mobile.value in conns)
  }

  predicate BindingShape(c: Conn) {
    && (c.code.Some? <==> c.role != Unbound)
    && (c.code.Some? ==> IsCode(c.code.value))
  }

  /**
    What holds of every state the server reaches: identifiers are below their
    allocators, every registry key is a pairing code naming a live object, no
    object is registered under two codes, every object has a pc and points only
    at accepted connections, and a connection has a code exactly when it has a role.
   */
  ghost predicate Valid(w: World) {
    && (forall id :: id in w.conns ==> id < w.nextConn)
    && (forall r :: r in w.heap ==> r < w.nextRef)
    && (forall c :: c in w.sessions ==> IsCode(c) && w.sessions[c] in w.heap)
    && (forall c, d :: c in w.sessions && d in w.sessions && c != d ==> w.sessions[c] != w.sessions[d])
    && (forall r :: r in w.heap ==> SlotsKnown(w.conns, w.heap[r]))
    && (forall id :: id in w.conns ==> BindingShape(w.conns[id]))
  }

  /** Session objects keep their pc, and a filled mobile slot stays filled with the same connection. */
  ghost predicate SlotsOnlyFill(w: World, w': World) {
    && w.heap.Keys <= w'.heap.Keys
    && forall r :: r in w.heap ==>
         w'.heap[r].pc == w.heap[r].pc && (w.heap[r].mobile.Some? ==> w'.heap[r].mobile == w.heap[r].mobile)
  }

  /** Connections are never forgotten, and a socket whose `close` fired stays closed. */
  ghost predicate ConnsPersist(w: World, w': World) {
    && w.conns.Keys <= w'.conns.Keys
    && forall id :: id in w.conns && w.conns[id].ready == Closed ==> w'.conns[id].ready == Closed
  }

  lemma InitValid()
    ensures Valid(Init)
    ensures Init.sessions == map[] && Init.conns == map[]
  {
  }

  /**
    `sessions[code]`: the session object registered under `code`, if any.
    The object it finds always exists and always has a pc.
   */
  function Lookup(w: World, code: string): (r: Option<SessionRef>)
    requires Valid(w)
    ensures r.Some? <==> code in w.sessions
    ensures r.Some? ==> r.value in w.heap && w.heap[r.value].pc.Some? && w.sessions[code] == r.value
  {
    if code in w.sessions then Some(w.sessions[code]) else None
  }

  /** `delete sessions[code]`: idempotent, and touches nothing but the registry. */
  function Delete(w: World, code: Code): (w': World)
    ensures w'.sessions.Keys == w.sessions.Keys - {code}
    ensures forall c :: c in w'.sessions ==> w'.sessions[c] == w.sessions[c]
    ensures code !in w.sessions ==> w' == w
    ensures w' == w.(sessions := w'.sessions)
  {
    if code in w.sessions then w.(sessions := w.sessions - {code}) else w
  }

  lemma DeleteIdempotent(w: World, code: Code)
    ensures Delete(Delete(w, code), code) == Delete(w, code)
    ensures code !in Delete(w, code).sessions
  {
  }

  lemma DeleteKeepsValid(w: World, code: Code)
    requires Valid(w)
    ensures Valid(Delete(w, code))
  {
  }

  /**
    `ws.close()` / `ws.terminate()`: an open socket leaves the OPEN state at
    once; a socket that is already closing or closed is left as it is.
   */
  function MarkClosing(w: World, id: ConnId): (w': World)
    ensures !IsOpen(w', id)
    ensures w'.conns.Keys == w.conns.Keys
    ensures forall t :: t in w.conns && t != id ==> w'.conns[t] == w.conns[t]
    ensures id in w.conns ==> w'.conns[id] == w.conns[id].(ready := w'.conns[id].ready)
    ensures id in w.conns ==> (w'.conns[id].ready != Closed <==> w.conns[id].ready != Closed)
    ensures w' == w.(conns := w'.conns)
  {
    if IsOpen(w, id) then w.(conns := w.conns[id := w.conns[id].(ready := Closing)]) else w
  }

  /** Changing only readiness and liveness of connections keeps a state valid. */
  lemma ConnFieldsKeepValid(w: World, w': World)
    requires Valid(w)
    requires w' == w.(conns := w'.conns)
    requires w'.conns.Keys == w.conns.Keys
    requires forall t :: t in w.conns ==> w'.conns[t].role == w.conns[t].role && w'.conns[t].code == w.conns[t].code
    ensures Valid(w')
  {
  }

  lemma MarkClosingKeepsValid(w: World, id: ConnId)
    requires Valid(w)
    ensures Valid(MarkClosing(w, id))
  {
    ConnFieldsKeepValid(w, MarkClosing(w, id));
  }
}
