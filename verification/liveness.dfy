/**
  The liveness sweep run every 15 seconds over `wss.clients`: a client that
  has not answered the previous probe is terminated, every other client is
  marked not-alive and probed. The pong that answers a probe is
  `Handlers.OnPong`.
 */
module Liveness {
  import opened Protocol
  import opened Registry

  /** One client after the sweep has visited it. */
  function Swept(c: Conn): Conn {
    if c.ready == Closed then c
    else if c.alive then c.(alive := false)
    else c.(ready := Closing)
  }

  /** What the sweep asks of the transport for connection `id`. */
  function SweepStep(conns: map<ConnId, Conn>, id: ConnId): seq<Action> {
    if id in conns && conns[id].ready != Closed then
      if conns[id].alive then [Probe(id)] else [Terminate(id)]
    else
      []
  }

  /**
    The actions for the connections accepted before the `k`-th, in acceptance
    order, which is the iteration order of `wss.clients`.
   */
  function SweepActions(conns: map<ConnId, Conn>, k: nat): seq<Action>
    decreases k
  {
    if k == 0 then [] else SweepActions(conns, k - 1) + SweepStep(conns, k - 1)
  }

  lemma {:induction false} SweepActionsMembers(conns: map<ConnId, Conn>, k: nat, id: ConnId)
    ensures Terminate(id) in SweepActions(conns, k)
      <==> id < k && id in conns && conns[id].ready != Closed && !conns[id].alive
    ensures Probe(id) in SweepActions(conns, k)
      <==> id < k && id in conns && conns[id].ready != Closed && conns[id].alive
    decreases k
  {
    if k > 0 {
      SweepActionsMembers(conns, k - 1, id);
    }
  }

  /**
    Every action is a termination or a probe, and the connections they name
    strictly increase along the list: acceptance order, each at most once.
   */
  predicate InAcceptanceOrder(out: seq<Action>) {
    && (forall i :: 0 <= i < |out| ==> out[i].Terminate? || out[i].Probe?)
    && (forall i, j :: 0 <= i < j < |out| ==> out[i].target < out[j].target)
  }

  lemma {:induction false} SweepActionsOrdered(conns: map<ConnId, Conn>, k: nat)
    ensures InAcceptanceOrder(SweepActions(conns, k))
    ensures forall i :: 0 <= i < |SweepActions(conns, k)| ==> SweepActions(conns, k)[i].target < k
    decreases k
  {
    if k > 0 {
      SweepActionsOrdered(conns, k - 1);
    }
  }

  /**
    One sweep: a client that did not answer is terminated and leaves OPEN, a
    client that did is probed and must answer again; each client gets exactly
    one of the two, and connections already closed are left alone.
   */
  function Sweep(w: World): (e: Effect)
    requires Valid(w)
    ensures Valid(e.next)
    ensures SlotsOnlyFill(w, e.next) && ConnsPersist(w, e.next)
    ensures e.next == w.(conns := e.next.conns)
    ensures e.next.conns.Keys == w.conns.Keys
    ensures forall id :: Terminate(id) in e.out <==> IsClient(w, id) && !w.conns[id].alive
    ensures forall id :: Probe(id) in e.out <==> IsClient(w, id) && w.conns[id].alive
    ensures InAcceptanceOrder(e.out)
    ensures forall id :: IsClient(w, id) ==> IsClient(e.next, id) && !e.next.conns[id].alive
    ensures forall id :: IsClient(w, id) && !w.conns[id].alive ==> e.next.conns[id].ready == Closing
    ensures forall id :: IsClient(w, id) && w.conns[id].alive ==> e.next.conns[id] == w.conns[id].(alive := false)
    ensures forall id :: id in w.conns && !IsClient(w, id) ==> e.next.conns[id] == w.conns[id]
  {
    var w' := w.(conns := map id | id in w.conns :: Swept(w.conns[id]));
    ConnFieldsKeepValid(w, w');
    var out := SweepActions(w.conns, w.nextConn);
    SweepActionsOrdered(w.conns, w.nextConn);
    forall id
      ensures Terminate(id) in out <==> IsClient(w, id) && !w.conns[id].alive
      ensures Probe(id) in out <==> IsClient(w, id) && w.conns[id].alive
    {
      SweepActionsMembers(w.conns, w.nextConn, id);
    }
    Effect(w', out)
  }

  /** The sweep as the loop over `wss.clients` performs it, one client at a time. */
  method RunSweep(w: World) returns (next: World, out: seq<Action>)
    requires Valid(w)
    ensures Effect(next, out) == Sweep(w)
  {
    var conns := w.conns;
    out := [];
    var i := 0;
    while i < w.nextConn
      invariant i <= w.nextConn
      invariant conns.Keys == w.conns.Keys
      invariant forall id :: id in w.conns ==> conns[id] == if id < i then Swept(w.conns[id]) else w.conns[id]
      invariant out == SweepActions(w.conns, i)
    {
      if i in conns && conns[i].ready != Closed {
        if !conns[i].alive {
          conns := conns[i := conns[i].(ready := Closing)];
          out := out + [Terminate(i)];
        } else {
          conns := conns[i := conns[i].(alive := false)];
          out := out + [Probe(i)];
        }
      }
      i := i + 1;
    }
    next := w.(conns := conns);
    assert conns == map id | id in w.conns :: Swept(w.conns[id]);
  }
}
