/**
 The handlers' preconditions hold whenever the protocol calls them: in every reached
 state the next message of each channel, the parked queue and each local request meet
 what `HomeWorker` and `CacheWorker` require.
 */
module Readiness {
  import opened Blocks
  import opened Sharers
  import opened Protocol
  import opened Invariant
  import opened HomeProofs
  import opened StepProofs
  import opened HomeWorkers
  import ReplyProofs
  import SystemProofs
  import Coherence

  lemma ServedAdmissible(h: Home, latest: Block, t: map<Wid, Traffic>, w: Wid, m: UpMsg)
    requires Good(h, latest, t) && IsRequest(m) && Served(h, latest, t, w, m)
    ensures Admissible(h, w, m, t.Keys)
  {
    ServeGood(h, latest, t, w, m);
    if m.Read? {
      assert NodeOk(See(h, latest, t, w), t[w]);
      StableView(h, latest, t, w);
      EntryWids(h.shared, w);
    }
  }

  /** Which requests are parked makes no difference to serving one. */
  lemma ServeFrame(h: Home, parked: seq<Parked>, w: Wid, m: UpMsg)
    requires IsRequest(m)
    ensures Serve(h.(parked := parked), w, m) == Serve(h, w, m).(home := Serve(h, w, m).home.(parked := parked))
  {
  }

  lemma {:induction false} ParkAdmissible(h: Home, q: seq<Parked>, workers: set<Wid>)
    requires InTransition(h.state) && Wids(h.shared) <= workers
    requires forall p | p in q :: IsRequest(p.msg) && p.wid in workers
    ensures AllAdmissible(h, q, workers)
    decreases |q|
  {
    if q != [] { ParkAdmissible(h.(parked := h.parked + [Parked(q[0].wid, q[0].msg)]), q[1..], workers); }
  }

  /** The parked requests can be served, one after the other. */
  lemma {:induction false} QueueReady(s: State)
    requires Inv(s)
    ensures AllAdmissible(s.home.(parked := []), s.home.parked, s.nodes.Keys)
    decreases |s.home.parked|
  {
    hide Good, Serve, NodeOk;
    var h, q := s.home, s.home.parked;
    if q == [] {
    } else if InTransition(h.state) {
      KnownSharers(s);
      ParkAdmissible(h.(parked := []), q, s.nodes.Keys);
    } else {
      HeadReady(s);
      ServeParkedKeeps(s);
      NextQueue(s);
      QueueReady(Perform(s, HomeServeParked).state);
    }
  }

  /** Serving the first parked request leaves the others parked. */
  lemma NextQueue(s: State)
    requires Inv(s) && Enabled(s, HomeServeParked)
    ensures var s', p := Perform(s, HomeServeParked).state, s.home.parked[0];
      && IsRequest(p.msg) && s'.home.parked == s.home.parked[1..] && s'.nodes.Keys == s.nodes.Keys
      && s'.home.(parked := []) == HandleRequest(s.home.(parked := []), p.wid, p.msg).home
  {
    hide Serve, Good;
    var p, rest := s.home.parked[0], s.home.parked[1..];
    assert p in s.home.parked;
    ServeFrame(s.home.(parked := []), rest, p.wid, p.msg);
    assert s.home.(parked := []).(parked := rest) == s.home.(parked := rest);
    ServeKeepsParked(s.home.(parked := []), p.wid, p.msg);
  }

  lemma KnownSharers(s: State)
    requires Inv(s)
    ensures Wids(s.home.shared) <= s.nodes.Keys && TrafficMap(s).Keys == s.nodes.Keys
  {
  }

  lemma HeadReady(s: State)
    requires Inv(s) && Enabled(s, HomeServeParked)
    ensures Admissible(s.home.(parked := []), s.home.parked[0].wid, s.home.parked[0].msg, s.nodes.Keys)
  {
    hide Serve, NodeOk;
    var p, h, t := s.home.parked[0], s.home.(parked := s.home.parked[1..]), TrafficMap(s);
    KnownSharers(s);
    UnparkTraffic(s, s.(home := h), t);
    ParkedIrrelevant(s.home, h.parked, s.latest, t);
    ServedAdmissible(h, s.latest, t, p.wid, p.msg);
    ServeFrame(h, [], p.wid, p.msg);
    assert h.(parked := []) == s.home.(parked := []);
  }

  /** A request that arrives can be handled. */
  lemma RequestReady(s: State, w: Wid)
    requires Coherence.Reached(s) && Enabled(s, HomeReceive(w)) && IsRequest(s.nodes[w].up[0])
    ensures Admissible(s.home, w, s.nodes[w].up[0], s.nodes.Keys)
  {
    hide Serve, NodeOk;
    Coherence.ReachedInv(s);
    KnownSharers(s);
    if !InTransition(s.home.state) {
      PopAsk(s, w, TrafficMap(s));
      ServedAdmissible(s.home, s.latest, TrafficMap(s), w, s.nodes[w].up[0]);
    }
  }

  /** The parked queue can be served whenever it gets its turn. */
  lemma DrainReady(s: State)
    requires Coherence.Reached(s)
    ensures forall p | p in s.home.parked :: IsRequest(p.msg)
    ensures AllAdmissible(s.home.(parked := []), s.home.parked, s.nodes.Keys)
  {
    Coherence.ReachedInv(s);
    QueueReady(s);
  }

  /** A local thread's request finds only known workers in the directory. */
  lemma LocalReady(s: State)
    requires Coherence.Reached(s)
    ensures Wids(s.home.shared) <= s.nodes.Keys
    ensures !InTransition(s.home.state) ==> LocalRead(s.home).ok && s.home.pending.Idle?
  {
    Coherence.ReachedInv(s);
    KnownSharers(s);
  }

  /** A reply that arrives meets the pending work it belongs to. */
  lemma ReplyReady(s: State, w: Wid)
    requires Coherence.Reached(s) && Enabled(s, HomeReceive(w)) && IsReply(s.nodes[w].up[0])
    ensures var h, m := s.home, s.nodes[w].up[0];
      && w in Wids(h.shared)
      && (m.FetchInvalidateReply? || m.InvalidateAck? ==>
            h.state.DirToUnshared? && h.pending.Invalidating? && (h.pending.fetch <==> m.FetchInvalidateReply?)
              && h.pending.counter == |h.shared|)
      && (m.InvalidateForwardAck? ==> h.state.DirToDirty? && h.pending.InvalidatingForward? && h.pending.wid in s.nodes)
      && (m.FetchSharedReply? ==> h.state.DirToShared? && h.pending.FetchingShared?)
      && (m.ReadForwardReply? ==> h.state.DirToShared? && h.pending.ForwardingRead? && h.shared[0].wid != h.pending.wid)
      && (m.WriteForwardAck? ==> h.state.DirToDirty? && h.pending.ForwardingWrite? && h.pending.wid in s.nodes)
  {
    hide NodeOk;
    Coherence.ReachedInv(s);
    ReplyFirst(s, w);
    ReplyProofs.ReplyMatches(s.home, s.latest, TrafficMap(s), w, s.nodes[w].up[0]);
    KnownSharers(s);
  }

  /** A message for a cache worker can be handled. */
  lemma CacheReady(s: State, step: Step)
    requires Coherence.Reached(s) && Enabled(s, step)
    requires step.NodeReceive? || step.NodeReceivePeer? || step.NodeServeParked?
    ensures var n := s.nodes[step.wid];
      && (step.NodeReceive? ==> FromHome(n.(down := n.down[1..]), n.down[0]).ok)
      && (step.NodeReceivePeer? ==>
        FromPeer(n.(peer := n.peer[..step.index] + n.peer[step.index + 1..]), n.peer[step.index]).ok)
      && (step.NodeServeParked? ==> IsDemand(n.parked[0]) && ServeDemand(n.(parked := n.parked[1..]), n.parked[0]).ok)
  {
    hide Inv;
    Coherence.ReachedInv(s);
    SystemProofs.StepKeeps(s, step);
    InvIsOk(Perform(s, step).state);
  }

  lemma InvIsOk(s: State)
    requires Inv(s)
    ensures s.ok
  {
  }
}
