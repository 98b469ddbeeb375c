/** The invariant holds in every state of every run. */
module SystemProofs {
  import opened Blocks
  import opened Basics
  import opened Sharers
  import opened Protocol
  import opened Invariant
  import opened HomeProofs
  import opened NodeProofs
  import opened Streams
  import opened StepProofs
  import opened NodeSteps

  function SeeNode(s: State, w: Wid): View { See(s.home, s.latest, TrafficMap(s), w) }

  lemma BeforeHolds(s: State, w: Wid)
    requires Inv(s) && w in s.nodes
    ensures Before(s.home, SeeNode(s, w), w, s.nodes[w])
  {
    var t := TrafficMap(s);
    assert NodeOk(See(s.home, s.latest, t, w), t[w]);
  }

  lemma NodeFrame(s: State, w: Wid, o: NodeOut)
    requires w in s.nodes && o.send.None?
    ensures TrafficMap(AfterNode(s, w, o).state) == TrafficMap(s)[w := TrafficOf(s.home, w, o.node)]
  {
  }

  lemma SendFrame(s: State, w: Wid, o: NodeOut, t: map<Wid, Traffic>)
    requires w in s.nodes && o.send.Some? && o.send.value.0 in s.nodes && o.send.value.0 != w && t == TrafficMap(s)
    ensures var r, m := o.send.value.0, o.send.value.1;
      TrafficMap(AfterNode(s, w, o).state) == t[w := TrafficOf(s.home, w, o.node)][r := t[r].(peer := t[r].peer + [m])]
  {
  }

  lemma StillFramed(s: State, w: Wid, o: NodeOut)
    requires Framed(s) && w in s.nodes && DataFirst(s.home.parked, w, o.node.up)
    ensures Framed(AfterNode(s, w, o).state)
  {
    var s' := AfterNode(s, w, o).state;
    forall u | u in s'.nodes ensures DataFirst(s'.home.parked, u, s'.nodes[u].up) {
      assert s'.nodes[u].up == if u == w then o.node.up else s.nodes[u].up;
    }
  }

  lemma QuietKeeps(s: State, w: Wid, o: NodeOut)
    requires Inv(s) && w in s.nodes && Quiet(s.home, SeeNode(s, w), w, s.nodes[w], o)
    ensures var r := AfterNode(s, w, o); Inv(r.state) && (r.read.Some? ==> r.read.value == r.state.latest)
  {
    QuietStep(s.home, s.latest, TrafficMap(s), w, TrafficOf(s.home, w, o.node));
    NodeFrame(s, w, o);
    StillFramed(s, w, o);
  }

  lemma CompletedKeeps(s: State, w: Wid, o: NodeOut)
    requires Inv(s) && w in s.nodes && Completed(s.home, SeeNode(s, w), w, s.nodes[w], o)
    ensures var r := AfterNode(s, w, o); Inv(r.state) && r.read.None?
  {
    WriteStep(s.home, s.latest, TrafficMap(s), w, TrafficOf(s.home, w, o.node), o.wrote.value);
    NodeFrame(s, w, o);
    StillFramed(s, w, o);
  }

  lemma AnsweredKeeps(s: State, w: Wid, o: NodeOut)
    requires Inv(s) && w in s.nodes && Replied(s.home, SeeNode(s, w), w, s.nodes[w], o)
    requires !s.home.pending.ForwardingRead? && !s.home.pending.ForwardingWrite?
    ensures var r := AfterNode(s, w, o); Inv(r.state) && r.read.None?
  {
    AnswerStep(s.home, s.latest, TrafficMap(s), w, TrafficOf(s.home, w, o.node));
    NodeFrame(s, w, o);
    StillFramed(s, w, o);
  }

  lemma ForwardedKeeps(s: State, w: Wid, o: NodeOut)
    requires Inv(s) && w in s.nodes && Replied(s.home, SeeNode(s, w), w, s.nodes[w], o)
    requires s.home.pending.ForwardingRead? || s.home.pending.ForwardingWrite?
    ensures var r := AfterNode(s, w, o); Inv(r.state) && r.read.None?
  {
    ForwardStep(s.home, s.latest, TrafficMap(s), w, TrafficOf(s.home, w, o.node));
    SendFrame(s, w, o, TrafficMap(s));
    StillFramed(s, w, o);
  }

  lemma RepliedKeeps(s: State, w: Wid, o: NodeOut)
    requires Inv(s) && w in s.nodes && Replied(s.home, SeeNode(s, w), w, s.nodes[w], o)
    ensures var r := AfterNode(s, w, o); Inv(r.state) && r.read.None?
  {
    if s.home.pending.ForwardingRead? || s.home.pending.ForwardingWrite? {
      ForwardedKeeps(s, w, o);
    } else {
      AnsweredKeeps(s, w, o);
    }
  }

  /** A demand on the way belongs to the pending work of the home worker. */
  lemma DemandBelongs(h: Home, latest: Block, t: map<Wid, Traffic>, w: Wid, d: DownMsg)
    requires Good(h, latest, t) && w in t && (d in t[w].demands || d in t[w].waiting)
    ensures var v := See(h, latest, t, w);
      && v.owes == Some(d) && v.role.NoRole? && IsDemand(d) && Holding(v, t[w], d)
      && (v.owner <==> !(d.Invalidate? || d.InvalidateForward?))
  {
    assert NodeOk(See(h, latest, t, w), t[w]);
    if |h.shared| == 1 { SingleEntry(h.shared, w); }
  }

  lemma DownDemanding(s: State, w: Wid)
    requires Inv(s) && w in s.nodes && s.nodes[w].down != [] && IsDemand(s.nodes[w].down[0])
    ensures var n := s.nodes[w]; Demanding(s.home, SeeNode(s, w), w, n, n.(down := n.down[1..]), n.down[0])
  {
    var n, t := s.nodes[w], TrafficMap(s);
    BeforeHolds(s, w);
    TakeDemand(s.home, w, n);
    DemandBelongs(s.home, s.latest, t, w, n.down[0]);
  }

  lemma ParkedDemanding(s: State, w: Wid)
    requires Inv(s) && w in s.nodes && s.nodes[w].parked != []
    ensures var n := s.nodes[w]; Demanding(s.home, SeeNode(s, w), w, n, n.(parked := n.parked[1..]), n.parked[0])
  {
    var n, t := s.nodes[w], TrafficMap(s);
    BeforeHolds(s, w);
    DemandBelongs(s.home, s.latest, t, w, n.parked[0]);
  }

  lemma DemandKeeps(s: State, w: Wid, n': Node, d: DownMsg)
    requires Inv(s) && w in s.nodes && Demanding(s.home, SeeNode(s, w), w, s.nodes[w], n', d)
    ensures var r := AfterNode(s, w, ServeDemand(n', d)); Inv(r.state) && r.read.None?
  {
    var h, v, n, o := s.home, SeeNode(s, w), s.nodes[w], ServeDemand(n', d);
    if d.FetchAndShared? || d.ReadForward? { ReadCacheAt(h, v, w, n, n', d); }
    else if d.Invalidate? || d.InvalidateForward? {
      if n.line.CacheToShared? { InvalidateWaits(h, v, w, n, n', d); } else { InvalidateAcked(h, v, w, n, n', d); }
    }
    else { WriteCacheAt(h, v, w, n, n', d); }
    if Replied(h, v, w, n, o) { RepliedKeeps(s, w, o); } else { QuietKeeps(s, w, o); }
  }

  // ----- all steps -----

  lemma HomeKeeps(s: State, step: Step)
    requires Inv(s) && Enabled(s, step)
    requires step.HomeLocalRead? || step.HomeLocalWrite? || step.HomeServeParked? || step.HomeReceive?
    ensures var r := Perform(s, step); Inv(r.state) && (r.read.Some? ==> r.read.value == r.state.latest)
  {
    match step
    case HomeLocalRead => LocalKeeps(s, step);
    case HomeLocalWrite(_) => LocalKeeps(s, step);
    case HomeServeParked => ServeParkedKeeps(s);
    case HomeReceive(w) =>
      var m := s.nodes[w].up[0];
      if m.WriteBackData? { ReceiveDataKeeps(s, w); }
      else if IsReply(m) { ReceiveReplyKeeps(s, w); }
      else if InTransition(s.home.state) { ParkRequestKeeps(s, w); }
      else { ReceiveRequestKeeps(s, w); }
  }

  /** A read served by a line that is on its way out. */
  predicate ReadsLeaving(s: State, step: Step) {
    step.NodeRead? && step.wid in s.nodes && s.nodes[step.wid].line.CacheToInvalid?
  }

  lemma ReadKeeps(s: State, w: Wid, ptr: Ptr)
    requires Inv(s) && w in s.nodes
    ensures var r := Perform(s, NodeRead(w, ptr));
      Inv(r.state) && (r.read.Some? && !ReadsLeaving(s, NodeRead(w, ptr)) ==> r.read.value == r.state.latest)
  {
    hide Inv, Quiet, Before;
    var n := s.nodes[w];
    BeforeHolds(s, w);
    ReadAt(s.home, SeeNode(s, w), w, n, ptr);
    QuietKeeps(s, w, if n.line.CacheToInvalid? then NOut(n, true) else CacheRead(n, ptr));
  }

  lemma WriteKeeps(s: State, w: Wid, ptr: Ptr, init: Block, store: Store)
    requires Inv(s) && w in s.nodes
    ensures var r := Perform(s, NodeWrite(w, ptr, init, store)); Inv(r.state) && r.read.None?
  {
    hide Inv, Quiet, Completed, Before;
    var n, o := s.nodes[w], CacheWrite(s.nodes[w], ptr, init, store);
    BeforeHolds(s, w);
    WriteAt(s.home, SeeNode(s, w), w, n, ptr, init, store);
    if n.line.CacheDirty? { CompletedKeeps(s, w, o); } else { QuietKeeps(s, w, o); }
  }

  lemma LeaveKeeps(s: State, step: Step)
    requires Inv(s) && Enabled(s, step) && (step.NodeEvict? || step.NodeSendDone?)
    ensures var r := Perform(s, step); Inv(r.state) && r.read.None?
  {
    hide Inv, Quiet, Before;
    var w := step.wid;
    var h, v, n := s.home, SeeNode(s, w), s.nodes[w];
    BeforeHolds(s, w);
    if step.NodeEvict? {
      if n.line.CacheDirty? { EvictDirtyAt(h, v, w, n); } else { EvictSharedAt(h, v, w, n); }
      QuietKeeps(s, w, Evict(n));
    } else {
      SendDoneAt(h, v, w, n);
      QuietKeeps(s, w, SendDone(n));
    }
  }

  lemma LocalNodeKeeps(s: State, step: Step)
    requires Inv(s) && Enabled(s, step)
    requires step.NodeRead? || step.NodeWrite? || step.NodeEvict? || step.NodeSendDone?
    ensures var r := Perform(s, step);
      Inv(r.state) && (r.read.Some? && !ReadsLeaving(s, step) ==> r.read.value == r.state.latest)
  {
    hide Inv, Perform;
    match step
    case NodeRead(w, ptr) => ReadKeeps(s, w, ptr);
    case NodeWrite(w, ptr, init, store) => WriteKeeps(s, w, ptr, init, store);
    case _ => LeaveKeeps(s, step);
  }

  lemma ServeParkedNodeKeeps(s: State, w: Wid)
    requires Inv(s) && Enabled(s, NodeServeParked(w))
    ensures var r := Perform(s, NodeServeParked(w)); Inv(r.state) && r.read.None?
  {
    var n := s.nodes[w];
    ParkedDemanding(s, w);
    DemandKeeps(s, w, n.(parked := n.parked[1..]), n.parked[0]);
  }

  lemma DemandIsServed(s: State, w: Wid)
    requires Enabled(s, NodeReceive(w)) && IsDemand(s.nodes[w].down[0])
    ensures var n := s.nodes[w];
      Perform(s, NodeReceive(w)) == AfterNode(s, w, ServeDemand(n.(down := n.down[1..]), n.down[0]))
  {
  }

  lemma ReceiveDemandKeeps(s: State, w: Wid)
    requires Inv(s) && Enabled(s, NodeReceive(w)) && IsDemand(s.nodes[w].down[0])
    ensures var r := Perform(s, NodeReceive(w)); Inv(r.state) && r.read.None?
  {
    var n := s.nodes[w];
    DownDemanding(s, w);
    DemandKeeps(s, w, n.(down := n.down[1..]), n.down[0]);
    DemandIsServed(s, w);
  }

  lemma ReceiveGrantKeeps(s: State, w: Wid)
    requires Inv(s) && Enabled(s, NodeReceive(w)) && !IsDemand(s.nodes[w].down[0])
    ensures var r := Perform(s, NodeReceive(w)); Inv(r.state) && (r.read.Some? ==> r.read.value == r.state.latest)
  {
    var n := s.nodes[w];
    BeforeHolds(s, w);
    GrantAt(s.home, SeeNode(s, w), w, n);
    var o := FromHome(n.(down := n.down[1..]), n.down[0]);
    if o.wrote.Some? { CompletedKeeps(s, w, o); } else { QuietKeeps(s, w, o); }
  }

  lemma ReceivePeerKeeps(s: State, w: Wid, i: nat)
    requires Inv(s) && Enabled(s, NodeReceivePeer(w, i))
    ensures var r := Perform(s, NodeReceivePeer(w, i));
      Inv(r.state) && (r.read.Some? ==> r.read.value == r.state.latest)
  {
    var n := s.nodes[w];
    BeforeHolds(s, w);
    PeerAt(s.home, SeeNode(s, w), w, n, i);
    var o := FromPeer(n.(peer := n.peer[..i] + n.peer[i+1..]), n.peer[i]);
    if o.wrote.Some? { CompletedKeeps(s, w, o); } else { QuietKeeps(s, w, o); }
  }

  lemma ReceiveKeeps(s: State, step: Step)
    requires Inv(s) && Enabled(s, step)
    requires step.NodeServeParked? || step.NodeReceive? || step.NodeReceivePeer?
    ensures var r := Perform(s, step); Inv(r.state) && (r.read.Some? ==> r.read.value == r.state.latest)
  {
    match step
    case NodeServeParked(w) => ServeParkedNodeKeeps(s, w);
    case NodeReceive(w) =>
      if IsDemand(s.nodes[w].down[0]) { ReceiveDemandKeeps(s, w); } else { ReceiveGrantKeeps(s, w); }
    case NodeReceivePeer(w, i) => ReceivePeerKeeps(s, w, i);
  }

  /** Every step keeps the invariant, and whatever it returns to a local reader is the
      result of all writes completed so far, unless the line is on its way out. */
  lemma StepKeeps(s: State, step: Step)
    requires Inv(s) && Enabled(s, step)
    ensures Inv(Perform(s, step).state)
    ensures var r := Perform(s, step); r.read.Some? && !ReadsLeaving(s, step) ==> r.read.value == r.state.latest
  {
    if step.HomeLocalRead? || step.HomeLocalWrite? || step.HomeServeParked? || step.HomeReceive? { HomeKeeps(s, step); }
    else if step.NodeRead? || step.NodeWrite? || step.NodeEvict? || step.NodeSendDone? { LocalNodeKeeps(s, step); }
    else { ReceiveKeeps(s, step); }
  }

  lemma InitKeeps(s: State)
    requires Init(s)
    ensures Inv(s)
  {
    var t := TrafficMap(s);
    forall w | w in t ensures NodeOk(See(s.home, s.latest, t, w), t[w]) {
      assert s.nodes[w] == Node(Absent, [], [], [], []);
    }
  }
}
