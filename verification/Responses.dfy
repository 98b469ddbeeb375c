/**
 What the workers answer, in every reached state: reads that hit return the block at once,
 reads that miss ask for it exactly once and return it when it comes, evicted lines go, and
 a demand is answered unless the line is still waiting for the block itself.
 */
module Responses {
  import opened Basics
  import opened Blocks
  import opened Sharers
  import opened Protocol
  import opened Invariant
  import opened SystemProofs
  import opened Coherence
  import opened WriteHistory

  // ----- reads -----

  /** A hit returns the block at once. */
  lemma ReadHit(s: State, w: Wid, ptr: Ptr)
    requires Reached(s) && w in s.nodes && (s.nodes[w].line.CacheShared? || s.nodes[w].line.CacheDirty?)
    ensures Enabled(s, NodeRead(w, ptr)) && Perform(s, NodeRead(w, ptr)) == Result(s, Some(s.latest))
  {
    hide Reached;
    DataValue(s);
    SameNode(s, w);
    NothingUnexpected(s);
  }

  lemma SameNode(s: State, w: Wid)
    requires w in s.nodes
    ensures s.nodes[w := s.nodes[w]] == s.nodes
  {
  }

  predicate IsRead(m: UpMsg) { m.Read? }

  /** A miss sends one request, with the address of the new line, and no other is on its way. */
  lemma ReadMiss(s: State, w: Wid, ptr: Ptr)
    requires Reached(s) && w in s.nodes && s.nodes[w].line.Absent?
    ensures Enabled(s, NodeRead(w, ptr))
    ensures var r, n := Perform(s, NodeRead(w, ptr)), s.nodes[w];
      r == Result(s.(nodes := s.nodes[w := n.(line := CacheToShared(ptr), up := n.up + [Read(ptr)])]), None)
    ensures forall m | m in s.nodes[w].up :: !IsRead(m)
    ensures forall p | p in s.home.parked && p.wid == w :: !IsRead(p.msg)
  {
    hide Reached, Inv, TrafficOf;
    NothingUnexpected(s);
    ReachedInv(s);
    NoReadYet(s, w);
  }

  lemma NoReadYet(s: State, w: Wid)
    requires Inv(s) && w in s.nodes && s.nodes[w].line.Absent?
    ensures forall m | m in s.nodes[w].up :: !IsRead(m)
    ensures forall p | p in s.home.parked && p.wid == w :: !IsRead(p.msg)
  {
    hide Inv, NodeOk, IsRead;
    NodeFacts(s, w);
    var t := TrafficOf(s.home, w, s.nodes[w]);
    AbsentAsks(See(s, w), t);
    forall m | m in s.nodes[w].up ensures !IsRead(m) {
      RequestIn(s.nodes[w].up, m);
      if IsReply(m) { ReplyIsNoRead(m); }
    }
    forall p | p in s.home.parked && p.wid == w ensures !IsRead(p.msg) { ParkedIn(s.home.parked, p); }
  }

  lemma ReplyIsNoRead(m: UpMsg)
    requires IsReply(m)
    ensures !IsRead(m)
  {
  }

  function See(s: State, w: Wid): View { ViewOf(s.home, Granted(s.home, TrafficMap(s)), s.latest, w) }

  lemma AbsentAsks(v: View, t: Traffic)
    requires NodeOk(v, t) && t.line.Absent?
    ensures forall m | m in t.asks :: !IsRead(m)
  {
  }

  lemma {:induction false} RequestIn(up: seq<UpMsg>, m: UpMsg)
    requires m in up
    ensures !IsReply(m) ==> m in Requests(up)
  {
    if up[0] != m { RequestIn(up[1..], m); }
  }

  lemma {:induction false} ParkedIn(parked: seq<Parked>, p: Parked)
    requires p in parked
    ensures p.msg in ParkedOf(parked, p.wid)
  {
    if parked[0] != p { ParkedIn(parked[1..], p); }
  }

  /** A read of a line in transition waits outside. */
  lemma ReadWaits(s: State, w: Wid, ptr: Ptr)
    requires Reached(s) && w in s.nodes && (s.nodes[w].line.CacheToShared? || s.nodes[w].line.CacheToDirty?)
    ensures Perform(s, NodeRead(w, ptr)) == Result(s, None)
  {
    hide Reached;
    SameNode(s, w);
    NothingUnexpected(s);
  }

  /** The block a reader has asked for is returned in the step that brings it. */
  lemma ReadArrives(s: State, step: Step, w: Wid)
    requires Reached(s) && Enabled(s, step) && w in s.nodes && s.nodes[w].line.CacheToShared?
    requires w in Perform(s, step).state.nodes && !Perform(s, step).state.nodes[w].line.CacheToShared?
    ensures var r := Perform(s, step);
      && r.read == Some(r.state.latest)
      && r.state.nodes[w].line == CacheShared(s.nodes[w].line.ptr, r.state.latest)
  {
    hide Reached, Perform, Inv, Run, RunHome;
    ReachedInv(s);
    StepKeeps(s, step);
    var s' := Perform(s, step).state;
    if PlaceOf(step).AtHome? {
      RunHomePerforms(s, step);
      assert false;
    }
    RunPerforms(s, step);
    if step.wid != w {
      OtherLine(s, step.wid, Run(s, step).1, w);
      assert false;
    }
    StepOk(s, step);
    RunReads(s, step);
    OwnLine(s, w, Run(s, step).1);
    SharedData(s', w);
  }

  lemma OtherLine(s: State, v: Wid, o: NodeOut, w: Wid)
    requires v in s.nodes && w in s.nodes && v != w
    ensures var s' := AfterNode(s, v, o).state; w in s'.nodes && s'.nodes[w].line == s.nodes[w].line
  {
  }

  lemma OwnLine(s: State, w: Wid, o: NodeOut)
    requires w in s.nodes
    ensures var r := AfterNode(s, w, o);
      w in r.state.nodes && r.state.nodes[w].line == o.node.line && r.read == o.read
  {
  }

  lemma SharedData(s: State, w: Wid)
    requires Inv(s) && w in s.nodes && s.nodes[w].line.CacheShared?
    ensures s.nodes[w].line.data == s.latest
  {
    NodeFacts(s, w);
  }

  /** A waiting line gets its block from a reply and from nothing else. */
  lemma RunReads(s: State, step: Step)
    requires Enabled(s, step) && PlaceOf(step).AtWorker? && Run(s, step).1.ok && Run(s, step).0.line.CacheToShared?
    ensures var l, o := Run(s, step).0.line, Run(s, step).1;
      || o.node.line == l
      || (o.node.line.CacheShared? && o.node.line.ptr == l.ptr && o.read == Some(o.node.line.data))
  {
  }

  /** A local read at the home worker: at once from memory, or from the owner. */
  lemma HomeReadHit(s: State)
    requires Reached(s) && (s.home.state.DirUnshared? || s.home.state.DirShared?)
    ensures Enabled(s, HomeLocalRead) && Perform(s, HomeLocalRead) == Result(s, Some(s.latest))
  {
    hide Reached;
    DataValue(s);
    NothingUnexpected(s);
    assert Post(s.nodes, map[]) == s.nodes;
  }

  lemma HomeReadMiss(s: State)
    requires Reached(s) && s.home.state.DirDirty?
    ensures Enabled(s, HomeLocalRead) && |s.home.shared| == 1 && s.home.shared[0].wid in s.nodes
    ensures var r, w := Perform(s, HomeLocalRead), s.home.shared[0].wid;
      && r.read.None? && r.state.home == s.home.(state := DirToShared, pending := FetchingShared)
      && r.state.nodes == s.nodes[w := s.nodes[w].(down := s.nodes[w].down + [FetchAndShared])]
  {
    hide Reached, Inv;
    ReachedInv(s);
    DirtyOwner(s);
    SingleEntry(s.home.shared, s.home.shared[0].wid);
    PostOne(s.nodes, s.home.shared[0].wid, FetchAndShared);
  }

  lemma DirtyOwner(s: State)
    requires Inv(s) && s.home.state.DirDirty?
    ensures |s.home.shared| == 1 && s.home.shared[0].wid in s.nodes
  {
    hide NodeOk, TrafficOf;
    if |s.home.shared| == 1 { SingleEntry(s.home.shared, s.home.shared[0].wid); }
  }

  lemma PostOne(nodes: map<Wid, Node>, w: Wid, m: DownMsg)
    requires w in nodes
    ensures Post(nodes, map[w := [m]]) == nodes[w := nodes[w].(down := nodes[w].down + [m])]
  {
  }

  /** The owner's copy is returned to the local reader when it comes. */
  lemma HomeReadArrives(s: State, step: Step)
    requires Reached(s) && Enabled(s, step) && s.home.pending.FetchingShared?
    requires !Perform(s, step).state.home.pending.FetchingShared?
    ensures var r := Perform(s, step);
      r.read == Some(r.state.latest) && r.state.home.state.DirShared? && r.state.home.mem == r.state.latest
  {
    hide Reached, Inv, Perform, RunHome, Run;
    ReachedInv(s);
    StepKeeps(s, step);
    KnownDir(s);
    KnownDir(Perform(s, step).state);
    if PlaceOf(step).AtWorker? {
      RunPerforms(s, step);
      assert false;
    }
    RunHomePerforms(s, step);
    FetchEnds(s, step);
    MemLatest(Perform(s, step).state);
  }

  lemma FetchEnds(s: State, step: Step)
    requires Enabled(s, step) && PlaceOf(step).AtHome? && DirOk(s.home) && s.home.pending.FetchingShared?
    requires RunHome(s, step).ok && !RunHome(s, step).home.pending.FetchingShared?
    ensures var o := RunHome(s, step); o.read == Some(o.home.mem) && o.home.state.DirShared?
  {
    hide Serve, LocalWrite, LocalRead;
  }

  lemma MemLatest(s: State)
    requires Inv(s)
    ensures s.home.state.DirShared? ==> s.home.mem == s.latest
  {
  }

  // ----- evictions -----

  /** An evicted line goes at once with a notice if it is clean, and is written back first
      if it is dirty; lines in transition are passed over. */
  lemma EvictsLine(s: State, w: Wid)
    requires Reached(s) && w in s.nodes
    ensures var s', n := Perform(s, NodeEvict(w)).state, s.nodes[w];
      match n.line
      case CacheShared(ptr, _) =>
        s' == s.(nodes := s.nodes[w := n.(line := Absent, up := n.up + [ActiveInvalidate(ptr)])])
      case CacheDirty(ptr, _) =>
        s' == s.(nodes := s.nodes[w := n.(line := CacheToInvalid(ptr, s.latest, true),
                                          up := n.up + [WriteBackData(s.latest), WriteBack(ptr)])])
      case _ => s' == s
  {
    hide Reached;
    NothingUnexpected(s);
    DataValue(s);
    SameNode(s, w);
  }

  /** A line that was passed on goes when its last message has left. */
  lemma PassedLineGoes(s: State, w: Wid)
    requires Reached(s) && w in s.nodes
    ensures var s', n := Perform(s, NodeSendDone(w)).state, s.nodes[w];
      if n.line.CacheToInvalid? && !n.line.evicting then s' == s.(nodes := s.nodes[w := n.(line := Absent)])
      else s' == s
  {
    hide Reached;
    NothingUnexpected(s);
    SameNode(s, w);
  }

  // ----- demands -----

  /** The answer to the home worker. */
  function Answer(d: DownMsg, latest: Block): UpMsg
    requires IsDemand(d)
  {
    match d
    case FetchAndShared => FetchSharedReply(latest)
    case ReadForward(_, _) => ReadForwardReply(latest)
    case FetchAndInvalidate => FetchInvalidateReply(latest)
    case Invalidate => InvalidateAck
    case InvalidateForward => InvalidateForwardAck
    case WriteForward(_, _) => WriteForwardAck
  }

  /** What goes to the worker that asked. */
  function Forwarded(d: DownMsg, latest: Block): Option<(Wid, PeerMsg)> {
    match d
    case ReadForward(r, ptr) => Some((r, ReadData(ptr, latest)))
    case WriteForward(r, ptr) => Some((r, OwnershipData(ptr, latest)))
    case _ => None
  }

  /** The line waits for the block itself, so that the demand has to wait, too. */
  predicate Busy(l: Line, d: DownMsg) {
    if d.Invalidate? || d.InvalidateForward? then l.CacheToShared? else l.CacheToDirty?
  }

  /** The line after the answer: a reader leaves the owner a copy, a writer does not. */
  function Left(l: Line, d: DownMsg, latest: Block): Line {
    if l.CacheDirty? && (d.FetchAndShared? || d.ReadForward?) then CacheShared(l.ptr, latest)
    else if l.CacheDirty? then CacheToInvalid(l.ptr, latest, false)
    else if l.CacheShared? then Absent
    else l
  }

  /** A demand of a worker, from its channel or parked before, is answered with the block
      as it is, unless it finds the line busy. */
  lemma DemandAnswered(s: State, step: Step)
    requires Reached(s) && Enabled(s, step) && (step.NodeReceive? || step.NodeServeParked?)
    requires var n := s.nodes[step.wid]; IsDemand(if step.NodeReceive? then n.down[0] else n.parked[0])
    ensures var n := s.nodes[step.wid];
      var d := if step.NodeReceive? then n.down[0] else n.parked[0];
      var n', o := Run(s, step).0, Run(s, step).1;
      if Busy(n.line, d) then o == NOut(n'.(parked := n'.parked + [d]), true)
      else o == NodeOut(n'.(line := Left(n.line, d, s.latest), up := n.up + [Answer(d, s.latest)]),
                        Forwarded(d, s.latest), None, None, true)
    ensures Perform(s, step) == AfterNode(s, step.wid, Run(s, step).1)
  {
    hide Reached, Perform, Inv, AfterNode;
    var w, n := step.wid, s.nodes[step.wid];
    var d := if step.NodeReceive? then n.down[0] else n.parked[0];
    ReachedInv(s);
    StepKeeps(s, step);
    RunPerforms(s, step);
    StepOk(s, step);
    if !d.Invalidate? && !d.InvalidateForward? { OwnerHasTheCopy(s, w, d); }
    Demanded(Run(s, step).0, d, s.latest);
  }

  lemma Demanded(n: Node, d: DownMsg, latest: Block)
    requires IsDemand(d) && ServeDemand(n, d).ok
    requires d.Invalidate? || d.InvalidateForward? || n.line.CacheToDirty?
      || ((n.line.CacheDirty? || (n.line.CacheToInvalid? && n.line.evicting)) && n.line.data == latest)
    ensures ServeDemand(n, d) ==
      if Busy(n.line, d) then NOut(n.(parked := n.parked + [d]), true)
      else NodeOut(n.(line := Left(n.line, d, latest), up := n.up + [Answer(d, latest)]),
                   Forwarded(d, latest), None, None, true)
  {
  }
}
