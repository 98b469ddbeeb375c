/**
 A line on its way out may serve a stale read: a run in which it does, and what exactly
 such a line serves.
 */
module StaleRead {
  import opened Basics
  import opened Blocks
  import opened Sharers
  import opened Protocol
  import opened SystemProofs
  import opened Coherence

  lemma {:induction false} LegalAppend(s: State, steps: seq<Step>, step: Step)
    requires Legal(s, steps) && Enabled(After(s, steps), step)
    ensures Legal(s, steps + [step]) && After(s, steps + [step]) == Perform(After(s, steps), step).state
    decreases |steps|
  {
    hide Enabled, Perform;
    if steps == [] {
      assert steps + [step] == [step] && [step][1..] == [];
    } else {
      assert (steps + [step])[1..] == steps[1..] + [step];
      LegalAppend(Perform(s, steps[0]).state, steps[1..], step);
    }
  }

  lemma ReachedStep(s: State, step: Step)
    requires Reached(s) && Enabled(s, step)
    ensures Reached(Perform(s, step).state)
  {
    hide Enabled, Perform, Init;
    var s0, steps :| Init(s0) && Legal(s0, steps) && After(s0, steps) == s;
    LegalAppend(s0, steps, step);
  }

  function System(h: Home, n: Node, latest: Block): State { State(h, map[1 := n], latest, true) }

  function Quiescent(l: Line): Node { Node(l, [], [], [], []) }

  /** A step of the worker, by the outcome of its handler. */
  lemma WorkerStep(h: Home, n: Node, latest: Block, step: Step, o: NodeOut)
    requires Reached(System(h, n, latest)) && Enabled(System(h, n, latest), step)
    requires Perform(System(h, n, latest), step) == AfterNode(System(h, n, latest), 1, o) && o.ok && o.send.None?
    ensures Reached(System(h, o.node, Latest(latest, o.wrote)))
  {
    hide Perform, Enabled, Reached;
    ReachedStep(System(h, n, latest), step);
    assert map[1 := n][1 := o.node] == map[1 := o.node];
  }

  /** A step of the home worker, by the outcome of its handler; `n` is the worker with
      the message taken out of its channel. */
  lemma HomeStep(h: Home, n0: Node, n: Node, latest: Block, step: Step, o: HomeOut)
    requires Reached(System(h, n0, latest)) && Enabled(System(h, n0, latest), step)
    requires Perform(System(h, n0, latest), step) == AfterHome(System(h, n, latest), o) && o.ok && o.send.Keys <= {1}
    ensures Reached(System(o.home, n.(down := n.down + if 1 in o.send then o.send[1] else []), Latest(latest, o.wrote)))
  {
    hide Perform, Enabled, Reached;
    ReachedStep(System(h, n0, latest), step);
    assert n.down + [] == n.down;
    assert Post(map[1 := n], o.send) == map[1 := n.(down := n.down + if 1 in o.send then o.send[1] else [])];
  }

  function Full(v: int): Block { seq(BLOCK_SIZE, _ => v) }

  const OWNER := [Sharer(1, 7)]
  const ZEROES: Block := Full(0)
  const FIVES: Block := Full(5)
  const SIXES: Block := Full(6)
  const NINES: Block := Full(9)
  const FIVE := Store(0, FIVES)
  const SIX := Store(0, SIXES)
  const FREE := Home(DirUnshared, [], ZEROES, Idle, [])
  const OWNED := Home(DirDirty, OWNER, ZEROES, Idle, [])
  const FETCHING := Home(DirToUnshared, OWNER, ZEROES, Invalidating(true, 1, SIX), [])

  lemma Asked()
    ensures Reached(System(FREE, Node(CacheToDirty(7, NINES, false, FIVE, 0), [], [Write(7)], [], []), ZEROES))
  {
    var n := Quiescent(Absent);
    var s := System(FREE, n, ZEROES);
    assert Reached(s) by { assert Init(s) && Legal(s, []) && After(s, []) == s; }
    hide Reached;
    assert [] + [Write(7)] == [Write(7)];
    WorkerStep(FREE, n, ZEROES, NodeWrite(1, 7, NINES, FIVE), CacheWrite(n, 7, NINES, FIVE));
  }

  lemma Granted()
    ensures Reached(System(OWNED, Node(CacheToDirty(7, NINES, false, FIVE, 0), [], [],
      [LineData(7, ZEROES), WriteReply], []), ZEROES))
  {
    Asked();
    var n := Node(CacheToDirty(7, NINES, false, FIVE, 0), [], [Write(7)], [], []);
    var n' := n.(up := []);
    assert n.up[1..] == [] && map[1 := n][1 := n'] == map[1 := n'];
    HomeStep(FREE, n, n', ZEROES, HomeReceive(1), ServeWrite(FREE, 1, 7, false));
    assert [] + [LineData(7, ZEROES), WriteReply] == [LineData(7, ZEROES), WriteReply];
  }

  /** Worker 1 has written five and owns the block. */
  lemma Owned()
    ensures Reached(System(OWNED, Quiescent(CacheDirty(7, FIVES)), FIVES))
  {
    Granted();
    var n := Node(CacheToDirty(7, NINES, false, FIVE, 0), [], [], [LineData(7, ZEROES), WriteReply], []);
    assert n.down[1..] == [WriteReply];
    WorkerStep(OWNED, n, ZEROES, NodeReceive(1), FromHome(n.(down := [WriteReply]), n.down[0]));
    var n' := Node(CacheToDirty(7, ZEROES, false, FIVE, 0), [], [], [WriteReply], []);
    assert n'.down[1..] == [] && Patch(ZEROES, FIVE) == FIVES;
    WorkerStep(OWNED, n', ZEROES, NodeReceive(1), FromHome(n'.(down := []), WriteReply));
  }

  /** The home worker asks for the block in order to write six. */
  lemma Demanded()
    ensures Reached(System(FETCHING, Node(CacheDirty(7, FIVES), [], [], [FetchAndInvalidate], []), FIVES))
  {
    hide Reached;
    Owned();
    SingleEntry(OWNER, 1);
    var n, o := Quiescent(CacheDirty(7, FIVES)), LocalWrite(OWNED, SIX);
    assert o.send == map[1 := [FetchAndInvalidate]] && o.home == FETCHING;
    HomeStep(OWNED, n, n, FIVES, HomeLocalWrite(SIX), o);
    assert [] + [FetchAndInvalidate] == [FetchAndInvalidate];
  }

  lemma Fetched()
    ensures Reached(System(FETCHING, Node(CacheToInvalid(7, FIVES, false), [],
      [FetchInvalidateReply(FIVES)], [], []), FIVES))
  {
    hide Reached;
    Demanded();
    var n := Node(CacheDirty(7, FIVES), [], [], [FetchAndInvalidate], []);
    assert n.down[1..] == [] && [] + [FetchInvalidateReply(FIVES)] == [FetchInvalidateReply(FIVES)];
    WorkerStep(FETCHING, n, FIVES, NodeReceive(1), ServeWriteCache(n.(down := []), FetchAndInvalidate));
  }

  /** It has written six; the worker's line waits for its last message to be sent. */
  lemma Overwritten()
    ensures Reached(System(FREE.(mem := SIXES), Quiescent(CacheToInvalid(7, FIVES, false)), SIXES))
  {
    hide Reached;
    Fetched();
    SingleEntry(OWNER, 1);
    var n := Node(CacheToInvalid(7, FIVES, false), [], [FetchInvalidateReply(FIVES)], [], []);
    var n', o := Quiescent(n.line), Reply(FETCHING, 1, FetchInvalidateReply(FIVES));
    assert n.up[1..] == [] && map[1 := n][1 := n'] == map[1 := n'];
    assert Patch(FIVES, SIX) == SIXES && RemoveWid(OWNER, 1) == []
      && o.home == FREE.(mem := SIXES) && o.wrote == Some(SIX);
    HomeStep(FETCHING, n, n', FIVES, HomeReceive(1), o);
    assert n'.down + [] == n'.down;
  }

  /** A read served by a line on its way out can miss a write that has completed. */
  lemma LeavingLineIsStale() returns (s: State, step: Step)
    ensures Reached(s) && Enabled(s, step) && ReadsLeaving(s, step)
    ensures Perform(s, step).read.Some? && Perform(s, step).read.value != Perform(s, step).state.latest
  {
    Overwritten();
    s, step := System(FREE.(mem := SIXES), Quiescent(CacheToInvalid(7, FIVES, false)), SIXES), NodeRead(1, 8);
    assert Perform(s, step).read == Some(FIVES);
    assert FIVES[0] == 5 && SIXES[0] == 6;
  }

  // ----- what a line on its way out holds -----

  /** A line starts to leave with the bytes of a valid copy, not by a write, and keeps them. */
  predicate LeavesAs(l: Line, l': Line, wrote: bool) {
    l'.CacheToInvalid? ==>
      (l.CacheToInvalid? || ((l.CacheShared? || l.CacheDirty?) && !wrote)) && l'.data == l.data
  }

  predicate WorkerLeaves(n: Node, o: NodeOut) { LeavesAs(n.line, o.node.line, o.wrote.Some?) }

  lemma LocalLeaves(n: Node, ptr: Ptr, init: Block, store: Store)
    ensures WorkerLeaves(n, CacheRead(n, ptr)) && WorkerLeaves(n, CacheWrite(n, ptr, init, store))
    ensures WorkerLeaves(n, Evict(n)) && WorkerLeaves(n, SendDone(n))
  {
  }

  lemma MessageLeaves(n: Node, m: DownMsg, p: PeerMsg)
    ensures WorkerLeaves(n, FromHome(n, m)) && WorkerLeaves(n, FromPeer(n, p))
    ensures IsDemand(m) ==> WorkerLeaves(n, ServeDemand(n, m))
  {
  }

  /** How the line of worker `w` can come to leave in one step. */
  ghost predicate StepLeaves(s: State, s': State, w: Wid) {
    w in s.nodes && w in s'.nodes && LeavesAs(s.nodes[w].line, s'.nodes[w].line, s'.latest != s.latest)
  }

  lemma WorkerStepLeaves(s: State, v: Wid, n: Node, o: NodeOut, w: Wid)
    requires v in s.nodes && w in s.nodes && n.line == s.nodes[v].line && WorkerLeaves(n, o)
    ensures StepLeaves(s, AfterNode(s, v, o).state, w)
  {
  }

  lemma HomeStepLeaves(s: State, step: Step, w: Wid)
    requires Enabled(s, step) && w in s.nodes
    requires step.HomeLocalRead? || step.HomeLocalWrite? || step.HomeServeParked? || step.HomeReceive?
    ensures StepLeaves(s, Perform(s, step).state, w)
  {
    hide LocalRead, LocalWrite, Serve, HomeHandle, Latest;
    assert Perform(s, step).state.nodes[w].line == s.nodes[w].line;
  }

  lemma AnyStepLeaves(s: State, step: Step, w: Wid)
    requires Enabled(s, step) && w in s.nodes
    ensures StepLeaves(s, Perform(s, step).state, w)
  {
    hide StepLeaves, WorkerLeaves, AfterNode, AfterHome, CacheRead, CacheWrite, Evict, SendDone;
    hide FromHome, FromPeer, ServeDemand;
    match step
    case NodeRead(v, ptr) =>
      LocalLeaves(s.nodes[v], ptr, s.latest, Store(0, []));
      WorkerStepLeaves(s, v, s.nodes[v], CacheRead(s.nodes[v], ptr), w);
    case NodeWrite(v, ptr, init, store) =>
      LocalLeaves(s.nodes[v], ptr, init, store);
      WorkerStepLeaves(s, v, s.nodes[v], CacheWrite(s.nodes[v], ptr, init, store), w);
    case NodeEvict(v) =>
      LocalLeaves(s.nodes[v], 0, s.latest, Store(0, []));
      WorkerStepLeaves(s, v, s.nodes[v], Evict(s.nodes[v]), w);
    case NodeSendDone(v) =>
      LocalLeaves(s.nodes[v], 0, s.latest, Store(0, []));
      WorkerStepLeaves(s, v, s.nodes[v], SendDone(s.nodes[v]), w);
    case NodeServeParked(v) => ParkedLeaves(s, v, w);
    case NodeReceive(v) =>
      var n := s.nodes[v].(down := s.nodes[v].down[1..]);
      MessageLeaves(n, s.nodes[v].down[0], ReadData(0, s.latest));
      WorkerStepLeaves(s, v, n, FromHome(n, s.nodes[v].down[0]), w);
    case NodeReceivePeer(v, i) =>
      var n := s.nodes[v].(peer := s.nodes[v].peer[..i] + s.nodes[v].peer[i+1..]);
      MessageLeaves(n, WriteReply, s.nodes[v].peer[i]);
      WorkerStepLeaves(s, v, n, FromPeer(n, s.nodes[v].peer[i]), w);
    case _ => HomeStepLeaves(s, step, w);
  }

  lemma ParkedLeaves(s: State, v: Wid, w: Wid)
    requires Enabled(s, NodeServeParked(v)) && w in s.nodes
    ensures StepLeaves(s, Perform(s, NodeServeParked(v)).state, w)
  {
    hide StepLeaves, AfterNode, ServeDemand;
    var n, m := s.nodes[v].(parked := s.nodes[v].parked[1..]), s.nodes[v].parked[0];
    MessageLeaves(n, m, ReadData(0, s.latest));
    WorkerStepLeaves(s, v, n, if IsDemand(m) then ServeDemand(n, m) else NOut(n, false), w);
  }

  /** The line of `w` is on its way out in every state after the first. */
  predicate LeavingAlong(s: State, steps: seq<Step>, w: Wid)
    requires Legal(s, steps)
    decreases |steps|
  {
    steps == [] ||
    var s' := Perform(s, steps[0]).state;
    w in s'.nodes && s'.nodes[w].line.CacheToInvalid? && LeavingAlong(s', steps[1..], w)
  }

  lemma {:induction false} KeepsBytes(s: State, steps: seq<Step>, w: Wid)
    requires Legal(s, steps) && LeavingAlong(s, steps, w) && w in s.nodes && s.nodes[w].line.CacheToInvalid?
    ensures w in After(s, steps).nodes && After(s, steps).nodes[w].line.CacheToInvalid?
    ensures After(s, steps).nodes[w].line.data == s.nodes[w].line.data
    decreases |steps|
  {
    hide Perform, Enabled;
    if steps != [] {
      AnyStepLeaves(s, steps[0], w);
      KeepsBytes(Perform(s, steps[0]).state, steps[1..], w);
    }
  }

  /** A line on its way out serves exactly what the block was when it started to leave, so
      that a read from it is stale if and only if the block has changed since. */
  lemma LeavingServes(s: State, steps: seq<Step>, w: Wid, ptr: Ptr)
    requires Reached(s) && steps != [] && Legal(s, steps) && LeavingAlong(s, steps, w)
    requires w in s.nodes && !s.nodes[w].line.CacheToInvalid?
    ensures Enabled(After(s, steps), NodeRead(w, ptr))
    ensures Perform(After(s, steps), NodeRead(w, ptr)).read == Some(s.latest)
  {
    hide Reached;
    var s1 := Perform(s, steps[0]).state;
    assert StepLeaves(s, s1, w) && s1.nodes[w].line.data == s.latest by {
      hide Perform, Enabled;
      AnyStepLeaves(s, steps[0], w);
      DataValue(s);
    }
    assert KeptAlong(s, steps, w, s.latest) by {
      hide Perform, Enabled;
      KeepsBytes(s1, steps[1..], w);
    }
  }

  ghost predicate KeptAlong(s: State, steps: seq<Step>, w: Wid, b: Block)
    requires Legal(s, steps)
  {
    var l := After(s, steps);
    w in l.nodes && l.nodes[w].line.CacheToInvalid? && l.nodes[w].line.data == b
  }

  /** An evicted line is up to date as long as the directory names it as the owner and it
      has not answered a demand for the block. */
  lemma EvictedStillFresh(s: State, w: Wid)
    requires Reached(s) && w in s.nodes && s.nodes[w].line.CacheToInvalid? && s.nodes[w].line.evicting
    requires s.home.state.DirDirty? && Entry(s.home.shared, w).Some?
    ensures s.nodes[w].line.data == s.latest
  {
    ReachedInv(s);
    NodeFacts(s, w);
  }
}
