/**
 What is written: over every run the block is the first block with the bytes of the
 accepted writes laid over it, each exactly once, in the order of their completion. The
 bytes are those of the write steps themselves.
 */
module WriteHistory {
  import opened Basics
  import opened Blocks
  import opened Sharers
  import opened Protocol
  import opened Invariant
  import opened SystemProofs
  import opened Coherence

  // ----- one step -----

  /** Where a write waits for the block: at the home worker or at another one. */
  datatype Place = AtHome | AtWorker(wid: Wid)

  function PlaceOf(step: Step): Place {
    if step.HomeLocalRead? || step.HomeLocalWrite? || step.HomeServeParked? || step.HomeReceive? then AtHome
    else AtWorker(step.wid)
  }

  /** The bytes that wait at a place. */
  function Waits(s: State, p: Place): Option<Store> {
    match p
    case AtHome => if s.home.pending.Invalidating? then Some(s.home.pending.store) else None
    case AtWorker(w) =>
      if w in s.nodes && s.nodes[w].line.CacheToDirty? then Some(s.nodes[w].line.store) else None
  }

  /** A write that takes effect at once: the block is dirty here, or nobody else has it. */
  predicate Hits(s: State, step: Step) {
    || (step.NodeWrite? && step.wid in s.nodes && s.nodes[step.wid].line.CacheDirty?)
    || (step.HomeLocalWrite? && s.home.state.DirUnshared?)
  }

  /** A write that has to get hold of the block first. Where a line is in transition the
      request waits outside and comes back as another step. */
  predicate Starts(s: State, step: Step) {
    || (step.NodeWrite? && step.wid in s.nodes
        && (s.nodes[step.wid].line.Absent? || s.nodes[step.wid].line.CacheShared?))
    || (step.HomeLocalWrite? && (s.home.state.DirDirty? || s.home.state.DirShared?))
  }

  /** What a step makes of the block and of the write that waits at its place. */
  ghost predicate Accounted(s: State, step: Step, s': State) {
    var p := PlaceOf(step);
    if Hits(s, step) then
      s'.latest == Patch(s.latest, step.store) && Waits(s, p).None? && Waits(s', p).None?
    else if Starts(s, step) then
      s'.latest == s.latest && Waits(s, p).None? && Waits(s', p) == Some(step.store)
    else if Waits(s, p).Some? && Waits(s', p).None? then
      s'.latest == Patch(s.latest, Waits(s, p).value) && Owned(s', p)
    else
      s'.latest == s.latest && Waits(s', p) == Waits(s, p)
  }

  /** The place has the block to itself, up to date. */
  predicate Owned(s: State, p: Place) {
    match p
    case AtHome => s.home.state.DirUnshared? && s.home.mem == s.latest
    case AtWorker(w) => w in s.nodes && s.nodes[w].line.CacheDirty? && s.nodes[w].line.data == s.latest
  }

  // ----- the workers -----

  /** A waiting write stays or is completed, and no other is. */
  predicate Tracks(l: Line, o: NodeOut) {
    var l' := o.node.line;
    if l.CacheToDirty? && l'.CacheToDirty? then l'.store == l.store && o.wrote.None?
    else if l.CacheToDirty? then l'.CacheDirty? && o.wrote == Some(l.store)
    else !l'.CacheToDirty? && o.wrote.None?
  }

  lemma LocalTracks(n: Node, ptr: Ptr)
    ensures Tracks(n.line, CacheRead(n, ptr)) && Tracks(n.line, Evict(n)) && Tracks(n.line, SendDone(n))
  {
  }

  lemma MessageTracks(n: Node, m: DownMsg, p: PeerMsg)
    ensures FromHome(n, m).ok ==> Tracks(n.line, FromHome(n, m))
    ensures FromPeer(n, p).ok ==> Tracks(n.line, FromPeer(n, p))
    ensures IsDemand(m) ==> Tracks(n.line, ServeDemand(n, m))
  {
  }

  lemma NodeAccounted(s: State, step: Step, n: Node, o: NodeOut)
    requires !Hits(s, step) && !Starts(s, step) && PlaceOf(step).AtWorker? && step.wid in s.nodes
    requires n.line == s.nodes[step.wid].line && Tracks(n.line, o)
    requires var s' := AfterNode(s, step.wid, o).state;
      s'.nodes[step.wid].line.CacheDirty? ==> s'.nodes[step.wid].line.data == s'.latest
    ensures Accounted(s, step, AfterNode(s, step.wid, o).state)
  {
  }

  lemma OthersWait(s: State, w: Wid, o: NodeOut, p: Place)
    requires w in s.nodes && p != AtWorker(w)
    ensures Waits(AfterNode(s, w, o).state, p) == Waits(s, p)
  {
  }

  lemma WriteAccounted(s: State, step: Step)
    requires step.NodeWrite? && Enabled(s, step)
    requires s.nodes[step.wid].line.CacheDirty? ==> s.nodes[step.wid].line.data == s.latest
    ensures Accounted(s, step, Perform(s, step).state)
  {
  }

  /** The handler that a step of a worker runs, and on what. */
  function Run(s: State, step: Step): (Node, NodeOut)
    requires Enabled(s, step) && PlaceOf(step).AtWorker?
  {
    var n := s.nodes[step.wid];
    match step
    case NodeRead(_, ptr) => (n, CacheRead(n, ptr))
    case NodeWrite(_, ptr, init, store) => (n, CacheWrite(n, ptr, init, store))
    case NodeEvict(_) => (n, Evict(n))
    case NodeSendDone(_) => (n, SendDone(n))
    case NodeServeParked(_) =>
      var n' := n.(parked := n.parked[1..]);
      (n', if IsDemand(n.parked[0]) then ServeDemand(n', n.parked[0]) else NOut(n', false))
    case NodeReceive(_) => var n' := n.(down := n.down[1..]); (n', FromHome(n', n.down[0]))
    case NodeReceivePeer(_, i) =>
      var n' := n.(peer := n.peer[..i] + n.peer[i+1..]); (n', FromPeer(n', n.peer[i]))
  }

  lemma RunPerforms(s: State, step: Step)
    requires Enabled(s, step) && PlaceOf(step).AtWorker?
    ensures Perform(s, step) == AfterNode(s, step.wid, Run(s, step).1)
    ensures Run(s, step).0.line == s.nodes[step.wid].line
  {
    hide AfterNode, CacheRead, CacheWrite, Evict, SendDone, ServeDemand, FromHome, FromPeer;
  }

  lemma RunTracks(s: State, step: Step)
    requires Enabled(s, step) && PlaceOf(step).AtWorker? && !step.NodeWrite? && Run(s, step).1.ok
    ensures Tracks(Run(s, step).0.line, Run(s, step).1)
  {
    hide CacheRead, CacheWrite, Evict, SendDone, ServeDemand, FromHome, FromPeer, Tracks;
    var n := Run(s, step).0;
    LocalTracks(n, if step.NodeRead? then step.ptr else 0);
    var m := if step.NodeReceive? then s.nodes[step.wid].down[0]
      else if step.NodeServeParked? then s.nodes[step.wid].parked[0] else WriteReply;
    MessageTracks(n, m, if step.NodeReceivePeer? then s.nodes[step.wid].peer[step.index] else ReadData(0, s.latest));
  }

  lemma WorkerAccounted(s: State, step: Step)
    requires Inv(s) && Enabled(s, step) && PlaceOf(step).AtWorker?
    ensures Accounted(s, step, Perform(s, step).state)
    ensures forall p | p != PlaceOf(step) :: Waits(Perform(s, step).state, p) == Waits(s, p)
  {
    hide Accounted, Tracks, AfterNode, Perform, Inv, Run;
    var s', w, o := Perform(s, step).state, step.wid, Run(s, step).1;
    StepKeeps(s, step);
    RunPerforms(s, step);
    forall p | p != PlaceOf(step) ensures Waits(s', p) == Waits(s, p) { OthersWait(s, w, o, p); }
    if step.NodeWrite? {
      if s.nodes[w].line.CacheDirty? { DirtyData(s, w); }
      WriteAccounted(s, step);
    } else {
      StepOk(s, step);
      RunTracks(s, step);
      NodeStays(s, w, o);
      if s'.nodes[w].line.CacheDirty? { DirtyData(s', w); }
      NodeAccounted(s, step, Run(s, step).0, o);
    }
  }

  lemma NodeStays(s: State, w: Wid, o: NodeOut)
    requires w in s.nodes
    ensures w in AfterNode(s, w, o).state.nodes
  {
  }

  lemma StepOk(s: State, step: Step)
    requires Enabled(s, step) && PlaceOf(step).AtWorker? && Inv(Perform(s, step).state)
    requires Perform(s, step) == AfterNode(s, step.wid, Run(s, step).1)
    ensures Run(s, step).1.ok
  {
    hide Run, Perform, Good;
  }

  // ----- the home worker -----

  function Held(h: Home): Option<Store> { if h.pending.Invalidating? then Some(h.pending.store) else None }

  predicate HomeTracks(h: Home, o: HomeOut) {
    if Held(h).Some? && Held(o.home).None? then o.wrote == Held(h) && o.home.state.DirUnshared?
    else Held(o.home) == Held(h) && o.wrote.None?
  }

  lemma ServeTracks(h: Home, w: Wid, m: UpMsg)
    requires h.pending.Idle? && IsRequest(m)
    ensures HomeTracks(h, Serve(h, w, m)) && HomeTracks(h, LocalRead(h))
  {
  }

  lemma ReplyTracks(h: Home, w: Wid, m: UpMsg)
    requires IsReply(m) && Reply(h, w, m).ok
    ensures HomeTracks(h, Reply(h, w, m))
  {
  }

  lemma LocalWriteTracks(h: Home, st: Store)
    requires DirOk(h) && !InTransition(h.state)
    ensures var o := LocalWrite(h, st);
      && Held(h).None?
      && (h.state.DirUnshared? ==> Held(o.home).None? && o.wrote == Some(st))
      && (!h.state.DirUnshared? ==> Held(o.home) == Some(st) && o.wrote.None?)
  {
  }

  /** What the home worker does in a step. */
  function RunHome(s: State, step: Step): HomeOut
    requires Enabled(s, step) && PlaceOf(step).AtHome?
  {
    match step
    case HomeLocalRead => LocalRead(s.home)
    case HomeLocalWrite(store) => LocalWrite(s.home, store)
    case HomeServeParked =>
      var p, h := s.home.parked[0], s.home.(parked := s.home.parked[1..]);
      if IsRequest(p.msg) then Serve(h, p.wid, p.msg) else Out(h, map[], false)
    case HomeReceive(w) => HomeHandle(s.home, w, s.nodes[w].up[0])
  }

  lemma RunHomePerforms(s: State, step: Step)
    requires Enabled(s, step) && PlaceOf(step).AtHome?
    ensures var s', o := Perform(s, step).state, RunHome(s, step);
      && s'.home == o.home && s'.latest == Latest(s.latest, o.wrote) && Perform(s, step).read == o.read
      && s'.nodes.Keys == s.nodes.Keys && (s'.ok ==> o.ok)
      && forall w | w in s.nodes :: s'.nodes[w].line == s.nodes[w].line
  {
    hide LocalRead, LocalWrite, Serve, HomeHandle, Latest;
  }

  lemma RunHomeTracks(s: State, step: Step)
    requires DirOk(s.home) && Enabled(s, step) && PlaceOf(step).AtHome? && !step.HomeLocalWrite? && RunHome(s, step).ok
    ensures HomeTracks(s.home, RunHome(s, step))
  {
    hide Serve, Reply, LocalRead, LocalWrite;
    match step
    case HomeLocalRead => ServeTracks(s.home, 0, Read(0));
    case HomeServeParked =>
      var p, h := s.home.parked[0], s.home.(parked := s.home.parked[1..]);
      if IsRequest(p.msg) { ServeTracks(h, p.wid, p.msg); }
    case HomeReceive(w) =>
      var m := s.nodes[w].up[0];
      if IsReply(m) { ReplyTracks(s.home, w, m); }
      else if IsRequest(m) && !InTransition(s.home.state) { ServeTracks(s.home, w, m); }
  }

  lemma HomeAccounted(s: State, step: Step)
    requires Inv(s) && Enabled(s, step) && PlaceOf(step).AtHome?
    ensures Accounted(s, step, Perform(s, step).state)
    ensures forall p | p != PlaceOf(step) :: Waits(Perform(s, step).state, p) == Waits(s, p)
  {
    hide Perform, RunHome, Good;
    var s', o := Perform(s, step).state, RunHome(s, step);
    StepKeeps(s, step);
    RunHomePerforms(s, step);
    assert DirOk(s.home) by { KnownDir(s); }
    KnownDir(s');
    if step.HomeLocalWrite? {
      LocalWriteTracks(s.home, step.store);
      LocalWriteOut(s, step.store);
    } else {
      RunHomeTracks(s, step);
    }
  }

  lemma LocalWriteOut(s: State, st: Store)
    requires Enabled(s, HomeLocalWrite(st))
    ensures RunHome(s, HomeLocalWrite(st)) == LocalWrite(s.home, st)
  {
  }

  lemma KnownDir(s: State)
    requires Inv(s)
    ensures s.ok && DirOk(s.home) && (s.home.state.DirUnshared? ==> s.home.mem == s.latest)
  {
  }

  /** Every step, in every reached state: a write hits, starts to wait with its bytes, or
      is completed with them; no other step changes the block, and no step touches a write
      that waits elsewhere. */
  lemma StepAccounted(s: State, step: Step)
    requires Inv(s) && Enabled(s, step)
    ensures Accounted(s, step, Perform(s, step).state)
    ensures forall p | p != PlaceOf(step) :: Waits(Perform(s, step).state, p) == Waits(s, p)
  {
    hide Inv, Perform, Accounted;
    if PlaceOf(step).AtHome? { HomeAccounted(s, step); } else { WorkerAccounted(s, step); }
  }

  // ----- whole runs -----

  /** The states of a run, step by step. */
  lemma {:induction false} LegalTake(s: State, steps: seq<Step>, k: nat)
    requires Legal(s, steps) && k <= |steps|
    ensures Legal(s, steps[..k])
    ensures k < |steps| ==>
      && Enabled(After(s, steps[..k]), steps[k]) && Legal(s, steps[..k + 1])
      && After(s, steps[..k + 1]) == Perform(After(s, steps[..k]), steps[k]).state
    decreases k
  {
    hide Enabled, Perform;
    if k == 0 {
      assert steps[..0] == [];
      if |steps| > 0 { assert steps[..1] == [steps[0]] && [steps[0]][1..] == []; }
    } else {
      LegalTake(Perform(s, steps[0]).state, steps[1..], k - 1);
      assert steps[..k][1..] == steps[1..][..k - 1];
      if k < |steps| { assert steps[..k + 1][1..] == steps[1..][..k]; }
    }
  }

  /** The writes of a run, by the numbers of their steps: completed, in this order, and waiting. */
  datatype History = History(done: seq<nat>, waiting: map<Place, nat>)

  /** Step number `i` from `s` to `s'`. */
  function Record(h: History, s: State, step: Step, s': State, i: nat): History {
    var p := PlaceOf(step);
    if Hits(s, step) then h.(done := h.done + [i])
    else if Starts(s, step) then h.(waiting := h.waiting[p := i])
    else if p in h.waiting && Waits(s', p).None? then History(h.done + [h.waiting[p]], h.waiting - {p})
    else h
  }

  function Writes(s: State, steps: seq<Step>): History
    requires Legal(s, steps)
  {
    if steps == [] then History([], map[])
    else
      var k := |steps| - 1;
      LegalTake(s, steps, k);
      Record(Writes(s, steps[..k]), After(s, steps[..k]), steps[k], After(s, steps), k)
  }

  /** Step `i` is a write that is accepted. */
  ghost predicate Accepted(s: State, steps: seq<Step>, i: nat)
    requires Legal(s, steps)
  {
    i < |steps| && LegalTo(s, steps, i)
    && (Hits(After(s, steps[..i]), steps[i]) || Starts(After(s, steps[..i]), steps[i]))
  }

  ghost predicate LegalTo(s: State, steps: seq<Step>, i: nat)
    requires Legal(s, steps) && i <= |steps|
    ensures LegalTo(s, steps, i) && Legal(s, steps[..i])
  {
    LegalTake(s, steps, i);
    Legal(s, steps[..i])
  }

  predicate IsWrite(step: Step) { step.NodeWrite? || step.HomeLocalWrite? }

  /** The first block with the bytes of the given write steps laid over it, one by one. */
  function Overlay(b: Block, steps: seq<Step>, done: seq<nat>): Block {
    if done == [] then b
    else
      var i, before := done[|done| - 1], Overlay(b, steps, done[..|done| - 1]);
      if i < |steps| && IsWrite(steps[i]) then Patch(before, steps[i].store) else before
  }

  predicate Different(done: seq<nat>) { forall i, j | 0 <= i < j < |done| :: done[i] != done[j] }

  /** The write is completed or waiting. */
  predicate Recorded(h: History, i: nat) {
    i in h.done || exists p | p in h.waiting :: h.waiting[p] == i
  }

  /** No write is recorded twice. */
  ghost predicate Unique(h: History) {
    && Different(h.done)
    && (forall p | p in h.waiting :: h.waiting[p] !in h.done)
    && (forall p, q | p in h.waiting && q in h.waiting && p != q :: h.waiting[p] != h.waiting[q])
  }

  /** Exactly the accepted writes are recorded, each once. */
  ghost predicate Once(s: State, steps: seq<Step>, h: History)
    requires Legal(s, steps)
  {
    Unique(h) && forall i: nat :: Accepted(s, steps, i) <==> Recorded(h, i)
  }

  /** What waits is what the write steps brought. */
  ghost predicate Faithful(s: State, steps: seq<Step>, h: History) {
    && (forall p :: p in h.waiting <==> Waits(s, p).Some?)
    && (forall p | p in h.waiting :: h.waiting[p] < |steps| && IsWrite(steps[h.waiting[p]])
          && Waits(s, p) == Some(steps[h.waiting[p]].store))
  }

  ghost predicate HistoryOk(s0: State, steps: seq<Step>)
    requires Legal(s0, steps)
  {
    var s, h := After(s0, steps), Writes(s0, steps);
    && Once(s0, steps, h) && Faithful(s, steps, h)
    && (forall i | i in h.done :: i < |steps| && IsWrite(steps[i]))
    && s.latest == Overlay(s0.latest, steps, h.done)
  }

  lemma {:induction false} OverlayMore(b: Block, steps: seq<Step>, step: Step, done: seq<nat>)
    requires forall i | i in done :: i < |steps|
    ensures Overlay(b, steps + [step], done) == Overlay(b, steps, done)
  {
    hide Patch;
    if done != [] {
      var most := done[..|done| - 1];
      assert done[|done| - 1] in done && forall i | i in most :: i in done;
      OverlayMore(b, steps, step, most);
    }
  }

  lemma AcceptedMore(s0: State, steps: seq<Step>, step: Step, i: nat)
    requires Legal(s0, steps) && Legal(s0, steps + [step])
    ensures i < |steps| ==> (Accepted(s0, steps + [step], i) <==> Accepted(s0, steps, i))
    ensures i == |steps| ==> (Accepted(s0, steps + [step], i) <==>
      Hits(After(s0, steps), step) || Starts(After(s0, steps), step))
  {
    hide Legal, Hits, Starts;
    if i <= |steps| { assert (steps + [step])[..i] == steps[..i]; }
    assert steps[..|steps|] == steps;
  }

  lemma HitRecorded(h: History, i: nat)
    requires Unique(h) && !Recorded(h, i)
    ensures var h' := h.(done := h.done + [i]); Unique(h') && forall j :: Recorded(h', j) <==> Recorded(h, j) || j == i
  {
  }

  lemma StartRecorded(h: History, p: Place, i: nat)
    requires Unique(h) && !Recorded(h, i) && p !in h.waiting
    ensures var h' := h.(waiting := h.waiting[p := i]);
      Unique(h') && forall j :: Recorded(h', j) <==> Recorded(h, j) || j == i
  {
    var h' := h.(waiting := h.waiting[p := i]);
    forall j ensures Recorded(h', j) <==> Recorded(h, j) || j == i {
      if q :| q in h.waiting && h.waiting[q] == j { assert h'.waiting[q] == j; }
      assert h'.waiting[p] == i;
    }
  }

  lemma EndRecorded(h: History, p: Place)
    requires Unique(h) && p in h.waiting
    ensures var h' := History(h.done + [h.waiting[p]], h.waiting - {p});
      Unique(h') && forall j :: Recorded(h', j) <==> Recorded(h, j)
  {
    var h' := History(h.done + [h.waiting[p]], h.waiting - {p});
    forall j ensures Recorded(h', j) <==> Recorded(h, j) {
      if q :| q in h.waiting && h.waiting[q] == j { assert q != p ==> q in h'.waiting && h'.waiting[q] == j; }
      if q :| q in h'.waiting && h'.waiting[q] == j { assert h.waiting[q] == j; }
    }
  }

  lemma OnceMore(s0: State, steps: seq<Step>, step: Step, h: History)
    requires Legal(s0, steps) && Legal(s0, steps + [step]) && Once(s0, steps, h)
    requires Starts(After(s0, steps), step) && !Hits(After(s0, steps), step) ==> PlaceOf(step) !in h.waiting
    ensures Once(s0, steps + [step], Record(h, After(s0, steps), step, After(s0, steps + [step]), |steps|))
  {
    hide Hits, Starts, PlaceOf, Accepted, Legal, After, Waits, Unique, Recorded;
    var i, s, p := |steps|, After(s0, steps), PlaceOf(step);
    AcceptedBound(s0, steps, i);
    if Hits(s, step) {
      HitRecorded(h, i);
    } else if Starts(s, step) {
      StartRecorded(h, p, i);
    } else if p in h.waiting {
      EndRecorded(h, p);
    }
    forall j: nat
      ensures Accepted(s0, steps + [step], j) <==> Recorded(h, j) || (j == i && (Hits(s, step) || Starts(s, step)))
    {
      AcceptedMore(s0, steps, step, j);
      AcceptedBound(s0, steps, j);
      AcceptedBound(s0, steps + [step], j);
    }
  }

  lemma AcceptedBound(s0: State, steps: seq<Step>, i: nat)
    requires Legal(s0, steps)
    ensures Accepted(s0, steps, i) ==> i < |steps|
  {
  }

  lemma FaithfulMore(s: State, step: Step, s': State, steps: seq<Step>, h: History)
    requires Faithful(s, steps, h) && Accounted(s, step, s')
    requires forall p | p != PlaceOf(step) :: Waits(s', p) == Waits(s, p)
    ensures Faithful(s', steps + [step], Record(h, s, step, s', |steps|))
    ensures Starts(s, step) && !Hits(s, step) ==> PlaceOf(step) !in h.waiting
    ensures PlaceOf(step) in h.waiting ==> h.waiting[PlaceOf(step)] < |steps|
  {
    hide Waits, PlaceOf, Owned;
  }

  lemma LatestMore(s: State, step: Step, s': State, steps: seq<Step>, h: History, b: Block)
    requires Faithful(s, steps, h) && Accounted(s, step, s') && s.latest == Overlay(b, steps, h.done)
    requires forall i | i in h.done :: i < |steps| && IsWrite(steps[i])
    ensures var h' := Record(h, s, step, s', |steps|);
      && s'.latest == Overlay(b, steps + [step], h'.done)
      && forall i | i in h'.done :: i < |steps + [step]| && IsWrite((steps + [step])[i])
  {
    hide Waits, PlaceOf, Owned, Patch, Overlay, Hits, Starts;
    var p := PlaceOf(step);
    OverlayMore(b, steps, step, h.done);
    if Hits(s, step) {
      HitIsWrite(s, step);
      OverlaySnoc(b, steps + [step], h.done, |steps|);
    } else if !Starts(s, step) && p in h.waiting && Waits(s', p).None? {
      OverlaySnoc(b, steps + [step], h.done, h.waiting[p]);
    }
  }

  lemma HitIsWrite(s: State, step: Step)
    requires Hits(s, step)
    ensures IsWrite(step)
  {
  }

  lemma OverlaySnoc(b: Block, steps: seq<Step>, done: seq<nat>, i: nat)
    requires i < |steps| && IsWrite(steps[i])
    ensures Overlay(b, steps, done + [i]) == Patch(Overlay(b, steps, done), steps[i].store)
  {
    assert (done + [i])[..|done|] == done;
  }

  lemma {:induction false} HistoryHolds(s0: State, steps: seq<Step>)
    requires Init(s0) && Legal(s0, steps)
    ensures HistoryOk(s0, steps)
    decreases |steps|
  {
    hide Init, Perform, Enabled, Accounted, Inv, Legal, Once, Faithful, Hits, Starts;
    if steps == [] {
      assert HistoryOk(s0, []) by { HistoryStart(s0); }
    } else {
      var k := |steps| - 1;
      var most, step := steps[..k], steps[k];
      LegalTake(s0, steps, k);
      assert steps == most + [step] && steps[..k + 1] == steps;
      HistoryHolds(s0, most);
      InitKeeps(s0);
      InvAfter(s0, most);
      var s, s', h := After(s0, most), After(s0, steps), Writes(s0, most);
      StepAccounted(s, step);
      FaithfulMore(s, step, s', most, h);
      LatestMore(s, step, s', most, h, s0.latest);
      OnceMore(s0, most, step, h);
      assert Writes(s0, steps) == Record(h, s, step, s', k);
    }
  }

  lemma HistoryStart(s0: State)
    requires Init(s0)
    ensures Legal(s0, []) && HistoryOk(s0, [])
  {
    hide Hits, Starts;
    assert forall i: nat :: !Accepted(s0, [], i);
  }

  /** Over every run: the block is the first block with the bytes of the completed writes
      laid over it, in the order of completion; every accepted write, and nothing else, is
      completed once or waits at one place, with the bytes of its step. */
  lemma WritesTakeEffect(s0: State, steps: seq<Step>)
    requires Init(s0) && Legal(s0, steps)
    ensures var s, h := After(s0, steps), Writes(s0, steps);
      && s.latest == Overlay(s0.home.mem, steps, h.done)
      && Different(h.done) && (forall i | i in h.done :: i < |steps| && IsWrite(steps[i]))
      && (forall i: nat :: Accepted(s0, steps, i) <==> Recorded(h, i))
      && (forall p | p in h.waiting :: h.waiting[p] !in h.done && h.waiting[p] < |steps|
            && IsWrite(steps[h.waiting[p]]) && Waits(s, p) == Some(steps[h.waiting[p]].store))
      && (forall p, q | p in h.waiting && q in h.waiting && p != q :: h.waiting[p] != h.waiting[q])
  {
    hide Accepted, Recorded, Waits, Overlay;
    HistoryHolds(s0, steps);
  }
}
