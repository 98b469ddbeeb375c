/**
 What the protocol guarantees in every state of every run: any number of
 workers, any interleaving of reads, writes, evictions, handlers and message
 deliveries.
 */
module Coherence {
  import opened Blocks
  import opened Basics
  import opened Sharers
  import opened Protocol
  import opened Invariant
  import opened HomeProofs
  import opened SystemProofs
  import NodeProofs
  import StepProofs
  import ReplyProofs

  /** The steps can be taken one after the other from `s`. */
  predicate Legal(s: State, steps: seq<Step>)
    decreases |steps|
  {
    steps == [] || (Enabled(s, steps[0]) && Legal(Perform(s, steps[0]).state, steps[1..]))
  }

  function After(s: State, steps: seq<Step>): State
    requires Legal(s, steps)
    decreases |steps|
  {
    if steps == [] then s else After(Perform(s, steps[0]).state, steps[1..])
  }

  lemma {:induction false} InvAfter(s: State, steps: seq<Step>)
    requires Inv(s) && Legal(s, steps)
    ensures Inv(After(s, steps))
    decreases |steps|
  {
    if steps != [] {
      StepKeeps(s, steps[0]);
      InvAfter(Perform(s, steps[0]).state, steps[1..]);
    }
  }

  /** `s` is reached from a system without cached copies. */
  ghost predicate Reached(s: State) {
    exists s0, steps :: Init(s0) && Legal(s0, steps) && After(s0, steps) == s
  }

  lemma ReachedInv(s: State)
    requires Reached(s)
    ensures Inv(s)
  {
    var s0, steps :| Init(s0) && Legal(s0, steps) && After(s0, steps) == s;
    InitKeeps(s0);
    InvAfter(s0, steps);
  }

  /** No handler ever meets a branch the source calls unexpected, nor a failing assertion. */
  lemma NothingUnexpected(s: State)
    requires Reached(s)
    ensures s.ok
  {
    ReachedInv(s);
  }

  lemma NodeFacts(s: State, w: Wid)
    requires Inv(s) && w in s.nodes
    ensures NodeOk(See(s.home, s.latest, TrafficMap(s), w), TrafficOf(s.home, w, s.nodes[w]))
  {
    assert TrafficMap(s)[w] == TrafficOf(s.home, w, s.nodes[w]);
  }

  lemma DirtyIsOwner(h: Home, latest: Block, t: map<Wid, Traffic>, w: Wid)
    requires Good(h, latest, t) && w in t && t[w].line.CacheDirty?
    ensures OwnerMode(h) && |h.shared| == 1 && h.shared[0].wid == w && !Granted(h, t)
  {
    assert NodeOk(See(h, latest, t, w), t[w]);
    if |h.shared| == 1 { SingleEntry(h.shared, w); }
  }

  lemma UnlistedHoldsNothing(v: View, t: Traffic)
    requires NodeOk(v, t) && v.entry.None? && (v.role.WantsRead? ==> !v.role.granted)
    ensures !t.line.CacheDirty? && !t.line.CacheShared?
  {
  }

  /** One writer, or readers: a dirty line excludes every other valid line. */
  lemma SingleWriter(s: State, w: Wid, u: Wid)
    requires Reached(s) && w in s.nodes && u in s.nodes && w != u
    ensures s.nodes[w].line.CacheDirty? ==> !s.nodes[u].line.CacheDirty? && !s.nodes[u].line.CacheShared?
  {
    ReachedInv(s);
    if s.nodes[w].line.CacheDirty? {
      var t := TrafficMap(s);
      DirtyIsOwner(s.home, s.latest, t, w);
      SingleEntry(s.home.shared, u);
      NodeFacts(s, u);
      UnlistedHoldsNothing(See(s.home, s.latest, t, u), t[u]);
    }
  }

  /** Every valid copy holds the result of all completed writes; home memory does
      whenever the directory is stably unshared or shared. */
  lemma DataValue(s: State)
    requires Reached(s)
    ensures s.home.state.DirUnshared? || s.home.state.DirShared? ==> s.home.mem == s.latest
    ensures forall w | w in s.nodes ::
      s.nodes[w].line.CacheShared? || s.nodes[w].line.CacheDirty? ==> s.nodes[w].line.data == s.latest
  {
    ReachedInv(s);
    forall w | w in s.nodes && (s.nodes[w].line.CacheShared? || s.nodes[w].line.CacheDirty?)
      ensures s.nodes[w].line.data == s.latest
    {
      NodeFacts(s, w);
      HolderData(See(s.home, s.latest, TrafficMap(s), w), TrafficOf(s.home, w, s.nodes[w]));
    }
  }

  lemma HolderData(v: View, t: Traffic)
    requires NodeOk(v, t) && (t.line.CacheShared? || t.line.CacheDirty?)
    ensures t.line.data == v.latest
  {
  }

  /** Reads return what the completed writes have made of the block at that moment,
      except from a line on its way out, which may still serve what it holds. */
  lemma ReadsReturnLatest(s: State, step: Step)
    requires Reached(s) && Enabled(s, step)
    ensures var r := Perform(s, step); r.read.Some? ==>
      if ReadsLeaving(s, step) then r.read.value == s.nodes[step.wid].line.data else r.read.value == r.state.latest
  {
    ReachedInv(s);
    StepKeeps(s, step);
  }

  /** A demand for the owner's copy finds it: the line exists and is dirty, about
      to be dirty, or on its way out by eviction, and in the last two valid cases
      up to date. */
  lemma OwnerHasTheCopy(s: State, w: Wid, d: DownMsg)
    requires Reached(s) && w in s.nodes && (d in s.nodes[w].down || d in s.nodes[w].parked)
    requires d.FetchAndShared? || d.ReadForward? || d.FetchAndInvalidate? || d.WriteForward?
    ensures var l := s.nodes[w].line;
      || l.CacheToDirty?
      || (l.CacheDirty? && l.data == s.latest)
      || (l.CacheToInvalid? && l.evicting && l.data == s.latest)
  {
    ReachedInv(s);
    NodeFacts(s, w);
    if d in s.nodes[w].down { InDemands(s.nodes[w].down, d); }
    DemandBelongs(s.home, s.latest, TrafficMap(s), w, d);
    NodeProofs.OwnerHasCopy(See(s.home, s.latest, TrafficMap(s), w), TrafficMap(s)[w], d);
  }

  lemma {:induction false} InDemands(down: seq<DownMsg>, d: DownMsg)
    requires d in down
    ensures if IsDemand(d) then d in Demands(down) else d in Grants(down)
  {
    if down[0] != d { InDemands(down[1..], d); }
  }

  lemma CounterTells(v: View, t: Traffic)
    requires NodeOk(v, t) && t.line.CacheToDirty?
    requires t.line.counter != 0 || t.peer != [] || OwnershipAck in t.grants
    ensures t.peer == [] || t.peer == [OwnershipData(t.line.ptr, v.latest)]
    ensures var ackDue := if OwnershipAck in t.grants || v.role.WantsOwnership? then 1 else 0;
      t.line.counter == |t.peer| - ackDue && |t.peer| + ackDue >= 1
  {
  }

  /** Ownership comes with two messages, the owner's data (-1) and the home worker's
      acknowledgement (+1), in either order: the counter tells which one is missing.
      Until both are in, the line is not dirty. */
  lemma TransferCounter(s: State, w: Wid)
    requires Reached(s) && w in s.nodes && s.nodes[w].line.CacheToDirty?
    requires s.nodes[w].line.counter != 0 || s.nodes[w].peer != [] || OwnershipAck in s.nodes[w].down
    ensures var n := s.nodes[w];
      && (n.peer == [] || n.peer == [OwnershipData(n.line.ptr, s.latest)])
      && (var ackDue :=
        if OwnershipAck in n.down || (s.home.pending.ForwardingWrite? && s.home.pending.wid == w) then 1 else 0;
          n.line.counter == |n.peer| - ackDue && |n.peer| + ackDue >= 1)
  {
    ReachedInv(s);
    NodeFacts(s, w);
    AckInGrants(s.nodes[w].down);
    CounterTells(See(s.home, s.latest, TrafficMap(s), w), TrafficOf(s.home, w, s.nodes[w]));
  }

  lemma AckInGrants(down: seq<DownMsg>)
    ensures OwnershipAck in down <==> OwnershipAck in Grants(down)
  {
    if OwnershipAck in down { InDemands(down, OwnershipAck); }
    if OwnershipAck in Grants(down) { GrantsIn(down, OwnershipAck); }
  }

  lemma {:induction false} GrantsIn(down: seq<DownMsg>, d: DownMsg)
    requires d in Grants(down)
    ensures d in down
  {
    if IsDemand(down[0]) || down[0] != d { GrantsIn(down[1..], d); }
  }

  lemma DirtyData(s: State, w: Wid)
    requires Inv(s) && w in s.nodes && s.nodes[w].line.CacheDirty?
    ensures s.nodes[w].line.data == s.latest
  {
    NodeFacts(s, w);
  }

  /** A write ends with the writer's bytes in its line, laid over the result of all
      earlier writes, however its request was served. */
  lemma WriteTakesEffect(s: State, step: Step, w: Wid)
    requires Reached(s) && Enabled(s, step) && w in s.nodes && s.nodes[w].line.CacheToDirty?
    requires w in Perform(s, step).state.nodes && Perform(s, step).state.nodes[w].line.CacheDirty?
    ensures var s', l := Perform(s, step).state, s.nodes[w].line;
      && s'.latest == Patch(s.latest, l.store)
      && s'.nodes[w].line == CacheDirty(l.ptr, Patch(s.latest, l.store))
  {
    ReachedInv(s);
    StepKeeps(s, step);
    StepWrites(s, step, w);
    DirtyData(Perform(s, step).state, w);
  }

  /** A line turns dirty only by its own worker's handlers, which record the write. */
  lemma StepWrites(s: State, step: Step, w: Wid)
    requires Enabled(s, step) && w in s.nodes && s.nodes[w].line.CacheToDirty?
    requires w in Perform(s, step).state.nodes && Perform(s, step).state.nodes[w].line.CacheDirty?
    ensures var s', l := Perform(s, step).state, s.nodes[w].line;
      s'.latest == Patch(s.latest, l.store) && s'.nodes[w].line.ptr == l.ptr
  {
    if !(step.NodeReceivePeer? || step.NodeReceive?) { OthersLeaveLine(s, step, w); assert false; }
    if step.wid != w { assert false; }
  }

  lemma OthersLeaveLine(s: State, step: Step, w: Wid)
    requires Enabled(s, step) && w in s.nodes && s.nodes[w].line.CacheToDirty? && !step.NodeReceivePeer?
    requires !step.NodeReceive?
    ensures w in Perform(s, step).state.nodes && Perform(s, step).state.nodes[w].line == s.nodes[w].line
  {
  }

  /** Invalidation collector: the counter of a pending invalidation is the number of
      listed workers that have not answered, each of which has exactly one demand or
      reply on the way; nobody else has any. */
  lemma CollectorCounts(s: State)
    requires Reached(s) && (s.home.pending.Invalidating? || s.home.pending.InvalidatingForward?)
    ensures s.home.pending.counter == |Owing(s.home)| > 0
    ensures forall w | w in s.nodes ::
      |Demands(s.nodes[w].down)| + |s.nodes[w].parked| + |Replies(s.nodes[w].up)| == if w in Owing(s.home) then 1 else 0
  {
    ReachedInv(s);
    CounterIsOwing(s.home);
    forall w | w in s.nodes
      ensures |Demands(s.nodes[w].down)| + |s.nodes[w].parked| + |Replies(s.nodes[w].up)| ==
        if w in Owing(s.home) then 1 else 0
    {
      hide Inv, NodeOk, Owes;
      NodeFacts(s, w);
      OwingOwes(s.home, w);
      OneOrNone(See(s.home, s.latest, TrafficMap(s), w), TrafficOf(s.home, w, s.nodes[w]));
    }
  }

  /** The workers whose answers a collection waits for. */
  function Owing(h: Home): set<Wid>
    requires h.pending.Invalidating? || h.pending.InvalidatingForward?
  {
    if h.pending.Invalidating? then Wids(h.shared) else Wids(h.shared) - {h.pending.wid}
  }

  lemma CounterIsOwing(h: Home)
    requires DirOk(h) && (h.pending.Invalidating? || h.pending.InvalidatingForward?)
    ensures h.pending.counter == |Owing(h)| > 0
  {
    WidsCount(h.shared);
  }

  lemma OwingOwes(h: Home, w: Wid)
    requires h.pending.Invalidating? || h.pending.InvalidatingForward?
    ensures Owes(h, w).Some? <==> w in Owing(h)
  {
    EntryWids(h.shared, w);
  }

  lemma OneOrNone(v: View, t: Traffic)
    requires NodeOk(v, t)
    ensures |t.demands| + |t.waiting| + |t.replies| == if v.owes.Some? then 1 else 0
  {
  }

  lemma {:induction false} WidsCount(list: seq<Sharer>)
    requires Distinct(list)
    ensures |Wids(list)| == |list|
  {
    if list != [] { WidsCount(list[1..]); }
  }

  lemma AnswerCounted(h: Home, w: Wid, m: UpMsg)
    requires DirOk(h) && IsReply(m) && w in Wids(h.shared)
    requires (h.pending.Invalidating? && (m.InvalidateAck? || m.FetchInvalidateReply?)
        && (h.pending.fetch <==> m.FetchInvalidateReply?))
      || (h.pending.InvalidatingForward? && m.InvalidateForwardAck? && h.pending.wid != w)
    ensures var h' := Reply(h, w, m).home;
      && (h'.pending.Idle? <==> h.pending.counter == 1)
      && (h.pending.counter != 1 ==>
        h'.pending.counter == h.pending.counter - 1 && Wids(h'.shared) == Wids(h.shared) - {w})
      && (h.pending.counter == 1 ==> !InTransition(h'.state))
  {
    RemoveWidEntry(h.shared, w, w);
  }

  /** The collection ends exactly with the last answer. */
  lemma CollectorEnds(s: State, w: Wid)
    requires Reached(s) && Enabled(s, HomeReceive(w)) && IsReply(s.nodes[w].up[0])
    requires s.home.pending.Invalidating? || s.home.pending.InvalidatingForward?
    ensures var h, h' := s.home, Reply(s.home, w, s.nodes[w].up[0]).home;
      && h' == Perform(s, HomeReceive(w)).state.home
      && (h'.pending.Idle? <==> h.pending.counter == 1)
      && (h.pending.counter != 1 ==>
        h'.pending.counter == h.pending.counter - 1 && Wids(h'.shared) == Wids(h.shared) - {w})
      && (h.pending.counter == 1 ==> !InTransition(h'.state))
  {
    ReachedInv(s);
    var t := TrafficMap(s);
    StepProofs.ReplyFirst(s, w);
    StepProofs.PopReply(s, w, t);
    ReplyProofs.ReplyMatches(s.home, s.latest, t, w, s.nodes[w].up[0]);
    AnswerCounted(s.home, w, s.nodes[w].up[0]);
  }

  /** Nothing is parked and no channel holds a message. */
  predicate Silent(s: State) {
    && s.home.parked == []
    && forall w | w in s.nodes ::
      s.nodes[w].up == [] && s.nodes[w].down == [] && s.nodes[w].peer == [] && s.nodes[w].parked == []
  }

  /** When everything is silent the list names exactly the holders, with the
      addresses of their lines. */
  lemma SilentListExact(s: State, w: Wid, p: Ptr)
    requires Reached(s) && Silent(s) && w in s.nodes
    ensures !InTransition(s.home.state)
    ensures Entry(s.home.shared, w) == Some(p) <==>
      (s.nodes[w].line.CacheShared? || s.nodes[w].line.CacheDirty?) && s.nodes[w].line.ptr == p
  {
    ReachedInv(s);
    NodeFacts(s, w);
    SilentIdle(s);
    SilentNode(See(s.home, s.latest, TrafficMap(s), w), TrafficOf(s.home, w, s.nodes[w]), p);
  }

  lemma SilentNode(v: View, t: Traffic, p: Ptr)
    requires NodeOk(v, t) && v.owes.None? && v.role.NoRole? && t.asks == [] && t.grants == [] && t.peer == []
    ensures v.entry == Some(p) <==> (t.line.CacheShared? || t.line.CacheDirty?) && t.line.ptr == p
  {
  }

  lemma SilentIdle(s: State)
    requires Inv(s) && Silent(s)
    ensures s.home.pending.Idle?
  {
    if !s.home.pending.Idle? {
      var list := s.home.shared;
      var u := list[0].wid;
      assert u in Wids(list);
      if s.home.pending.InvalidatingForward? && u == s.home.pending.wid {
        u := list[1].wid;
        assert list[1..][0] == list[1] && u in Wids(list[1..]);
      }
      EntryWids(list, u);
      NodeFacts(s, u);
      assert false;
    }
  }
}
