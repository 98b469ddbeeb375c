/** Every step of the system keeps the invariant. */
module StepProofs {
  import opened Blocks
  import opened Sharers
  import opened Protocol
  import opened Invariant
  import opened NodeCases
  import opened HomeProofs
  import opened ReplyProofs
  import opened Streams

  // ----- home steps -----

  lemma ServeGood(h: Home, latest: Block, t: map<Wid, Traffic>, w: Wid, m: UpMsg)
    requires Good(h, latest, t) && IsRequest(m) && Served(h, latest, t, w, m)
    ensures var o := Serve(h, w, m);
      && o.ok && o.send.Keys <= t.Keys && o.wrote.None? && o.read.None? && o.home.parked == h.parked
      && Good(o.home, latest, Deliver(Taken(t, w), o.send))
  {
    hide Good;
    match m
    case Read(ptr) =>
      if h.state.DirDirty? { ServeReadDirty(h, latest, t, w, ptr); } else { ServeReadClean(h, latest, t, w, ptr); }
    case Write(ptr) => ServeWriteGood(h, latest, t, w, ptr, false);
    case WritePermissionOnly(ptr) => ServeWriteGood(h, latest, t, w, ptr, true);
    case ActiveInvalidate(ptr) => ServeActiveInvalidate(h, latest, t, w, ptr);
    case WriteBack(ptr) => ServeWriteBack(h, latest, t, w, ptr);
  }

  lemma ReplyGood(h: Home, latest: Block, t: map<Wid, Traffic>, w: Wid, m: UpMsg)
    requires Good(h, latest, t) && IsReply(m) && Due(t, w, m)
    ensures var o := Reply(h, w, m);
      && o.ok && o.send.Keys <= t.Keys && (o.read.Some? ==> o.read.value == Latest(latest, o.wrote))
      && o.home.parked == h.parked
      && Good(o.home, Latest(latest, o.wrote), Deliver(Answered(t, w), o.send))
  {
    hide Good;
    assert Deliver(Answered(t, w), map[]) == Answered(t, w);
    match m
    case FetchSharedReply(b) => FetchSharedReplyGood(h, latest, t, w, b);
    case ReadForwardReply(b) => ReadForwardReplyGood(h, latest, t, w, b);
    case FetchInvalidateReply(b) => FetchInvalidateReplyGood(h, latest, t, w, b);
    case InvalidateAck => InvalidateAckGood(h, latest, t, w);
    case InvalidateForwardAck =>
      ReplyMatches(h, latest, t, w, m);
      if h.pending.counter == 1 {
        InvalidateForwardAckLast(h, latest, t, w);
      } else {
        InvalidateForwardAckMore(h, latest, t, w);
      }
    case WriteForwardAck => WriteForwardAckGood(h, latest, t, w);
  }

  lemma LocalWriteGood(h: Home, latest: Block, t: map<Wid, Traffic>, s: Store)
    requires Good(h, latest, t) && !InTransition(h.state)
    ensures var o := LocalWrite(h, s);
      && o.ok && o.send.Keys <= t.Keys && o.read.None? && o.home.parked == h.parked
      && Good(o.home, Latest(latest, o.wrote), Deliver(t, o.send))
  {
    if h.state.DirUnshared? {
      LocalWriteUnshared(h, latest, t, s);
      assert Deliver(t, map[]) == t;
    } else {
      LocalWriteDemands(h, latest, t, s);
    }
  }

  /** The parked queue itself is no part of the worker's records. */
  lemma ParkedIrrelevant(h: Home, parked: seq<Parked>, latest: Block, t: map<Wid, Traffic>)
    requires Good(h, latest, t)
    ensures Good(h.(parked := parked), latest, t)
  {
    var h' := h.(parked := parked);
    forall u | u in t ensures NodeOk(See(h', latest, t, u), t[u]) {
      assert See(h', latest, t, u) == See(h, latest, t, u);
    }
  }

  /** Posting messages is delivering traffic. */
  lemma Posted(s: State, o: HomeOut)
    requires o.home.parked == s.home.parked
    ensures TrafficMap(AfterHome(s, o).state) == Deliver(TrafficMap(s), o.send)
  {
    forall u | u in s.nodes && u in o.send
      ensures TrafficOf(s.home, u, s.nodes[u].(down := s.nodes[u].down + o.send[u]))
           == Receive(TrafficOf(s.home, u, s.nodes[u]), o.send[u])
    {
      SendGrants(s.nodes[u].down, o.send[u]);
      SendDemands(s.nodes[u].down, o.send[u]);
    }
  }

  ghost predicate Framed(s: State) {
    && (forall p | p in s.home.parked :: IsRequest(p.msg) && p.wid in s.nodes)
    && (forall w | w in s.nodes :: DataFirst(s.home.parked, w, s.nodes[w].up))
  }

  lemma HomeStep(s: State, o: HomeOut, t: map<Wid, Traffic>)
    requires s.ok && o.ok && Framed(s) && o.home.parked == s.home.parked && t == TrafficMap(s) && o.send.Keys <= t.Keys
    requires Good(o.home, Latest(s.latest, o.wrote), Deliver(t, o.send))
    ensures Inv(AfterHome(s, o).state)
  {
    Posted(s, o);
    var s' := AfterHome(s, o).state;
    forall w | w in s'.nodes ensures DataFirst(s'.home.parked, w, s'.nodes[w].up) {
      assert s'.nodes[w].up == s.nodes[w].up;
    }
  }

  /** Taking the oldest parked request takes its sender's oldest request. */
  lemma UnparkTraffic(s: State, s0: State, t: map<Wid, Traffic>)
    requires Framed(s) && s.home.parked != [] && t == TrafficMap(s)
    requires s0 == s.(home := s.home.(parked := s.home.parked[1..]))
    ensures var p := s.home.parked[0];
      && IsRequest(p.msg) && p.wid in t && t[p.wid].asks != [] && t[p.wid].asks[0] == p.msg
      && TrafficMap(s0) == Taken(t, p.wid) && Framed(s0)
  {
    var p := s.home.parked[0];
    assert p in s.home.parked;
    forall w | w in s.nodes
      ensures if w == p.wid
        then t[w].asks != [] && t[w].asks[0] == p.msg && TrafficMap(s0)[w] == t[w].(asks := t[w].asks[1..])
              else TrafficMap(s0)[w] == t[w]
      ensures DataFirst(s0.home.parked, w, s0.nodes[w].up)
    {
      TakeParked(s.home, s0.home, w, s.nodes[w]);
      Unpark(s.home.parked, w);
      assert DataFirst(s.home.parked, w, s.nodes[w].up);
    }
  }

  lemma ServeParkedKeeps(s: State)
    requires Inv(s) && Enabled(s, HomeServeParked)
    ensures Inv(Perform(s, HomeServeParked).state) && Perform(s, HomeServeParked).read.None?
  {
    var p := s.home.parked[0];
    var h := s.home.(parked := s.home.parked[1..]);
    var t := TrafficMap(s);
    UnparkTraffic(s, s.(home := h), t);
    ParkedIrrelevant(s.home, h.parked, s.latest, t);
    ServeGood(h, s.latest, t, p.wid, p.msg);
    HomeStep(s.(home := h), Serve(h, p.wid, p.msg), Taken(t, p.wid));
  }

  function Popped(s: State, w: Wid): State
    requires w in s.nodes && s.nodes[w].up != []
  {
    s.(nodes := s.nodes[w := s.nodes[w].(up := s.nodes[w].up[1..])])
  }

  lemma PoppedFramed(s: State, w: Wid)
    requires Framed(s) && w in s.nodes && s.nodes[w].up != []
    ensures Framed(Popped(s, w))
    ensures forall m | m in s.nodes[w].up[1..] :: !m.WriteBackData?
  {
    var s0 := Popped(s, w);
    var up := s.nodes[w].up;
    assert DataFirst(s.home.parked, w, up);
    forall i | 0 <= i < |up| - 1 ensures !up[1..][i].WriteBackData? { assert up[1..][i] == up[i+1]; }
    forall u | u in s0.nodes ensures DataFirst(s0.home.parked, u, s0.nodes[u].up) { }
  }

  /** Receiving a request or write-back data when none of the sender's is parked. */
  lemma PopAsk(s: State, w: Wid, t: map<Wid, Traffic>)
    requires w in s.nodes && s.nodes[w].up != [] && !IsReply(s.nodes[w].up[0])
    requires ParkedOf(s.home.parked, w) == [] && t == TrafficMap(s)
    ensures t[w].asks != [] && t[w].asks[0] == s.nodes[w].up[0]
    ensures TrafficMap(Popped(s, w)) == Taken(t, w)
  {
    TakeAsk(s.home, w, s.nodes[w]);
  }

  lemma NothingSent(t: map<Wid, Traffic>)
    ensures Deliver(t, map[]) == t
  {
  }

  lemma NoneParked(s: State, w: Wid)
    requires Framed(s) && w in s.nodes && s.nodes[w].up != [] && s.nodes[w].up[0].WriteBackData?
    ensures ParkedOf(s.home.parked, w) == []
  {
    assert DataFirst(s.home.parked, w, s.nodes[w].up);
  }

  function Landed(h: Home, b: Block): HomeOut { Out(h.(mem := b), map[], true) }

  lemma ReceiveDataKeeps(s: State, w: Wid)
    requires Inv(s) && w in s.nodes && s.nodes[w].up != [] && s.nodes[w].up[0].WriteBackData?
    ensures Inv(AfterHome(Popped(s, w), Landed(s.home, s.nodes[w].up[0].block)).state)
  {
    var b := s.nodes[w].up[0].block;
    var t := TrafficMap(s);
    NoneParked(s, w);
    PoppedFramed(s, w);
    PopAsk(s, w, t);
    WriteBackDataGood(s.home, s.latest, t, w, b);
    NothingSent(Taken(t, w));
    HomeStep(Popped(s, w), Landed(s.home, b), Taken(t, w));
  }

  lemma ReceiveRequestKeeps(s: State, w: Wid)
    requires Inv(s) && Enabled(s, HomeReceive(w)) && IsRequest(s.nodes[w].up[0]) && !InTransition(s.home.state)
    ensures Inv(Perform(s, HomeReceive(w)).state) && Perform(s, HomeReceive(w)).read.None?
  {
    var m := s.nodes[w].up[0];
    var t := TrafficMap(s);
    PoppedFramed(s, w);
    PopAsk(s, w, t);
    ServeGood(s.home, s.latest, t, w, m);
    HomeStep(Popped(s, w), HomeHandle(s.home, w, m), Taken(t, w));
  }

  /** Parking moves a request from the channel to the end of the queue. */
  lemma ParkTraffic(s: State, w: Wid, s': State)
    requires w in s.nodes && s.nodes[w].up != [] && IsRequest(s.nodes[w].up[0])
    requires s' == Popped(s, w).(home := s.home.(parked := s.home.parked + [Parked(w, s.nodes[w].up[0])]))
    ensures TrafficMap(s') == TrafficMap(s)
  {
    ParkAsk(s.home, s'.home, w, s.nodes[w]);
    forall u | u in s.nodes ensures TrafficMap(s')[u] == TrafficMap(s)[u] {
      if u != w { ParkOther(s.home, s'.home, Parked(w, s.nodes[w].up[0]), u, s.nodes[u]); }
    }
  }

  lemma ParkFramed(s: State, w: Wid, s': State)
    requires Framed(s) && w in s.nodes && s.nodes[w].up != [] && IsRequest(s.nodes[w].up[0])
    requires s' == Popped(s, w).(home := s.home.(parked := s.home.parked + [Parked(w, s.nodes[w].up[0])]))
    ensures Framed(s')
  {
    PoppedFramed(s, w);
    forall u | u in s.nodes ensures DataFirst(s'.home.parked, u, s'.nodes[u].up) {
      Park(s.home.parked, Parked(w, s.nodes[w].up[0]), u);
      assert DataFirst(s.home.parked, u, Popped(s, w).nodes[u].up);
    }
  }

  lemma ParkRequestKeeps(s: State, w: Wid)
    requires Inv(s) && Enabled(s, HomeReceive(w)) && IsRequest(s.nodes[w].up[0]) && InTransition(s.home.state)
    ensures Inv(Perform(s, HomeReceive(w)).state) && Perform(s, HomeReceive(w)).read.None?
  {
    var s' := Perform(s, HomeReceive(w)).state;
    assert Post(Popped(s, w).nodes, map[]) == Popped(s, w).nodes;
    ParkTraffic(s, w, s');
    ParkFramed(s, w, s');
    ParkedIrrelevant(s.home, s'.home.parked, s.latest, TrafficMap(s));
  }

  lemma ReplyFirst(s: State, w: Wid)
    requires Framed(s) && w in s.nodes && s.nodes[w].up != [] && IsReply(s.nodes[w].up[0])
    ensures NoData(TrafficOf(s.home, w, s.nodes[w]))
  {
    var rest := s.nodes[w].up[1..];
    PoppedFramed(s, w);
    TakeUp(s.nodes[w].up);
    RequestsOnly(rest);
    ParkedAreRequests(s.home.parked, w);
    var a, b := ParkedOf(s.home.parked, w), Requests(rest);
    assert a + b != [] ==> (a + b)[0] in a || (a + b)[0] in b;
  }

  lemma PopReply(s: State, w: Wid, t: map<Wid, Traffic>)
    requires w in s.nodes && s.nodes[w].up != [] && IsReply(s.nodes[w].up[0]) && t == TrafficMap(s)
    ensures t[w].replies != [] && t[w].replies[0] == s.nodes[w].up[0]
    ensures |t[w].replies| == 1 ==> TrafficMap(Popped(s, w)) == Answered(t, w)
  {
    TakeReply(s.home, w, s.nodes[w]);
  }

  lemma ReceiveReplyKeeps(s: State, w: Wid)
    requires Inv(s) && Enabled(s, HomeReceive(w)) && IsReply(s.nodes[w].up[0])
    ensures var r := Perform(s, HomeReceive(w)); Inv(r.state) && (r.read.Some? ==> r.read.value == r.state.latest)
  {
    var m := s.nodes[w].up[0];
    var t := TrafficMap(s);
    PoppedFramed(s, w);
    ReplyFirst(s, w);
    PopReply(s, w, t);
    ReplyMatches(s.home, s.latest, t, w, m);
    ReplyGood(s.home, s.latest, t, w, m);
    HomeStep(Popped(s, w), HomeHandle(s.home, w, m), Answered(t, w));
  }

  lemma LocalKeeps(s: State, step: Step)
    requires Inv(s) && Enabled(s, step) && (step.HomeLocalRead? || step.HomeLocalWrite?)
    ensures var r := Perform(s, step); Inv(r.state) && (r.read.Some? ==> r.read.value == r.state.latest)
  {
    var t := TrafficMap(s);
    if step.HomeLocalRead? {
      LocalReadGood(s.home, s.latest, t);
      HomeStep(s, LocalRead(s.home), t);
    } else {
      LocalWriteGood(s.home, s.latest, t, step.store);
      HomeStep(s, LocalWrite(s.home, step.store), t);
    }
  }
}
