/** Every step of a cache worker keeps the invariant of the whole system. */
module NodeSteps {
  import opened Blocks
  import opened Basics
  import opened Sharers
  import opened Protocol
  import opened Invariant
  import opened NodeProofs
  import opened Streams

  // ----- one worker's handlers, against its own part of the invariant -----

  predicate Before(h: Home, v: View, w: Wid, n: Node) {
    NodeOk(v, TrafficOf(h, w, n)) && DataFirst(h.parked, w, n.up) && (v.owes.Some? ==> v.entry.Some?)
  }

  /** The handler completed no write and answered no demand. */
  predicate Quiet(h: Home, v: View, w: Wid, n: Node, o: NodeOut) {
    && o.ok && o.send.None? && o.wrote.None? && (o.read.Some? ==> o.read.value == v.latest)
    && NodeOk(v, TrafficOf(h, w, o.node)) && DataFirst(h.parked, w, o.node.up)
    && TrafficOf(h, w, o.node).replies == TrafficOf(h, w, n).replies
  }

  /** The handler completed a write. */
  predicate Completed(h: Home, v: View, w: Wid, n: Node, o: NodeOut) {
    && o.ok && o.send.None? && o.wrote.Some? && o.read.None? && v.owner && v.entry.Some?
    && NodeOk(v.(latest := Patch(v.latest, o.wrote.value)), TrafficOf(h, w, o.node))
    && DataFirst(h.parked, w, o.node.up)
    && TrafficOf(h, w, o.node).replies == TrafficOf(h, w, n).replies == []
  }

  /** The handler answered the demand. */
  predicate Replied(h: Home, v: View, w: Wid, n: Node, o: NodeOut) {
    && o.ok && o.wrote.None? && o.read.None? && v.entry.Some?
    && NodeOk(v, TrafficOf(h, w, o.node)) && DataFirst(h.parked, w, o.node.up)
    && TrafficOf(h, w, n).replies == [] && TrafficOf(h, w, o.node).replies != []
    && v.owes.Some?
    && o.send == (match v.owes.value
                  case ReadForward(r, ptr) => Some((r, ReadData(ptr, v.latest)))
                  case WriteForward(r, ptr) => Some((r, OwnershipData(ptr, v.latest)))
                  case _ => None)
  }

  lemma AppendFirst(parked: seq<Parked>, w: Wid, up: seq<UpMsg>, m: UpMsg)
    requires DataFirst(parked, w, up) && !m.WriteBackData?
    ensures DataFirst(parked, w, up + [m])
  {
  }

  lemma ReadAt(h: Home, v: View, w: Wid, n: Node, ptr: Ptr)
    requires Before(h, v, w, n)
    ensures Quiet(h, v, w, n, if n.line.CacheToInvalid? then NOut(n, true) else CacheRead(n, ptr))
  {
    if n.line.Absent? {
      ReadMiss(v, TrafficOf(h, w, n), ptr);
      SendAsk(h, w, n.(line := CacheToShared(ptr)), Read(ptr));
      AppendFirst(h.parked, w, n.up, Read(ptr));
    }
  }

  lemma WriteAt(h: Home, v: View, w: Wid, n: Node, ptr: Ptr, init: Block, s: Store)
    requires Before(h, v, w, n)
    ensures var o := CacheWrite(n, ptr, init, s);
      if n.line.CacheDirty? then Completed(h, v, w, n, o) else Quiet(h, v, w, n, o)
  {
    var o := CacheWrite(n, ptr, init, s);
    var t := TrafficOf(h, w, n);
    if n.line.Absent? {
      WriteMiss(v, t, ptr, init, s);
      SendAsk(h, w, n.(line := o.node.line), Write(ptr));
      AppendFirst(h.parked, w, n.up, Write(ptr));
    } else if n.line.CacheShared? {
      Upgrade(v, t, s);
      SendAsk(h, w, n.(line := o.node.line), WritePermissionOnly(n.line.ptr));
      AppendFirst(h.parked, w, n.up, WritePermissionOnly(n.line.ptr));
    } else if n.line.CacheDirty? {
      DirtyWrite(v, t, s);
    }
  }

  lemma EvictSharedAt(h: Home, v: View, w: Wid, n: Node)
    requires Before(h, v, w, n) && !n.line.CacheDirty?
    ensures Quiet(h, v, w, n, Evict(n))
  {
    if n.line.CacheShared? {
      EvictShared(v, TrafficOf(h, w, n));
      SendAsk(h, w, n.(line := Absent), ActiveInvalidate(n.line.ptr));
      AppendFirst(h.parked, w, n.up, ActiveInvalidate(n.line.ptr));
    }
  }

  /** An owner has nothing on the way to the home worker. */
  lemma DirtyIdle(h: Home, v: View, w: Wid, n: Node)
    requires Before(h, v, w, n) && n.line.CacheDirty?
    ensures n.up == [] && ParkedOf(h.parked, w) == []
  {
    SortedLength(n.up);
  }

  lemma EvictDirtyAt(h: Home, v: View, w: Wid, n: Node)
    requires Before(h, v, w, n) && n.line.CacheDirty?
    ensures Quiet(h, v, w, n, Evict(n))
  {
    var d, b := WriteBackData(n.line.data), WriteBack(n.line.ptr);
    var t := TrafficOf(h, w, n);
    EvictDirty(v, t);
    DirtyIdle(h, v, w, n);
    var n1 := n.(line := CacheToInvalid(n.line.ptr, n.line.data, true));
    SendAsk(h, w, n1, d);
    SendAsk(h, w, n1.(up := n1.up + [d]), b);
    assert n.up + [d] + [b] == n.up + [d, b];
    assert t.asks + [d] + [b] == t.asks + [d, b];
  }

  lemma SendDoneAt(h: Home, v: View, w: Wid, n: Node)
    requires Before(h, v, w, n)
    ensures Quiet(h, v, w, n, SendDone(n))
  {
    if n.line.CacheToInvalid? && !n.line.evicting { Dropped(v, TrafficOf(h, w, n)); }
  }

  lemma GrantAt(h: Home, v: View, w: Wid, n: Node)
    requires Before(h, v, w, n) && n.down != [] && !IsDemand(n.down[0])
    ensures var o := FromHome(n.(down := n.down[1..]), n.down[0]);
      if o.wrote.Some? then Completed(h, v, w, n, o) else Quiet(h, v, w, n, o)
  {
    var t := TrafficOf(h, w, n);
    TakeGrant(h, w, n);
    match n.down[0] {
      case ReadReply(_, _) => ReadReplied(v, t);
      case LineData(_, _) => LineDataTaken(v, t);
      case EvictAck => EvictAcked(v, t);
      case WriteReply => WriteReplied(v, t);
      case OwnershipAck => OwnershipAcked(v, t);
    }
  }

  lemma PeerAt(h: Home, v: View, w: Wid, n: Node, i: nat)
    requires Before(h, v, w, n) && i < |n.peer|
    ensures var o := FromPeer(n.(peer := n.peer[..i] + n.peer[i+1..]), n.peer[i]);
      if o.wrote.Some? then Completed(h, v, w, n, o) else Quiet(h, v, w, n, o)
  {
    var t := TrafficOf(h, w, n);
    if n.peer[i].ReadData? { ReadDataTaken(v, t, i); } else { OwnershipDataTaken(v, t, i); }
  }

  /** The demand is out of the channel or the parked queue; `n'` is what is left. */
  predicate Demanding(h: Home, v: View, w: Wid, n: Node, n': Node, d: DownMsg) {
    && IsDemand(d) && Before(h, v, w, n)
    && Holding(v, TrafficOf(h, w, n), d) && TrafficOf(h, w, n') == Undemanded(TrafficOf(h, w, n))
    && n'.line == n.line && n'.up == n.up && n'.parked == []
    && v.role.NoRole? && v.owes == Some(d)
    && (v.owner <==> !(d.Invalidate? || d.InvalidateForward?))
  }

  lemma ReplyFirst(parked: seq<Parked>, h: Home, w: Wid, n: Node, l: Line, m: UpMsg)
    requires IsReply(m) && DataFirst(parked, w, n.up)
    ensures var t := TrafficOf(h, w, n);
      TrafficOf(h, w, n.(line := l, up := n.up + [m])) == t.(line := l, replies := t.replies + [m])
    ensures DataFirst(parked, w, n.up + [m])
  {
    SendReply(h, w, n.(line := l), m);
    AppendFirst(parked, w, n.up, m);
  }

  lemma AckOut(n: Node, d: DownMsg, ack: UpMsg, l: Line)
    requires (d.Invalidate? && ack == InvalidateAck) || (d.InvalidateForward? && ack == InvalidateForwardAck)
    requires !n.line.CacheToShared? && !n.line.CacheDirty? && l == if n.line.CacheShared? then Absent else n.line
    ensures ServeInvalidate(n, d) == NOut(n.(line := l, up := n.up + [ack]), true)
  {
  }

  lemma InvalidateWaits(h: Home, v: View, w: Wid, n: Node, n': Node, d: DownMsg)
    requires Demanding(h, v, w, n, n', d) && (d.Invalidate? || d.InvalidateForward?) && n.line.CacheToShared?
    ensures Quiet(h, v, w, n, ServeInvalidate(n', d))
  {
    Reparked(v, TrafficOf(h, w, n), d);
    assert n'.parked + [d] == [d];
  }

  lemma InvalidateAcked(h: Home, v: View, w: Wid, n: Node, n': Node, d: DownMsg)
    requires Demanding(h, v, w, n, n', d) && (d.Invalidate? || d.InvalidateForward?) && !n.line.CacheToShared?
    ensures Replied(h, v, w, n, ServeInvalidate(n', d))
  {
    var t := TrafficOf(h, w, n);
    var ack := if d.Invalidate? then InvalidateAck else InvalidateForwardAck;
    Acknowledged(v, t, d, ack);
    var l := if n.line.CacheShared? then Absent else n.line;
    ReplyFirst(h.parked, h, w, n', l, ack);
    AckOut(n', d, ack, l);
    assert Undemanded(t).replies + [ack] == [ack];
  }

  lemma ReadCacheAt(h: Home, v: View, w: Wid, n: Node, n': Node, d: DownMsg)
    requires Demanding(h, v, w, n, n', d) && (d.FetchAndShared? || d.ReadForward?)
    ensures var o := ServeReadCache(n', d);
      if n.line.CacheToDirty? then Quiet(h, v, w, n, o) else Replied(h, v, w, n, o)
  {
    hide NodeOk;
    var t := TrafficOf(h, w, n);
    var m := if d.FetchAndShared? then FetchSharedReply(v.latest) else ReadForwardReply(v.latest);
    OwnerHasCopy(v, t, d);
    if n.line.CacheToDirty? {
      Reparked(v, t, d);
      assert n'.parked + [d] == [d];
    } else {
      ReadYielded(v, t, d, m);
      ReplyFirst(h.parked, h, w, n', if n.line.CacheDirty? then CacheShared(n.line.ptr, n.line.data) else n.line, m);
      assert Undemanded(t).replies + [m] == [m];
    }
  }

  lemma WriteCacheAt(h: Home, v: View, w: Wid, n: Node, n': Node, d: DownMsg)
    requires Demanding(h, v, w, n, n', d) && (d.FetchAndInvalidate? || d.WriteForward?)
    ensures var o := ServeWriteCache(n', d);
      if n.line.CacheToDirty? then Quiet(h, v, w, n, o) else Replied(h, v, w, n, o)
  {
    hide NodeOk;
    var t := TrafficOf(h, w, n);
    var m := if d.FetchAndInvalidate? then FetchInvalidateReply(v.latest) else WriteForwardAck;
    OwnerHasCopy(v, t, d);
    if n.line.CacheToDirty? {
      Reparked(v, t, d);
      assert n'.parked + [d] == [d];
    } else {
      WriteYielded(v, t, d, m);
      ReplyFirst(h.parked, h, w, n',
        if n.line.CacheDirty? then CacheToInvalid(n.line.ptr, n.line.data, false) else n.line, m);
      assert Undemanded(t).replies + [m] == [m];
    }
  }
}
