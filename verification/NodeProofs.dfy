/** Every handler of a cache worker keeps the invariant. */
module NodeProofs {
  import opened Blocks
  import opened Basics
  import opened Sharers
  import opened Protocol
  import opened Invariant
  import opened HomeProofs

  // ----- one worker -----

  lemma ReadMiss(v: View, t: Traffic, ptr: Ptr)
    requires NodeOk(v, t) && t.line.Absent?
    ensures NodeOk(v, t.(line := CacheToShared(ptr), asks := t.asks + [Read(ptr)]))
  {
    assert (t.asks + [Read(ptr)])[..|t.asks|] == t.asks;
  }

  lemma WriteMiss(v: View, t: Traffic, ptr: Ptr, init: Block, s: Store)
    requires NodeOk(v, t) && t.line.Absent?
    ensures NodeOk(v, t.(line := CacheToDirty(ptr, init, false, s, 0), asks := t.asks + [Write(ptr)]))
  {
    assert (t.asks + [Write(ptr)])[..|t.asks|] == t.asks;
  }

  lemma Upgrade(v: View, t: Traffic, s: Store)
    requires NodeOk(v, t) && t.line.CacheShared?
    ensures NodeOk(v, t.(line := CacheToDirty(t.line.ptr, Patch(t.line.data, s), true, s, 0),
                         asks := t.asks + [WritePermissionOnly(t.line.ptr)]))
  {
    assert t.asks + [WritePermissionOnly(t.line.ptr)] == [WritePermissionOnly(t.line.ptr)];
  }

  lemma DirtyWrite(v: View, t: Traffic, s: Store)
    requires NodeOk(v, t) && t.line.CacheDirty?
    ensures NodeOk(v.(latest := Patch(v.latest, s)), t.(line := CacheDirty(t.line.ptr, Patch(t.line.data, s))))
  {
  }

  lemma EvictShared(v: View, t: Traffic)
    requires NodeOk(v, t) && t.line.CacheShared?
    ensures NodeOk(v, t.(line := Absent, asks := t.asks + [ActiveInvalidate(t.line.ptr)]))
  {
    assert t.asks + [ActiveInvalidate(t.line.ptr)] == [ActiveInvalidate(t.line.ptr)];
  }

  lemma EvictDirty(v: View, t: Traffic)
    requires NodeOk(v, t) && t.line.CacheDirty?
    ensures NodeOk(v, t.(line := CacheToInvalid(t.line.ptr, t.line.data, true),
                         asks := t.asks + [WriteBackData(t.line.data), WriteBack(t.line.ptr)]))
  {
    var l := t.line;
    assert t.asks + [WriteBackData(l.data), WriteBack(l.ptr)] == [WriteBackData(l.data), WriteBack(l.ptr)];
  }

  lemma Dropped(v: View, t: Traffic)
    requires NodeOk(v, t) && t.line.CacheToInvalid? && !t.line.evicting
    ensures NodeOk(v, t.(line := Absent))
  {
  }

  /** The demand has been taken out of the channel or the parked queue. */
  predicate Holding(v: View, t: Traffic, d: DownMsg) {
    (t.demands == [d] && t.waiting == []) || (t.demands == [] && t.waiting == [d])
  }

  function Undemanded(t: Traffic): Traffic { t.(demands := [], waiting := []) }

  /** A worker is asked for a copy only while it has it or is about to get it. */
  lemma OwnerHasCopy(v: View, t: Traffic, d: DownMsg)
    requires NodeOk(v, t) && v.owner && v.entry.Some? && Holding(v, t, d)
    ensures t.line.CacheToDirty? || t.line.CacheDirty? || (t.line.CacheToInvalid? && t.line.evicting)
    ensures t.line.CacheDirty? || t.line.CacheToInvalid? ==> t.line.data == v.latest
    ensures v.owes == Some(d) && t.replies == []
  {
  }

  lemma Reparked(v: View, t: Traffic, d: DownMsg)
    requires NodeOk(v, t) && Holding(v, t, d)
    ensures NodeOk(v, Undemanded(t).(waiting := [d]))
  {
  }

  lemma Acknowledged(v: View, t: Traffic, d: DownMsg, ack: UpMsg)
    requires NodeOk(v, t) && v.entry.Some? && !v.owner && v.role.NoRole? && Holding(v, t, d) && !t.line.CacheToShared?
    requires d.Invalidate? || d.InvalidateForward?
    requires ack == if d.Invalidate? then InvalidateAck else InvalidateForwardAck
    ensures !t.line.CacheDirty? && t.replies == []
    ensures NodeOk(v, Undemanded(t).(replies := [ack], line := if t.line.CacheShared? then Absent else t.line))
  {
  }

  lemma ReadYielded(v: View, t: Traffic, d: DownMsg, m: UpMsg)
    requires NodeOk(v, t) && v.owner && v.entry.Some? && Holding(v, t, d) && !t.line.CacheToDirty?
    requires (d.FetchAndShared? && m == FetchSharedReply(v.latest))
      || (d.ReadForward? && m == ReadForwardReply(v.latest))
    ensures NodeOk(v, Undemanded(t).(replies := [m],
                     line := if t.line.CacheDirty? then CacheShared(t.line.ptr, t.line.data) else t.line))
  {
  }

  lemma WriteYielded(v: View, t: Traffic, d: DownMsg, m: UpMsg)
    requires NodeOk(v, t) && v.owner && v.entry.Some? && Holding(v, t, d) && !t.line.CacheToDirty?
    requires (d.FetchAndInvalidate? && m == FetchInvalidateReply(v.latest)) || (d.WriteForward? && m == WriteForwardAck)
    ensures NodeOk(v, Undemanded(t).(replies := [m],
                     line := if t.line.CacheDirty? then CacheToInvalid(t.line.ptr, t.line.data, false) else t.line))
  {
  }

  lemma ReaderServed(v: View, t: Traffic)
    requires NodeOk(v, t) && v.role.WantsRead? && !v.role.granted
    ensures NodeOk(v.(role := WantsRead(v.role.ptr, true)), t.(peer := t.peer + [ReadData(v.role.ptr, v.latest)]))
  {
    assert t.peer + [ReadData(v.role.ptr, v.latest)] == [ReadData(v.role.ptr, v.latest)];
  }

  lemma WriterServed(v: View, t: Traffic)
    requires NodeOk(v, t) && v.role.WantsOwnership? && !v.role.granted
    ensures NodeOk(v.(role := WantsOwnership(v.role.ptr, true)),
      t.(peer := t.peer + [OwnershipData(v.role.ptr, v.latest)]))
  {
    assert t.peer + [OwnershipData(v.role.ptr, v.latest)] == [OwnershipData(v.role.ptr, v.latest)];
  }

  lemma ReadReplied(v: View, t: Traffic)
    requires NodeOk(v, t) && t.grants != [] && t.grants[0].ReadReply?
    ensures t.line == CacheToShared(t.grants[0].ptr) && t.grants[0].block == v.latest
    ensures NodeOk(v, t.(line := CacheShared(t.line.ptr, v.latest), grants := t.grants[1..]))
  {
  }

  lemma ReadDataTaken(v: View, t: Traffic, i: nat)
    requires NodeOk(v, t) && i < |t.peer| && t.peer[i].ReadData?
    ensures t.line == CacheToShared(t.peer[i].ptr) && t.peer[i].block == v.latest
    ensures NodeOk(v, t.(line := CacheShared(t.line.ptr, v.latest), peer := t.peer[..i] + t.peer[i+1..]))
  {
    assert t.peer[..i] + t.peer[i+1..] == [];
  }

  lemma LineDataTaken(v: View, t: Traffic)
    requires NodeOk(v, t) && t.grants != [] && t.grants[0].LineData?
    ensures t.line.CacheToDirty? && t.line.ptr == t.grants[0].ptr
    ensures NodeOk(v, t.(grants := t.grants[1..],
      line := CacheToDirty(t.line.ptr, t.grants[0].block, t.line.perm, t.line.store, t.line.counter)))
  {
    assert t.grants[1..] == [WriteReply];
  }

  /** The writer's bytes are in the line and the line is dirty. */
  function Written(t: Traffic): Traffic
    requires t.line.CacheToDirty?
  {
    t.(line := CacheDirty(t.line.ptr, Patch(t.line.data, t.line.store)))
  }

  lemma WriteReplied(v: View, t: Traffic)
    requires NodeOk(v, t) && t.grants != [] && t.grants[0].WriteReply?
    ensures t.line.CacheToDirty? && t.line.counter == 0 && v.owner && v.entry.Some? && t.replies == [] && v.role.NoRole?
    ensures NodeOk(v.(latest := Patch(v.latest, t.line.store)), Written(t).(grants := t.grants[1..]))
  {
  }

  lemma OwnershipAcked(v: View, t: Traffic)
    requires NodeOk(v, t) && t.grants != [] && t.grants[0].OwnershipAck?
    ensures t.line.CacheToDirty? && v.owner && v.entry.Some? && t.replies == [] && v.role.NoRole?
    ensures t.line.counter == -1 ==>
      NodeOk(v.(latest := Patch(v.latest, t.line.store)), Written(t).(grants := t.grants[1..]))
    ensures t.line.counter != -1 ==>
      NodeOk(v, t.(grants := t.grants[1..],
                   line := CacheToDirty(t.line.ptr, t.line.data, t.line.perm, t.line.store, t.line.counter + 1)))
  {
  }

  lemma OwnershipDataTaken(v: View, t: Traffic, i: nat)
    requires NodeOk(v, t) && i < |t.peer| && t.peer[i].OwnershipData?
    ensures t.line.CacheToDirty? && t.line.ptr == t.peer[i].ptr && t.replies == []
    ensures var l := CacheToDirty(t.line.ptr, t.peer[i].block, t.line.perm, t.line.store, t.line.counter - 1);
      var t' := t.(peer := t.peer[..i] + t.peer[i+1..], line := l);
      if l.counter == 0 then
        v.owner && v.entry.Some? && v.role.NoRole? && NodeOk(v.(latest := Patch(v.latest, l.store)), Written(t'))
      else NodeOk(v, t')
  {
    assert t.peer[..i] + t.peer[i+1..] == [];
  }

  lemma EvictAcked(v: View, t: Traffic)
    requires NodeOk(v, t) && t.grants != [] && t.grants[0].EvictAck?
    ensures t.line.CacheToInvalid? && t.line.evicting
    ensures NodeOk(v, t.(line := Absent, grants := t.grants[1..]))
  {
  }

  /** A new latest value does not matter to workers without a copy or a granted request. */
  lemma LatestIrrelevant(v: View, v': View, t: Traffic)
    requires NodeOk(v, t) && v.entry.None? && v.owes.None? && !v.role.WantsWrite?
    requires v.role.WantsRead? || v.role.WantsOwnership? ==> !v.role.granted
    requires v' == v.(latest := v'.latest)
    ensures NodeOk(v', t)
  {
  }

  // ----- the system -----

  /** A step of worker `w` that leaves its replies alone. */
  lemma QuietStep(h: Home, latest: Block, t: map<Wid, Traffic>, w: Wid, tw: Traffic)
    requires Good(h, latest, t) && w in t && tw.replies == t[w].replies
    requires NodeOk(See(h, latest, t, w), tw)
    ensures Good(h, latest, t[w := tw])
  {
    var t' := t[w := tw];
    assert Granted(h, t') == Granted(h, t);
    forall u | u in t' ensures NodeOk(See(h, latest, t', u), t'[u]) { }
  }

  /** Worker `w` completes a write. */
  lemma WriteStep(h: Home, latest: Block, t: map<Wid, Traffic>, w: Wid, tw: Traffic, s: Store)
    requires Good(h, latest, t) && w in t && tw.replies == t[w].replies == []
    requires OwnerMode(h) && Entry(h.shared, w).Some?
    requires NodeOk(See(h, Patch(latest, s), t, w), tw)
    ensures Good(h, Patch(latest, s), t[w := tw])
  {
    var t', latest' := t[w := tw], Patch(latest, s);
    SingleEntry(h.shared, w);
    assert !Granted(h, t) && !Granted(h, t');
    forall u | u in t' ensures NodeOk(See(h, latest', t', u), t'[u]) {
      SingleEntry(h.shared, u);
      if u != w { LatestIrrelevant(See(h, latest, t, u), See(h, latest', t', u), t[u]); }
    }
  }

  /** Worker `w` answers a demand that names no requester. */
  lemma AnswerStep(h: Home, latest: Block, t: map<Wid, Traffic>, w: Wid, tw: Traffic)
    requires Good(h, latest, t) && w in t
    requires !h.pending.ForwardingRead? && !h.pending.ForwardingWrite?
    requires NodeOk(See(h, latest, t, w), tw)
    ensures Good(h, latest, t[w := tw])
  {
    var t' := t[w := tw];
    forall u | u in t' ensures NodeOk(See(h, latest, t', u), t'[u]) { }
  }

  /** Worker `w`, the owner, answers a forwarded request: the requester gets the data. */
  lemma ForwardStep(h: Home, latest: Block, t: map<Wid, Traffic>, w: Wid, tw: Traffic)
    requires Good(h, latest, t) && w in t && Entry(h.shared, w).Some?
    requires h.pending.ForwardingRead? || h.pending.ForwardingWrite?
    requires t[w].replies == [] && tw.replies != []
    requires NodeOk(See(h, latest, t, w), tw)
    ensures h.pending.wid in t && h.pending.wid != w
    ensures var r, ptr := h.pending.wid, h.pending.ptr;
      var m := if h.pending.ForwardingRead? then ReadData(ptr, latest) else OwnershipData(ptr, latest);
      Good(h, latest, t[w := tw][r := t[r].(peer := t[r].peer + [m])])
  {
    var r, ptr := h.pending.wid, h.pending.ptr;
    var m := if h.pending.ForwardingRead? then ReadData(ptr, latest) else OwnershipData(ptr, latest);
    SingleEntry(h.shared, w);
    var t' := t[w := tw][r := t[r].(peer := t[r].peer + [m])];
    assert !Granted(h, t) && Granted(h, t');
    forall u | u in t' ensures NodeOk(See(h, latest, t', u), t'[u]) {
      var v := See(h, latest, t, u);
      if u == r {
        if h.pending.ForwardingRead? { ReaderServed(v, t[u]); } else { WriterServed(v, t[u]); }
      }
    }
  }
}
