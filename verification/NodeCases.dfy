/** How one worker's part of the invariant follows a change of the home worker's
    record about it. Each lemma covers one kind of change. */
module NodeCases {
  import opened Blocks
  import opened Basics
  import opened Sharers
  import opened Protocol
  import opened Invariant

  /** Nothing the home worker does matters to a worker it has no record of. */
  lemma Unlisted(v: View, v': View, t: Traffic)
    requires NodeOk(v, t) && v.entry.None? && v.role.NoRole? && v.owes.None?
    requires v'.entry.None? && v'.role.NoRole? && v'.owes.None?
    ensures NodeOk(v', t)
  {
  }

  /** A sharer is not affected while no owner is listed. */
  lemma StaysSharer(v: View, v': View, t: Traffic)
    requires NodeOk(v, t) && v.entry.Some? && v.role.NoRole? && !v.owner && !v.settled
    requires v' == v.(mem := v'.mem)
    ensures NodeOk(v', t)
  {
  }

  /** The home worker starts to demand something of a listed worker. */
  lemma Demanded(v: View, v': View, t: Traffic, d: DownMsg)
    requires NodeOk(v, t) && v.entry.Some? && v.role.NoRole? && v.owes.None?
    requires v' == v.(owes := Some(d), settled := false)
    ensures NodeOk(v', t.(demands := t.demands + [d]))
  {
    assert t.demands + [d] == [d];
  }

  /** A read is answered from home memory. */
  lemma ReadAnswered(v: View, v': View, t: Traffic, ptr: Ptr)
    requires NodeOk(v, t) && t.asks != [] && t.asks[0] == Read(ptr) && v.owes.None? && v.role.NoRole?
    requires v' == v.(entry := Some(ptr), owner := false, settled := false, mem := v'.mem)
    ensures v.entry.None?
    ensures NodeOk(v', t.(asks := t.asks[1..], grants := t.grants + [ReadReply(ptr, v.latest)]))
  {
    assert t.line.CacheToShared? && t.asks == [Read(ptr)];
    assert t.grants + [ReadReply(ptr, v.latest)] == [ReadReply(ptr, v.latest)];
  }

  /** A read is forwarded to the owner. */
  lemma ReadForwarded(v: View, v': View, t: Traffic, ptr: Ptr)
    requires NodeOk(v, t) && t.asks != [] && t.asks[0] == Read(ptr) && v.owes.None? && v.role.NoRole?
    requires v' == v.(role := WantsRead(ptr, false), settled := false)
    ensures v.entry.None?
    ensures NodeOk(v', t.(asks := t.asks[1..]))
  {
    assert t.line.CacheToShared? && t.asks == [Read(ptr)];
  }

  /** A write is granted while no copy of the worker is listed: home memory goes along. */
  lemma WriteGranted(v: View, v': View, t: Traffic, ptr: Ptr, perm: bool)
    requires NodeOk(v, t) && t.asks != [] && v.owes.None? && v.role.NoRole? && v.entry.None?
    requires t.asks[0] == if perm then WritePermissionOnly(ptr) else Write(ptr)
    requires v' == v.(entry := Some(ptr), owner := true, settled := true)
    ensures NodeOk(v', t.(asks := t.asks[1..], grants := t.grants + [LineData(ptr, v.latest), WriteReply]))
  {
    assert t.line.CacheToDirty? && |t.asks| == 1;
    assert t.grants + [LineData(ptr, v.latest), WriteReply] == [LineData(ptr, v.latest), WriteReply];
  }

  /** The only sharer upgrades its copy. */
  lemma UpgradeGranted(v: View, v': View, t: Traffic, ptr: Ptr)
    requires NodeOk(v, t) && t.asks != [] && v.owes.None? && v.role.NoRole? && v.entry.Some? && !v.owner
    requires t.asks[0] == WritePermissionOnly(ptr)
    requires v' == v.(entry := Some(ptr), owner := true, settled := true)
    ensures NodeOk(v', t.(asks := t.asks[1..], grants := t.grants + [WriteReply]))
  {
    assert t.line.CacheToDirty? && |t.asks| == 1;
    assert t.grants + [WriteReply] == [WriteReply];
    PatchTwice(v.latest, t.line.store);
  }

  /** Only an upgrade comes from a listed worker, and no request from the owner. */
  lemma AskerListed(v: View, t: Traffic)
    requires NodeOk(v, t) && t.asks != [] && v.owes.None? && v.role.NoRole? && v.entry.Some?
    requires t.asks[0].Read? || t.asks[0].Write? || t.asks[0].WritePermissionOnly? || t.asks[0].ActiveInvalidate?
    ensures !v.owner && (t.asks[0].WritePermissionOnly? || t.asks[0].ActiveInvalidate?)
    ensures v.entry == Some(t.asks[0].ptr)
  {
  }

  /** A write waits for the other sharers' acknowledgements. */
  lemma WriteCollects(v: View, v': View, t: Traffic, ptr: Ptr, perm: bool)
    requires NodeOk(v, t) && t.asks != [] && v.owes.None? && v.role.NoRole? && !v.owner && !v.settled
    requires t.asks[0] == if perm then WritePermissionOnly(ptr) else Write(ptr)
    requires v' == v.(role := WantsWrite(ptr, perm))
    ensures NodeOk(v', t.(asks := t.asks[1..]))
  {
    assert t.line.CacheToDirty? && |t.asks| == 1;
  }

  /** A write is forwarded to the owner. */
  lemma WriteForwarded(v: View, v': View, t: Traffic, ptr: Ptr, perm: bool)
    requires NodeOk(v, t) && t.asks != [] && v.owes.None? && v.role.NoRole? && v.entry.None?
    requires t.asks[0] == if perm then WritePermissionOnly(ptr) else Write(ptr)
    requires v' == v.(role := WantsOwnership(ptr, false), settled := false)
    ensures NodeOk(v', t.(asks := t.asks[1..]))
  {
    assert t.line.CacheToDirty? && |t.asks| == 1;
  }

  /** The notice of an evicted shared copy is taken. */
  lemma EvictedShared(v: View, v': View, t: Traffic)
    requires NodeOk(v, t) && t.asks != [] && t.asks[0].ActiveInvalidate? && v.owes.None? && v.role.NoRole?
    requires v'.entry.None? && v'.owes.None? && v'.role.NoRole?
    ensures NodeOk(v', t.(asks := t.asks[1..]))
  {
    var t' := t.(asks := t.asks[1..]);
    if t.line.Absent? {
      assert t'.asks == [];
    } else {
      assert t'.asks == t.asks[1..2];
    }
  }

  /** The write-back of an evicted line is taken and acknowledged. */
  lemma EvictedDirty(v: View, v': View, t: Traffic)
    requires NodeOk(v, t) && t.asks != [] && t.asks[0].WriteBack? && v.owes.None? && v.role.NoRole?
    requires v'.entry.None? && v'.owes.None? && v'.role.NoRole?
    ensures v.entry.Some? ==> v.entry == Some(t.asks[0].ptr)
    ensures v.entry.Some? && v.settled ==> v.mem == v.latest
    ensures NodeOk(v', t.(asks := t.asks[1..], grants := t.grants + [EvictAck]))
  {
    assert t.asks[1..] == [] && t.grants + [EvictAck] == [EvictAck];
  }

  predicate NoData(t: Traffic) { t.asks != [] ==> !t.asks[0].WriteBackData? }

  /** The owner's answer to a read has arrived: it is a sharer now. */
  lemma BecameSharer(v: View, v': View, t: Traffic)
    requires NodeOk(v, t) && v.entry.Some? && t.replies != [] && !Leaving(t) && NoData(t) && v.role.NoRole?
    requires v' == v.(owes := None, owner := false, settled := false, mem := v'.mem)
    ensures NodeOk(v', t.(replies := []))
  {
  }

  /** The requester of a forwarded read is listed. */
  lemma ReaderListed(v: View, v': View, t: Traffic)
    requires NodeOk(v, t) && v.entry.None? && v.owes.None? && v.role.WantsRead? && v.role.granted
    requires v' == v.(role := NoRole, entry := Some(v.role.ptr), owner := false, settled := false, mem := v'.mem)
    ensures NodeOk(v', t)
  {
  }

  /** An answer that gives a copy up has arrived. */
  lemma Left(v: View, v': View, t: Traffic)
    requires NodeOk(v, t) && v.entry.Some? && Leaving(t) && NoData(t) && v.role.NoRole?
    requires v'.entry.None? && v'.owes.None? && v'.role.NoRole?
    ensures NodeOk(v', t.(replies := []))
  {
  }

  /** All acknowledgements for a write have arrived. */
  lemma CollectedGrant(v: View, v': View, t: Traffic, data: bool)
    requires NodeOk(v, t) && v.owes.None? && v.role.WantsWrite?
    requires data || (v.role.perm && v.entry.Some?)
    requires v' == v.(role := NoRole, entry := Some(v.role.ptr), owner := true, settled := true)
    ensures NodeOk(v', t.(grants := t.grants + (if data then [LineData(v.role.ptr, v.latest)] else []) + [WriteReply]))
  {
    var ptr := v.role.ptr;
    assert t.grants + [LineData(ptr, v.latest)] + [WriteReply] == [LineData(ptr, v.latest), WriteReply];
    assert t.grants + [] + [WriteReply] == [WriteReply];
    PatchTwice(v.latest, t.line.store);
  }

  /** The old owner's acknowledgement of a forwarded write has arrived. */
  lemma OwnershipPassed(v: View, v': View, t: Traffic)
    requires NodeOk(v, t) && v.owes.None? && v.role.WantsOwnership? && v.role.granted
    requires v' == v.(role := NoRole, entry := Some(v.role.ptr), owner := true, settled := true)
    ensures NodeOk(v', t.(grants := t.grants + [OwnershipAck]))
  {
    assert t.grants + [OwnershipAck] == [OwnershipAck];
  }

  /** Write-back data lands in home memory. */
  lemma DataLanded(v: View, v': View, t: Traffic)
    requires NodeOk(v, t) && t.asks != [] && t.asks[0].WriteBackData? && (v.settled ==> v.owes.None?)
    requires v' == v.(mem := t.asks[0].block)
    ensures v.owner && v.entry.Some? && NodeOk(v', t.(asks := t.asks[1..]))
  {
    assert t.asks[1..] == [t.asks[1]];
  }

  /** Home memory does not matter to an unlisted worker. */
  lemma MemIrrelevant(v: View, v': View, t: Traffic)
    requires NodeOk(v, t) && v.entry.None? && v' == v.(mem := v'.mem)
    ensures NodeOk(v', t)
  {
  }
}
