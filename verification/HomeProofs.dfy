/** Every handler of the home worker keeps the invariant. */
module HomeProofs {
  import opened Blocks
  import opened Basics
  import opened Sharers
  import opened Protocol
  import opened Invariant
  import opened NodeCases

  function Receive(t: Traffic, ms: seq<DownMsg>): Traffic {
    t.(grants := t.grants + Grants(ms), demands := t.demands + Demands(ms))
  }

  lemma ReceiveOne(t: Traffic, m: DownMsg)
    ensures Receive(t, [m]) == if IsDemand(m) then t.(demands := t.demands + [m]) else t.(grants := t.grants + [m])
  {
    assert t.grants + [] == t.grants && t.demands + [] == t.demands;
    assert Grants([m]) == (if IsDemand(m) then [] else [m]) + Grants([]);
    assert Demands([m]) == (if IsDemand(m) then [m] else []) + Demands([]);
  }

  lemma ReceiveTwo(t: Traffic, m: DownMsg, m': DownMsg)
    requires !IsDemand(m) && !IsDemand(m')
    ensures Receive(t, [m, m']) == t.(grants := t.grants + [m, m'])
  {
    assert [m, m'][1..] == [m'] && [m'][1..] == [];
    assert Grants([m']) == [m'] + Grants([]) == [m'];
    assert Grants([m, m']) == [m] + Grants([m']) == [m, m'];
    assert Demands([m']) == [] + Demands([]) == [];
    assert Demands([m, m']) == [] + Demands([m']) == [];
    assert t.demands + [] == t.demands;
  }

  function Deliver(t: map<Wid, Traffic>, send: map<Wid, seq<DownMsg>>): map<Wid, Traffic> {
    map u | u in t :: if u in send then Receive(t[u], send[u]) else t[u]
  }

  /** Worker `w`'s oldest request has been taken. */
  function Taken(t: map<Wid, Traffic>, w: Wid): map<Wid, Traffic>
    requires w in t && t[w].asks != []
  {
    t[w := t[w].(asks := t[w].asks[1..])]
  }

  predicate Served(h: Home, latest: Block, t: map<Wid, Traffic>, w: Wid, m: UpMsg) {
    w in t && t[w].asks != [] && t[w].asks[0] == m && !InTransition(h.state)
  }

  /** The view of worker `u`. */
  function See(h: Home, latest: Block, t: map<Wid, Traffic>, u: Wid): View {
    ViewOf(h, Granted(h, t), latest, u)
  }

  /** The view while nothing is pending. */
  lemma StableView(h: Home, latest: Block, t: map<Wid, Traffic>, u: Wid)
    requires h.pending.Idle?
    ensures See(h, latest, t, u) ==
      View(Entry(h.shared, u), None, NoRole, h.state.DirDirty?, h.state.DirDirty?, h.mem, latest)
  {
  }

  /** Everybody but `w` is listed as before. */
  ghost predicate SameOthers(list: seq<Sharer>, list': seq<Sharer>, w: Wid) {
    forall u | u != w :: Entry(list', u) == Entry(list, u)
  }

  lemma AppendOthers(list: seq<Sharer>, e: Sharer)
    requires e.wid !in Wids(list)
    ensures SameOthers(list, list + [e], e.wid)
  {
    forall u | u != e.wid ensures Entry(list + [e], u) == Entry(list, u) { AppendEntry(list, e, u); }
  }

  /** A reader of a clean block is listed, beside the others, and gets the latest bytes. */
  lemma ServeReadClean(h: Home, latest: Block, t: map<Wid, Traffic>, w: Wid, ptr: Ptr)
    requires Good(h, latest, t) && Served(h, latest, t, w, Read(ptr)) && !h.state.DirDirty?
    ensures var o := ServeRead(h, w, ptr);
      && o.ok && o.send.Keys <= t.Keys && Good(o.home, latest, Deliver(Taken(t, w), o.send))
      && o.send == map[w := [ReadReply(ptr, latest)]]
      && o.home.state.DirShared? && Entry(o.home.shared, w) == Some(ptr)
      && SameOthers(h.shared, o.home.shared, w)
  {
    hide SameOthers, NodeOk;
    var o := ServeRead(h, w, ptr);
    var t' := Deliver(Taken(t, w), o.send);
    var v := ViewOf(h, Granted(h, t), latest, w);
    ReadAnswered(v, v.(entry := Some(ptr), owner := false, settled := false), t[w], ptr);
    EntryWids(h.shared, w);
    AppendEntry(h.shared, Sharer(w, ptr), w);
    AppendOthers(h.shared, Sharer(w, ptr));
    forall u | u in t' ensures NodeOk(ViewOf(o.home, Granted(o.home, t'), latest, u), t'[u]) {
      var v, v' := ViewOf(h, Granted(h, t), latest, u), ViewOf(o.home, Granted(o.home, t'), latest, u);
      AppendEntry(h.shared, Sharer(w, ptr), u);
      if u == w {
        ReceiveOne(Taken(t, w)[u], ReadReply(ptr, h.mem));
      } else if v.entry.Some? {
        StaysSharer(v, v', t[u]);
      } else {
        Unlisted(v, v', t[u]);
      }
    }
  }

  /** A read of a dirty block is forwarded to its one owner. */
  lemma ServeReadDirty(h: Home, latest: Block, t: map<Wid, Traffic>, w: Wid, ptr: Ptr)
    requires Good(h, latest, t) && Served(h, latest, t, w, Read(ptr)) && h.state.DirDirty?
    ensures var o := ServeRead(h, w, ptr);
      && o.ok && o.send.Keys <= t.Keys && Good(o.home, latest, Deliver(Taken(t, w), o.send))
      && h.shared[0].wid != w && o.send == map[h.shared[0].wid := [ReadForward(w, ptr)]]
      && o.home.pending == ForwardingRead(w, ptr) && o.home.shared == h.shared
  {
    var o := ServeRead(h, w, ptr);
    var t' := Deliver(Taken(t, w), o.send);
    var v := ViewOf(h, Granted(h, t), latest, w);
    ReadForwarded(v, v.(role := WantsRead(ptr, false), settled := false), t[w], ptr);
    var owner := h.shared[0].wid;
    SingleEntry(h.shared, w);
    ReceiveOne(t[owner], ReadForward(w, ptr));
    forall u | u in t' ensures NodeOk(ViewOf(o.home, Granted(o.home, t'), latest, u), t'[u]) {
      var v, v' := ViewOf(h, Granted(h, t), latest, u), ViewOf(o.home, Granted(o.home, t'), latest, u);
      SingleEntry(h.shared, u);
      if u == w {
      } else if u == owner {
        Demanded(v, v', t[u], ReadForward(w, ptr));
      } else {
        Unlisted(v, v', t[u]);
      }
    }
  }

  /** The block is handed to worker `w` while nobody else is listed. */
  lemma HandedOver(h: Home, h': Home, latest: Block, t: map<Wid, Traffic>, t': map<Wid, Traffic>,
    w: Wid, ptr: Ptr, u: Wid)
    requires Good(h, latest, t) && h.pending.Idle? && u in t && u in t' && u != w && t'[u] == t[u]
    requires Entry(h.shared, u).None?
    requires h' == h.(state := DirDirty, shared := [Sharer(w, ptr)])
    ensures NodeOk(See(h', latest, t', u), t'[u])
  {
    StableView(h, latest, t, u);
    StableView(h', latest, t', u);
    SingleEntry(h'.shared, u);
    Unlisted(See(h, latest, t, u), See(h', latest, t', u), t[u]);
  }

  /** A writer of an unshared block gets the latest bytes, then the reply, and is the owner. */
  lemma ServeWriteUnshared(h: Home, latest: Block, t: map<Wid, Traffic>, w: Wid, ptr: Ptr, perm: bool)
    requires Good(h, latest, t) && Served(h, latest, t, w, if perm then WritePermissionOnly(ptr) else Write(ptr))
    requires h.state.DirUnshared?
    ensures var o := ServeWrite(h, w, ptr, perm);
      && o.ok && o.send.Keys <= t.Keys && Good(o.home, latest, Deliver(Taken(t, w), o.send))
      && o.send == map[w := [LineData(ptr, latest), WriteReply]]
      && o.home.state.DirDirty? && o.home.shared == [Sharer(w, ptr)]
  {
    var o := ServeWrite(h, w, ptr, perm);
    var t' := Deliver(Taken(t, w), o.send);
    SingleEntry([Sharer(w, ptr)], w);
    StableView(h, latest, t, w);
    StableView(o.home, latest, t', w);
    WriteGranted(See(h, latest, t, w), See(o.home, latest, t', w), t[w], ptr, perm);
    ReceiveTwo(Taken(t, w)[w], LineData(ptr, h.mem), WriteReply);
    forall u | u in t' ensures NodeOk(See(o.home, latest, t', u), t'[u]) {
      if u != w { HandedOver(h, o.home, latest, t, t', w, ptr, u); }
    }
  }

  /** A write of a dirty block is forwarded to its one owner. */
  lemma ServeWriteDirty(h: Home, latest: Block, t: map<Wid, Traffic>, w: Wid, ptr: Ptr, perm: bool)
    requires Good(h, latest, t) && Served(h, latest, t, w, if perm then WritePermissionOnly(ptr) else Write(ptr))
    requires h.state.DirDirty?
    ensures var o := ServeWrite(h, w, ptr, perm);
      && o.ok && o.send.Keys <= t.Keys && Good(o.home, latest, Deliver(Taken(t, w), o.send))
      && h.shared[0].wid != w && o.send == map[h.shared[0].wid := [WriteForward(w, ptr)]]
      && o.home.pending == ForwardingWrite(w, ptr) && o.home.shared == h.shared
  {
    var o := ServeWrite(h, w, ptr, perm);
    var t' := Deliver(Taken(t, w), o.send);
    var owner := h.shared[0].wid;
    SingleEntry(h.shared, w);
    if owner == w { AskerListed(See(h, latest, t, w), t[w]); }
    ReceiveOne(t[owner], WriteForward(w, ptr));
    forall u | u in t' ensures NodeOk(See(o.home, latest, t', u), t'[u]) {
      var v, v' := See(h, latest, t, u), See(o.home, latest, t', u);
      SingleEntry(h.shared, u);
      if u == w {
        WriteForwarded(v, v', t[u], ptr, perm);
      } else if u == owner {
        Demanded(v, v', t[u], WriteForward(w, ptr));
      } else {
        Unlisted(v, v', t[u]);
      }
    }
  }

  /** The only sharer becomes the owner at once. */
  lemma ServeUpgrade(h: Home, latest: Block, t: map<Wid, Traffic>, w: Wid, ptr: Ptr, perm: bool)
    requires Good(h, latest, t) && Served(h, latest, t, w, if perm then WritePermissionOnly(ptr) else Write(ptr))
    requires h.state.DirShared? && w in Wids(h.shared) && |h.shared| == 1
    ensures var o := ServeWrite(h, w, ptr, perm);
      && o.ok && o.send.Keys <= t.Keys && Good(o.home, latest, Deliver(Taken(t, w), o.send))
      && perm && h.shared == [Sharer(w, ptr)] && o.home == h.(state := DirDirty) && o.send == map[w := [WriteReply]]
  {
    var o := ServeWrite(h, w, ptr, perm);
    var t' := Deliver(Taken(t, w), o.send);
    EntryWids(h.shared, w);
    AskerListed(See(h, latest, t, w), t[w]);
    SingleEntry([Sharer(w, ptr)], w);
    forall u | u in t' ensures NodeOk(See(o.home, latest, t', u), t'[u]) {
      var v, v' := See(h, latest, t, u), See(o.home, latest, t', u);
      SingleEntry(h.shared, u);
      if u == w {
        UpgradeGranted(v, v', t[u], ptr);
        ReceiveOne(Taken(t, w)[u], WriteReply);
      } else {
        HandedOver(h, o.home, latest, t, t', w, ptr, u);
      }
    }
  }

  /** The other sharers are asked to give up their copies; the writer waits. */
  lemma CollectStarts(h: Home, h': Home, latest: Block, t: map<Wid, Traffic>, t': map<Wid, Traffic>,
    w: Wid, ptr: Ptr, perm: bool, u: Wid)
    requires Good(h, latest, t) && Served(h, latest, t, w, if perm then WritePermissionOnly(ptr) else Write(ptr))
    requires h.state.DirShared? && h'.pending.InvalidatingForward?
    requires h' == h.(state := DirToDirty, pending := InvalidatingForward(h'.pending.counter, w, ptr, perm))
    requires u in t && u in t'
    requires t'[u] == if u == w then t[w].(asks := t[w].asks[1..])
                      else if u in Wids(h.shared) then t[u].(demands := t[u].demands + [InvalidateForward]) else t[u]
    ensures NodeOk(See(h', latest, t', u), t'[u])
  {
    var v, v' := See(h, latest, t, u), See(h', latest, t', u);
    StableView(h, latest, t, u);
    EntryWids(h.shared, u);
    if u == w {
      WriteCollects(v, v', t[u], ptr, perm);
    } else if v.entry.Some? {
      Demanded(v, v', t[u], InvalidateForward);
    } else {
      Unlisted(v, v', t[u]);
    }
  }

  /** Every other sharer is asked to give up its copy, and the writer waits. */
  lemma ServeWriteShared(h: Home, latest: Block, t: map<Wid, Traffic>, w: Wid, ptr: Ptr, perm: bool)
    requires Good(h, latest, t) && Served(h, latest, t, w, if perm then WritePermissionOnly(ptr) else Write(ptr))
    requires h.state.DirShared? && !(w in Wids(h.shared) && |h.shared| == 1)
    ensures var o := ServeWrite(h, w, ptr, perm);
      && o.ok && o.send.Keys <= t.Keys && Good(o.home, latest, Deliver(Taken(t, w), o.send))
      && o.send.Keys == Wids(h.shared) - {w} != {} && (forall u | u in o.send :: o.send[u] == [InvalidateForward])
      && o.home.pending.InvalidatingForward? && o.home.pending.wid == w && o.home.shared == h.shared
  {
    hide NodeOk;
    var o := ServeWrite(h, w, ptr, perm);
    var t' := Deliver(Taken(t, w), o.send);
    EntryWids(h.shared, w);
    if w in Wids(h.shared) { AskerListed(See(h, latest, t, w), t[w]); }
    forall u | u in t' ensures NodeOk(See(o.home, latest, t', u), t'[u]) {
      ReceiveOne(t[u], InvalidateForward);
      CollectStarts(h, o.home, latest, t, t', w, ptr, perm, u);
    }
  }

  lemma ServeWriteGood(h: Home, latest: Block, t: map<Wid, Traffic>, w: Wid, ptr: Ptr, perm: bool)
    requires Good(h, latest, t) && Served(h, latest, t, w, if perm then WritePermissionOnly(ptr) else Write(ptr))
    ensures var o := ServeWrite(h, w, ptr, perm);
      o.ok && o.send.Keys <= t.Keys && Good(o.home, latest, Deliver(Taken(t, w), o.send))
  {
    match h.state
    case DirUnshared => ServeWriteUnshared(h, latest, t, w, ptr, perm);
    case DirDirty => ServeWriteDirty(h, latest, t, w, ptr, perm);
    case DirShared =>
      if w in Wids(h.shared) && |h.shared| == 1 {
        ServeUpgrade(h, latest, t, w, ptr, perm);
      } else {
        ServeWriteShared(h, latest, t, w, ptr, perm);
      }
  }

  /** Taking worker `w` out of a sharer list without an owner. */
  lemma ClearKeepsOthers(h: Home, h': Home, latest: Block, t: map<Wid, Traffic>, t': map<Wid, Traffic>, w: Wid, u: Wid)
    requires Good(h, latest, t) && h.pending.Idle? && h'.pending.Idle? && u in t && u in t' && t'[u] == t[u] && u != w
    requires Entry(h'.shared, u) == Entry(h.shared, u)
    requires h'.mem == h.mem && (h'.state == h.state || (Entry(h.shared, u).None? && h'.state.DirUnshared?))
    ensures NodeOk(See(h', latest, t', u), t'[u])
  {
    var v, v' := See(h, latest, t, u), See(h', latest, t', u);
    if v.entry.None? { Unlisted(v, v', t[u]); } else { assert v == v'; }
  }

  lemma ClearEffect(h: Home, w: Wid, ptr: Ptr, u: Wid)
    requires DirOk(h) && h.pending.Idle?
    requires Entry(h.shared, w).Some? ==> Entry(h.shared, w) == Some(ptr)
    ensures var (h', ok) := DirClear(h, Sharer(w, ptr));
      && ok && DirOk(h') && h'.pending.Idle? && h'.mem == h.mem && !InTransition(h'.state)
      && Entry(h'.shared, u) == (if u == w then None else Entry(h.shared, u)) && Wids(h'.shared) == Wids(h.shared) - {w}
      && (h'.state == h.state || h'.state.DirUnshared?)
      && (h'.state != h.state ==> h'.shared == [])
      && (Entry(h.shared, w).None? ==> h' == h)
      && (h.state.DirDirty? && Entry(h.shared, w).Some? ==> h'.state.DirUnshared?)
  {
    var (h', ok) := DirClear(h, Sharer(w, ptr));
    EntryWids(h.shared, w);
    RemoveAddrEntry(h.shared, Sharer(w, ptr), u);
    if h.state.DirDirty? {
      SingleEntry(h.shared, w);
      SingleEntry(h.shared, u);
    }
    if Entry(h.shared, w).None? { RemoveAddrNothing(h.shared, Sharer(w, ptr)); }
  }

  lemma ClearOthers(h: Home, w: Wid, ptr: Ptr)
    requires DirOk(h) && h.pending.Idle?
    requires Entry(h.shared, w).Some? ==> Entry(h.shared, w) == Some(ptr)
    ensures SameOthers(h.shared, DirClear(h, Sharer(w, ptr)).0.shared, w)
  {
    hide DirOk, DirClear;
    forall u | u != w ensures Entry(DirClear(h, Sharer(w, ptr)).0.shared, u) == Entry(h.shared, u) {
      ClearEffect(h, w, ptr, u);
    }
  }

  lemma {:induction false} RemoveAddrNothing(list: seq<Sharer>, e: Sharer)
    requires Entry(list, e.wid).None?
    ensures RemoveAddr(list, e) == list
  {
    if list != [] { RemoveAddrNothing(list[1..], e); }
  }

  /** An evicted shared line is taken off the list, if it is still there. */
  lemma ServeActiveInvalidate(h: Home, latest: Block, t: map<Wid, Traffic>, w: Wid, ptr: Ptr)
    requires Good(h, latest, t) && Served(h, latest, t, w, ActiveInvalidate(ptr))
    ensures var o := Serve(h, w, ActiveInvalidate(ptr));
      && o.ok && o.send.Keys <= t.Keys && Good(o.home, latest, Deliver(Taken(t, w), o.send))
      && o.send == map[] && Entry(o.home.shared, w).None?
      && SameOthers(h.shared, o.home.shared, w)
      && (Entry(h.shared, w) != Some(ptr) ==> o.home == h)
  {
    hide SameOthers, NodeOk;
    var o := Serve(h, w, ActiveInvalidate(ptr));
    var t' := Deliver(Taken(t, w), o.send);
    if Entry(h.shared, w).Some? { AskerListed(See(h, latest, t, w), t[w]); }
    ClearEffect(h, w, ptr, w);
    ClearOthers(h, w, ptr);
    forall u | u in t' ensures NodeOk(See(o.home, latest, t', u), t'[u]) {
      ClearEffect(h, w, ptr, u);
      if u == w {
        EvictedShared(See(h, latest, t, u), See(o.home, latest, t', u), t[u]);
      } else {
        ClearKeepsOthers(h, o.home, latest, t, t', w, u);
      }
    }
  }

  /** An evicted dirty line is taken off the list, if it is still there, and acknowledged. */
  lemma ServeWriteBack(h: Home, latest: Block, t: map<Wid, Traffic>, w: Wid, ptr: Ptr)
    requires Good(h, latest, t) && Served(h, latest, t, w, WriteBack(ptr))
    ensures var o := Serve(h, w, WriteBack(ptr));
      && o.ok && o.send.Keys <= t.Keys && Good(o.home, latest, Deliver(Taken(t, w), o.send))
      && o.send == map[w := [EvictAck]] && Entry(o.home.shared, w).None?
      && SameOthers(h.shared, o.home.shared, w)
      && (Entry(h.shared, w) != Some(ptr) ==> o.home == h)
  {
    hide SameOthers, NodeOk;
    var o := Serve(h, w, WriteBack(ptr));
    var t' := Deliver(Taken(t, w), o.send);
    var gone := See(h, latest, t, w).(entry := None);
    EvictedDirty(See(h, latest, t, w), gone, t[w]);
    ClearEffect(h, w, ptr, w);
    ClearOthers(h, w, ptr);
    forall u | u in t' ensures NodeOk(See(o.home, latest, t', u), t'[u]) {
      ClearEffect(h, w, ptr, u);
      if u == w {
        EvictedDirty(See(h, latest, t, u), See(o.home, latest, t', u), t[u]);
        ReceiveOne(Taken(t, w)[u], EvictAck);
      } else {
        ClearKeepsOthers(h, o.home, latest, t, t', w, u);
      }
    }
  }
}
