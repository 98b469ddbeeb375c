/** The home worker's handling of replies, of its local threads' requests and of
    landing write-back data keeps the invariant. */
module ReplyProofs {
  import opened Blocks
  import opened Basics
  import opened Sharers
  import opened Protocol
  import opened Invariant
  import opened NodeCases
  import opened HomeProofs

  /** Worker `w`'s reply has been taken. */
  function Answered(t: map<Wid, Traffic>, w: Wid): map<Wid, Traffic>
    requires w in t
  {
    t[w := t[w].(replies := [])]
  }

  /** A reply of worker `w` is due: it belongs to the pending work. */
  predicate Due(t: map<Wid, Traffic>, w: Wid, m: UpMsg) {
    w in t && t[w].replies != [] && t[w].replies[0] == m && NoData(t[w])
  }

  lemma ReplyMatches(h: Home, latest: Block, t: map<Wid, Traffic>, w: Wid, m: UpMsg)
    requires Good(h, latest, t) && Due(t, w, m)
    ensures !h.pending.Idle? && Entry(h.shared, w).Some? && w in Wids(h.shared) && t[w].replies == [m]
    ensures Owes(h, w) == Some(Demand(h.pending)) && RoleOf(h, Granted(h, t), w).NoRole?
    ensures Answers(Demand(h.pending), m, latest)
  {
    var v := See(h, latest, t, w);
    assert NodeOk(v, t[w]);
    EntryWids(h.shared, w);
    if |h.shared| == 1 { SingleEntry(h.shared, w); }
  }

  lemma FetchSharedReplyGood(h: Home, latest: Block, t: map<Wid, Traffic>, w: Wid, b: Block)
    requires Good(h, latest, t) && Due(t, w, FetchSharedReply(b))
    ensures var o := Reply(h, w, FetchSharedReply(b));
      && o.ok && o.send == map[] && o.wrote.None? && o.read == Some(latest)
      && Good(o.home, latest, Answered(t, w))
  {
    var o := Reply(h, w, FetchSharedReply(b));
    var t' := Answered(t, w);
    ReplyMatches(h, latest, t, w, FetchSharedReply(b));
    SingleEntry(h.shared, w);
    forall u | u in t' ensures NodeOk(See(o.home, latest, t', u), t'[u]) {
      var v, v' := See(h, latest, t, u), See(o.home, latest, t', u);
      SingleEntry(h.shared, u);
      if u == w { BecameSharer(v, v', t[u]); } else { Unlisted(v, v', t[u]); }
    }
  }

  lemma ReadForwardReplyGood(h: Home, latest: Block, t: map<Wid, Traffic>, w: Wid, b: Block)
    requires Good(h, latest, t) && Due(t, w, ReadForwardReply(b))
    ensures var o := Reply(h, w, ReadForwardReply(b));
      o.ok && o.send == map[] && o.wrote.None? && o.read.None? && Good(o.home, latest, Answered(t, w))
  {
    var o := Reply(h, w, ReadForwardReply(b));
    var t' := Answered(t, w);
    ReplyMatches(h, latest, t, w, ReadForwardReply(b));
    SingleEntry(h.shared, w);
    var r := Sharer(h.pending.wid, h.pending.ptr);
    AppendEntry(h.shared, r, w);
    forall u | u in t' ensures NodeOk(See(o.home, latest, t', u), t'[u]) {
      var v, v' := See(h, latest, t, u), See(o.home, latest, t', u);
      SingleEntry(h.shared, u);
      AppendEntry(h.shared, r, u);
      if u == w { BecameSharer(v, v', t[u]); }
      else if u == r.wid { ReaderListed(v, v', t[u]); }
      else { Unlisted(v, v', t[u]); }
    }
  }

  lemma FetchInvalidateReplyGood(h: Home, latest: Block, t: map<Wid, Traffic>, w: Wid, b: Block)
    requires Good(h, latest, t) && Due(t, w, FetchInvalidateReply(b))
    ensures var o := Reply(h, w, FetchInvalidateReply(b));
      && o.ok && o.send == map[] && o.wrote.Some? && o.read.None?
      && Good(o.home, Latest(latest, o.wrote), Answered(t, w))
  {
    var o := Reply(h, w, FetchInvalidateReply(b));
    var t' := Answered(t, w);
    ReplyMatches(h, latest, t, w, FetchInvalidateReply(b));
    SingleEntry(h.shared, w);
    RemoveWidEntry(h.shared, w, w);
    var latest' := Latest(latest, o.wrote);
    forall u | u in t' ensures NodeOk(See(o.home, latest', t', u), t'[u]) {
      var v, v' := See(h, latest, t, u), See(o.home, latest', t', u);
      SingleEntry(h.shared, u);
      if u == w { Left(v, v', t[u]); } else { Unlisted(v, v', t[u]); }
    }
  }

  lemma LastSharer(list: seq<Sharer>, w: Wid)
    requires Distinct(list) && w in Wids(list) && |list| == 1
    ensures RemoveWid(list, w) == []
  {
    RemoveWidEntry(list, w, w);
  }

  lemma InvalidateAckGood(h: Home, latest: Block, t: map<Wid, Traffic>, w: Wid)
    requires Good(h, latest, t) && Due(t, w, InvalidateAck)
    ensures var o := Reply(h, w, InvalidateAck);
      && o.ok && o.send == map[] && o.read.None?
      && Good(o.home, Latest(latest, o.wrote), Answered(t, w))
  {
    var o := Reply(h, w, InvalidateAck);
    var t' := Answered(t, w);
    ReplyMatches(h, latest, t, w, InvalidateAck);
    RemoveWidEntry(h.shared, w, w);
    if h.pending.counter == 1 { LastSharer(h.shared, w); }
    var latest' := Latest(latest, o.wrote);
    forall u | u in t' ensures NodeOk(See(o.home, latest', t', u), t'[u]) {
      var v, v' := See(h, latest, t, u), See(o.home, latest', t', u);
      RemoveWidEntry(h.shared, w, u);
      if u == w { Left(v, v', t[u]); }
      else if h.pending.counter != 1 { assert v == v'; }
      else { Unlisted(v, v', t[u]); }
    }
  }

  lemma InvalidateForwardAckMore(h: Home, latest: Block, t: map<Wid, Traffic>, w: Wid)
    requires Good(h, latest, t) && Due(t, w, InvalidateForwardAck)
    requires h.pending.InvalidatingForward? && h.pending.counter != 1
    ensures var o := Reply(h, w, InvalidateForwardAck);
      o.ok && o.send == map[] && o.wrote.None? && o.read.None? && Good(o.home, latest, Answered(t, w))
  {
    var o := Reply(h, w, InvalidateForwardAck);
    var t' := Answered(t, w);
    ReplyMatches(h, latest, t, w, InvalidateForwardAck);
    RemoveWidEntry(h.shared, w, w);
    forall u | u in t' ensures NodeOk(See(o.home, latest, t', u), t'[u]) {
      var v, v' := See(h, latest, t, u), See(o.home, latest, t', u);
      RemoveWidEntry(h.shared, w, u);
      if u == w { Left(v, v', t[u]); } else { assert v == v'; }
    }
  }

  lemma TwoSharers(list: seq<Sharer>, a: Wid, b: Wid)
    requires Distinct(list) && a in Wids(list) && b in Wids(list) && a != b && |list| == 2
    ensures Wids(list) == {a, b}
  {
    SingleEntry(list[1..], a);
  }

  /** The last acknowledgement hands the block to the writer; memory goes along
      unless the writer upgrades a copy that is still listed. */
  lemma LastAckOut(h: Home, w: Wid)
    requires DirOk(h) && h.pending.InvalidatingForward? && h.pending.counter == 1
    requires w in Wids(h.shared) && w != h.pending.wid
    ensures var o, p := Reply(h, w, InvalidateForwardAck), h.pending;
      && o.ok && o.wrote.None? && o.read.None?
      && o.home == h.(state := DirDirty, shared := [Sharer(p.wid, p.ptr)], pending := Idle)
      && o.send == map[p.wid :=
           if p.perm && p.wid in Wids(h.shared) then [WriteReply] else [LineData(p.ptr, h.mem), WriteReply]]
      && forall u | u in Wids(h.shared) :: u == w || u == p.wid
  {
    var p := h.pending;
    RemoveWidEntry(h.shared, w, p.wid);
    if p.wid in Wids(h.shared) {
      TwoSharers(h.shared, w, p.wid);
      assert [] + [WriteReply] == [WriteReply];
    } else {
      LastSharer(h.shared, w);
      SingleEntry(h.shared, w);
    }
    assert [LineData(p.ptr, h.mem)] + [WriteReply] == [LineData(p.ptr, h.mem), WriteReply];
  }

  lemma WriterGranted(h: Home, h': Home, latest: Block, t: map<Wid, Traffic>, t': map<Wid, Traffic>, data: bool)
    requires Good(h, latest, t) && h.pending.InvalidatingForward?
    requires h' == h.(state := DirDirty, shared := [Sharer(h.pending.wid, h.pending.ptr)], pending := Idle)
    requires data || (h.pending.perm && h.pending.wid in Wids(h.shared))
    requires h.pending.wid in t'
    requires t'[h.pending.wid] ==
      Receive(t[h.pending.wid], if data then [LineData(h.pending.ptr, h.mem), WriteReply] else [WriteReply])
    ensures NodeOk(See(h', latest, t', h.pending.wid), t'[h.pending.wid])
  {
    var r, ptr := h.pending.wid, h.pending.ptr;
    EntryWids(h.shared, r);
    SingleEntry(h'.shared, r);
    CollectedGrant(See(h, latest, t, r), See(h', latest, t', r), t[r], data);
    ReceiveOne(t[r], WriteReply);
    ReceiveTwo(t[r], LineData(ptr, h.mem), WriteReply);
    assert t[r].grants + [] + [WriteReply] == t[r].grants + [WriteReply];
    assert t[r].grants + [LineData(ptr, h.mem)] + [WriteReply] == t[r].grants + [LineData(ptr, h.mem), WriteReply];
  }

  lemma InvalidateForwardAckLast(h: Home, latest: Block, t: map<Wid, Traffic>, w: Wid)
    requires Good(h, latest, t) && Due(t, w, InvalidateForwardAck)
    requires h.pending.InvalidatingForward? && h.pending.counter == 1
    ensures var o := Reply(h, w, InvalidateForwardAck);
      && o.ok && o.send.Keys <= t.Keys && o.wrote.None? && o.read.None?
      && Good(o.home, latest, Deliver(Answered(t, w), o.send))
  {
    var o := Reply(h, w, InvalidateForwardAck);
    var t' := Deliver(Answered(t, w), o.send);
    ReplyMatches(h, latest, t, w, InvalidateForwardAck);
    LastAckOut(h, w);
    var r := h.pending.wid;
    SingleEntry(o.home.shared, w);
    WriterGranted(h, o.home, latest, t, t', !(h.pending.perm && r in Wids(h.shared)));
    forall u | u in t' ensures NodeOk(See(o.home, latest, t', u), t'[u]) {
      var v, v' := See(h, latest, t, u), See(o.home, latest, t', u);
      EntryWids(h.shared, u);
      SingleEntry(o.home.shared, u);
      if u == w { Left(v, v', t[u]); }
      else if u != r { Unlisted(v, v', t[u]); }
    }
  }

  lemma WriteForwardAckGood(h: Home, latest: Block, t: map<Wid, Traffic>, w: Wid)
    requires Good(h, latest, t) && Due(t, w, WriteForwardAck)
    ensures var o := Reply(h, w, WriteForwardAck);
      && o.ok && o.send.Keys <= t.Keys && o.wrote.None? && o.read.None?
      && Good(o.home, latest, Deliver(Answered(t, w), o.send))
  {
    var o := Reply(h, w, WriteForwardAck);
    var t' := Deliver(Answered(t, w), o.send);
    ReplyMatches(h, latest, t, w, WriteForwardAck);
    SingleEntry(h.shared, w);
    var r, ptr := h.pending.wid, h.pending.ptr;
    SingleEntry([Sharer(r, ptr)], w);
    ReceiveOne(t[r], OwnershipAck);
    forall u | u in t' ensures NodeOk(See(o.home, latest, t', u), t'[u]) {
      var v, v' := See(h, latest, t, u), See(o.home, latest, t', u);
      SingleEntry(h.shared, u);
      SingleEntry([Sharer(r, ptr)], u);
      if u == w { Left(v, v', t[u]); }
      else if u == r { OwnershipPassed(v, v', t[u]); }
      else { Unlisted(v, v', t[u]); }
    }
  }

  lemma LocalReadGood(h: Home, latest: Block, t: map<Wid, Traffic>)
    requires Good(h, latest, t) && !InTransition(h.state)
    ensures var o := LocalRead(h);
      && o.ok && o.send.Keys <= t.Keys && o.wrote.None? && (o.read.Some? ==> o.read.value == latest)
      && Good(o.home, latest, Deliver(t, o.send))
  {
    var o := LocalRead(h);
    var t' := Deliver(t, o.send);
    if h.state.DirDirty? {
      var owner := h.shared[0].wid;
      SingleEntry(h.shared, owner);
      ReceiveOne(t[owner], FetchAndShared);
      forall u | u in t' ensures NodeOk(See(o.home, latest, t', u), t'[u]) {
        var v, v' := See(h, latest, t, u), See(o.home, latest, t', u);
        SingleEntry(h.shared, u);
        if u == owner { Demanded(v, v', t[u], FetchAndShared); } else { Unlisted(v, v', t[u]); }
      }
    } else {
      assert t' == t;
    }
  }

  lemma LocalWriteUnshared(h: Home, latest: Block, t: map<Wid, Traffic>, s: Store)
    requires Good(h, latest, t) && h.state.DirUnshared?
    ensures var o := LocalWrite(h, s);
      && o.ok && o.send == map[] && o.read.None?
      && Good(o.home, Latest(latest, o.wrote), t)
  {
    var o := LocalWrite(h, s);
    var latest' := Latest(latest, o.wrote);
    forall u | u in t ensures NodeOk(See(o.home, latest', t, u), t[u]) {
      Unlisted(See(h, latest, t, u), See(o.home, latest', t, u), t[u]);
    }
  }

  lemma LocalWriteDemands(h: Home, latest: Block, t: map<Wid, Traffic>, s: Store)
    requires Good(h, latest, t) && (h.state.DirDirty? || h.state.DirShared?)
    ensures var o := LocalWrite(h, s);
      && o.ok && o.send.Keys <= t.Keys && o.wrote.None? && o.read.None?
      && Good(o.home, latest, Deliver(t, o.send))
  {
    hide NodeOk;
    var o := LocalWrite(h, s);
    var t' := Deliver(t, o.send);
    var m := if h.state.DirDirty? then FetchAndInvalidate else Invalidate;
    forall u | u in t' ensures NodeOk(See(o.home, latest, t', u), t'[u]) {
      var v, v' := See(h, latest, t, u), See(o.home, latest, t', u);
      EntryWids(h.shared, u);
      if v.entry.Some? {
        Demanded(v, v', t[u], m);
        ReceiveOne(t[u], m);
      } else {
        Unlisted(v, v', t[u]);
      }
    }
  }

  lemma WriteBackDataGood(h: Home, latest: Block, t: map<Wid, Traffic>, w: Wid, b: Block)
    requires Good(h, latest, t) && w in t && t[w].asks != [] && t[w].asks[0] == WriteBackData(b)
    ensures Good(h.(mem := b), latest, Taken(t, w))
  {
    var h' := h.(mem := b);
    var t' := Taken(t, w);
    DataLanded(See(h, latest, t, w), See(h', latest, t', w), t[w]);
    EntryWids(h.shared, w);
    SingleEntry(h.shared, w);
    forall u | u in t' ensures NodeOk(See(h', latest, t', u), t'[u]) {
      SingleEntry(h.shared, u);
      if u != w { MemIrrelevant(See(h, latest, t, u), See(h', latest, t', u), t[u]); }
    }
  }
}
