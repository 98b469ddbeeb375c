/**
 The send side of an RDMA connection: a ring of send slots, completions for whole
 batches of messages, and an overflow queue whose messages are merged when room
 comes back. Posting to the device is taken to succeed.
 */
module SendRing {
  import opened Basics
  import opened Codec

  const MAX_REQUEST_SIZE: nat := 1024
  const MAX_RDMA_INLINE_SIZE: nat := 256

  /** A request handed to the connection: a message, or a one-sided read or write. */
  datatype Request = Request(isSend: bool, payload: Bytes, id: nat, signaled: bool)

  /** A work request given to the device, with the requests it carries, the slot it
      occupies and, if it is signalled, its wr_id. */
  datatype Posted = Posted(reqs: seq<Request>, slot: Option<nat>, data: Bytes, wrId: Option<nat>)

  /** The messages a signalled work request accounts for. */
  datatype Batch = Batch(send: nat, other: nat, id: nat)

  // ----- wr_id -----

  const HALF: nat := 0x1_0000_0000
  const QUARTER: nat := 0x1_0000

  function WrId(id: nat, send: nat, other: nat): nat {
    id % HALF + (send % QUARTER) * (HALF * QUARTER) + (other % QUARTER) * HALF
  }

  lemma WrIdRoundTrip(id: nat, send: nat, other: nat)
    requires id < HALF && send < QUARTER && other < QUARTER
    ensures var x := WrId(id, send, other);
      x % HALF == id && x / (HALF * QUARTER) == send && x / HALF % QUARTER == other
  {
    assert WrId(id, send, other) == (send * QUARTER + other) * HALF + id;
  }

  function IdOf(b: Batch): nat { WrId(b.id, b.send, b.other) }

  // ----- accounts -----

  function Sends(bs: seq<Batch>): nat { if bs == [] then 0 else bs[0].send + Sends(bs[1..]) }

  function Others(bs: seq<Batch>): nat { if bs == [] then 0 else bs[0].other + Others(bs[1..]) }

  function Ids(bs: seq<Batch>): seq<nat> { if bs == [] then [] else [IdOf(bs[0])] + Ids(bs[1..]) }

  /** All requests carried so far, in the order they reach the other side. */
  function Carried(ps: seq<Posted>): seq<Request> { if ps == [] then [] else ps[0].reqs + Carried(ps[1..]) }

  /** The slots used so far, in order. */
  function Slots(ps: seq<Posted>): seq<nat> {
    if ps == [] then [] else (if ps[0].slot.Some? then [ps[0].slot.value] else []) + Slots(ps[1..])
  }

  /** The wr_ids of the signalled work requests, in order. */
  function Signals(ps: seq<Posted>): seq<nat> {
    if ps == [] then [] else (if ps[0].wrId.Some? then [ps[0].wrId.value] else []) + Signals(ps[1..])
  }

  function Payloads(rs: seq<Request>): seq<Bytes> { if rs == [] then [] else [rs[0].payload] + Payloads(rs[1..]) }

  /** A posted message is the merge of its requests and fits a slot. */
  predicate Sound(p: Posted) {
    p.reqs != [] &&
    if p.reqs[0].isSend then
      (forall r | r in p.reqs :: r.isSend) && p.data == Join(Payloads(p.reqs)) && |p.data| <= MAX_REQUEST_SIZE
    else |p.reqs| == 1 && p.slot.None?
  }

  lemma {:induction false} BatchAppend(bs: seq<Batch>, b: Batch)
    ensures Sends(bs + [b]) == Sends(bs) + b.send && Others(bs + [b]) == Others(bs) + b.other
    ensures Ids(bs + [b]) == Ids(bs) + [IdOf(b)]
  {
    hide WrId;
    if bs == [] {
      assert bs + [b] == [b];
    } else {
      assert (bs + [b])[1..] == bs[1..] + [b];
      BatchAppend(bs[1..], b);
    }
  }

  lemma BatchHead(bs: seq<Batch>)
    requires bs != []
    ensures Sends(bs) == bs[0].send + Sends(bs[1..]) && Others(bs) == bs[0].other + Others(bs[1..])
    ensures Ids(bs) == [IdOf(bs[0])] + Ids(bs[1..])
  {
    hide WrId;
  }

  lemma {:induction false} PostedAppend(ps: seq<Posted>, p: Posted)
    ensures Carried(ps + [p]) == Carried(ps) + p.reqs
    ensures Slots(ps + [p]) == Slots(ps) + if p.slot.Some? then [p.slot.value] else []
    ensures Signals(ps + [p]) == Signals(ps) + if p.wrId.Some? then [p.wrId.value] else []
  {
    if ps == [] {
      assert ps + [p] == [p];
    } else {
      assert (ps + [p])[1..] == ps[1..] + [p];
      PostedAppend(ps[1..], p);
      assert ps[0].reqs + (Carried(ps[1..]) + p.reqs) == (ps[0].reqs + Carried(ps[1..])) + p.reqs;
    }
  }

  lemma {:induction false} PayloadsAppend(rs: seq<Request>, r: Request)
    ensures Payloads(rs + [r]) == Payloads(rs) + [r.payload]
  {
    if rs == [] {
      assert rs + [r] == [r];
    } else {
      assert (rs + [r])[1..] == rs[1..] + [r];
      PayloadsAppend(rs[1..], r);
    }
  }

  lemma SingleSound(r: Request, slot: Option<nat>, wrId: Option<nat>)
    requires if r.isSend then |r.payload| <= MAX_REQUEST_SIZE else slot.None?
    ensures Sound(Posted([r], slot, r.payload, wrId))
  {
    assert [r][1..] == [];
    assert Payloads([r]) == [r.payload];
    JoinParts([r.payload]);
  }

  /** The last posted message with one more request behind a zero byte. */
  function Merged(p: Posted, r: Request): Posted {
    Posted(p.reqs + [r], p.slot, p.data + [0] + r.payload, p.wrId)
  }

  lemma MergeSound(p: Posted, r: Request)
    requires Sound(p) && p.reqs[0].isSend && r.isSend && |p.data| + |r.payload| + 2 <= MAX_REQUEST_SIZE
    ensures Sound(Merged(p, r)) && Merged(p, r).reqs[0].isSend
  {
    PayloadsAppend(p.reqs, r);
    assert |Payloads(p.reqs)| > 0;
    JoinAppend(Payloads(p.reqs), r.payload);
  }

  lemma MergeLast(ps: seq<Posted>, r: Request)
    requires ps != []
    ensures var ps' := ps[..|ps| - 1] + [Merged(ps[|ps| - 1], r)];
      Carried(ps') == Carried(ps) + [r] && Slots(ps') == Slots(ps) && Signals(ps') == Signals(ps)
  {
    hide Carried, Slots, Signals;
    var front, p := ps[..|ps| - 1], ps[|ps| - 1];
    assert front + [p] == ps;
    PostedAppend(front, p);
    PostedAppend(front, Merged(p, r));
    assert Carried(front) + (p.reqs + [r]) == Carried(front) + p.reqs + [r];
  }

  /** Message `q` could not have been merged into `p`. */
  predicate Apart(p: Posted, q: Posted) {
    p.reqs != [] && q.reqs != [] && p.reqs[0].isSend && q.reqs[0].isSend ==>
      q.reqs[0].signaled || |p.data| + 1 + |q.reqs[0].payload| + 1 > MAX_REQUEST_SIZE
  }

  /** From `k` on no message could have been merged into the one before. */
  ghost predicate Packed(ps: seq<Posted>, k: nat) {
    forall j | k < j < |ps| :: Apart(ps[j - 1], ps[j])
  }

  /** The last work request is a message or not, and its length. */
  predicate Ends(ps: seq<Posted>, isSend: bool, bytes: nat) {
    ps != [] && var p := ps[|ps| - 1];
    p.reqs != [] && p.reqs[0].isSend == isSend && (isSend ==> |p.data| == bytes)
  }

  lemma NothingPacked(ps: seq<Posted>)
    ensures Packed(ps, |ps|)
  {
  }

  lemma NotMerged(p: Posted, q: Posted)
    requires q.reqs != [] && p.reqs != []
    requires !(q.reqs[0].isSend && p.reqs[0].isSend && |p.data| + |q.reqs[0].payload| + 1 + 1 <= MAX_REQUEST_SIZE
      && !q.reqs[0].signaled)
    ensures Apart(p, q)
  {
  }

  lemma PackedPush(ps: seq<Posted>, k: nat, q: Posted)
    requires Packed(ps, k) && k <= |ps| && (k < |ps| ==> Apart(ps[|ps| - 1], q))
    ensures Packed(ps + [q], k)
  {
    hide Apart;
  }

  lemma PackedMerge(ps: seq<Posted>, ps': seq<Posted>, k: nat, r: Request)
    requires Packed(ps, k) && k < |ps| == |ps'| && ps[|ps| - 1].reqs != []
    requires ps'[..|ps| - 1] == ps[..|ps| - 1] && ps'[|ps| - 1] == Merged(ps[|ps| - 1], r)
    ensures Packed(ps', k)
  {
    forall j | k < j < |ps'| ensures Apart(ps'[j - 1], ps'[j]) {
      assert Apart(ps[j - 1], ps[j]);
      assert ps'[..|ps| - 1][j - 1] == ps'[j - 1] && ps[..|ps| - 1][j - 1] == ps[j - 1];
      if j < |ps| - 1 { assert ps'[..|ps| - 1][j] == ps'[j] && ps[..|ps| - 1][j] == ps[j]; }
    }
  }

  /** Position `k` of a ring of `n` slots, for `k` up to twice around. */
  function Wrap(k: nat, n: nat): nat { if k >= n then k - n else k }

  /** The last `count` slots of the list are the ring positions from `tail` on. */
  ghost predicate InRing(slots: seq<nat>, count: nat, tail: nat, n: nat) {
    count <= |slots| && forall k | |slots| - count <= k < |slots| :: slots[k] == Wrap(tail + (k - (|slots| - count)), n)
  }

  /** Messages in flight occupy different slots. */
  lemma SlotsDiffer(slots: seq<nat>, count: nat, tail: nat, n: nat, i: nat, j: nat)
    requires InRing(slots, count, tail, n) && tail < n && count <= n && |slots| - count <= i < j < |slots|
    ensures slots[i] != slots[j]
  {
    assert slots[i] == Wrap(tail + (i - (|slots| - count)), n) && slots[j] == Wrap(tail + (j - (|slots| - count)), n);
  }

  lemma RingTake(slots: seq<nat>, count: nat, tail: nat, n: nat)
    requires InRing(slots, count, tail, n) && tail < n && count < n
    ensures InRing(slots + [Wrap(tail + count, n)], count + 1, tail, n)
    ensures forall k | |slots| - count <= k < |slots| :: slots[k] != Wrap(tail + count, n)
  {
    forall k | |slots| - count <= k < |slots| ensures slots[k] != Wrap(tail + count, n) {
      assert slots[k] == Wrap(tail + (k - (|slots| - count)), n);
    }
  }

  lemma RingRelease(slots: seq<nat>, count: nat, tail: nat, n: nat, done: nat)
    requires InRing(slots, count, tail, n) && tail < n && done <= count <= n
    ensures InRing(slots, count - done, Wrap(tail + done, n), n) && Wrap(tail + done, n) < n
    ensures Wrap(Wrap(tail + done, n) + (count - done), n) == Wrap(tail + count, n)
  {
  }

  class RdmaContext {
    const maxPending: nat
    const maxUnsignaled: nat
    var slotHead: nat
    var slotTail: nat
    var full: bool
    var pendingMsg: int
    var pendingSendMsg: int
    var toSignaledSend: int
    var toSignaledOther: int
    var pendingRequests: seq<Request>
    var posted: seq<Posted>
    ghost var calls: seq<Request>      // every request so far, in call order
    ghost var batches: seq<Batch>      // signalled and not yet completed
    ghost var done: seq<nat>           // wr_ids completed so far

    /** The counters count the outstanding batches and the messages after them. */
    ghost predicate Counts()
      reads this
    {
      && 0 < maxUnsignaled <= maxPending && maxUnsignaled < QUARTER
      && toSignaledSend == Sends(batches) && toSignaledOther == Others(batches)
      && toSignaledSend <= pendingSendMsg && toSignaledOther <= pendingMsg - pendingSendMsg
      && pendingMsg <= maxPending
      && (forall b | b in batches :: 1 <= b.send + b.other <= maxUnsignaled && b.id < HALF)
    }

    ghost predicate FewUnsignaled()
      reads this
    {
      pendingMsg - toSignaledSend - toSignaledOther < maxUnsignaled
    }

    /** The ring holds the slots of the messages in flight and `reserved` more. */
    ghost predicate Ring(reserved: nat)
      reads this
    {
      && 0 <= pendingSendMsg && pendingSendMsg + reserved <= maxPending
      && slotHead < maxPending && slotTail < maxPending
      && slotHead == Wrap(slotTail + pendingSendMsg + reserved, maxPending)
      && full == (pendingSendMsg + reserved == maxPending)
      && InRing(Slots(posted), pendingSendMsg, slotTail, maxPending)
    }

    /** How many work requests no longer occupy the ring. */
    ghost function Released(): int
      reads this
    {
      |posted| - pendingMsg
    }

    /** Nothing is lost, duplicated or reordered. */
    ghost predicate InOrder()
      reads this
    {
      && Carried(posted) + pendingRequests == calls
      && Signals(posted) == done + Ids(batches)
      && (forall p | p in posted :: Sound(p))
      && (forall r | r in pendingRequests :: r.id < HALF && (r.isSend ==> |r.payload| <= MAX_REQUEST_SIZE))
    }

    /** Requests wait only while the ring is full. */
    ghost predicate Valid()
      reads this
    {
      Counts() && FewUnsignaled() && Ring(0) && InOrder() && (pendingRequests != [] ==> pendingMsg == maxPending)
    }

    constructor (maxPending: nat, maxUnsignaled: nat)
      requires 0 < maxUnsignaled <= maxPending && maxUnsignaled < QUARTER
      ensures Valid() && this.maxPending == maxPending && this.maxUnsignaled == maxUnsignaled && calls == []
      ensures posted == []
    {
      this.maxPending, this.maxUnsignaled := maxPending, maxUnsignaled;
      slotHead, slotTail, full := 0, 0, false;
      pendingMsg, pendingSendMsg, toSignaledSend, toSignaledOther := 0, 0, 0, 0;
      pendingRequests, posted, calls, batches, done := [], [], [], [], [];
    }

    /** A slot that no message in flight occupies, unless as many messages as possible
        are pending. */
    method GetFreeSlot() returns (s: Option<nat>)
      requires Counts() && Ring(0)
      modifies this`slotHead, this`full
      ensures s.None? <==> pendingMsg == maxPending
      ensures s.None? ==> Ring(0)
      ensures s.Some? ==> Ring(1) && s.value == old(slotHead)
      ensures s.Some? ==>
        forall k | |Slots(posted)| - pendingSendMsg <= k < |Slots(posted)| :: Slots(posted)[k] != s.value
    {
      var avail := if slotTail >= slotHead then slotTail - slotHead else slotTail + maxPending - slotHead;
      if avail == 0 && !full { avail := maxPending; }
      if avail <= 0 || pendingMsg >= maxPending { return None; }
      RingTake(Slots(posted), pendingSendMsg, slotTail, maxPending);
      s := Some(slotHead);
      slotHead := slotHead + 1;
      if slotHead == maxPending { slotHead := 0; }
      if slotHead == slotTail { full := true; }
    }

    /** Signal the current work request if enough messages are unsignalled. */
    method Signal(id: nat, signaled: bool) returns (wrId: Option<nat>)
      requires Counts() && id < HALF
      requires pendingMsg - toSignaledSend - toSignaledOther <= maxUnsignaled
      requires signaled ==> pendingMsg - toSignaledSend - toSignaledOther > 0
      modifies this`toSignaledSend, this`toSignaledOther, this`batches
      ensures Counts() && FewUnsignaled()
      ensures Ids(batches) == old(Ids(batches)) + if wrId.Some? then [wrId.value] else []
      ensures wrId.Some? <==> signaled || pendingMsg - old(toSignaledSend) - old(toSignaledOther) == maxUnsignaled
      ensures wrId.None? ==> batches == old(batches)
    {
      var currSend, currOther := pendingSendMsg - toSignaledSend, pendingMsg - pendingSendMsg - toSignaledOther;
      wrId := None;
      if currSend + currOther == maxUnsignaled || signaled {
        ghost var b := Batch(currSend, currOther, id);
        BatchAppend(batches, b);
        toSignaledSend := toSignaledSend + currSend;
        toSignaledOther := toSignaledOther + currOther;
        assert toSignaledSend == pendingSendMsg && toSignaledSend + toSignaledOther == pendingMsg;
        wrId := Some(WrId(id, currSend, currOther));
        batches := batches + [b];
      }
    }

    /** Give one request to the device, in `slot` if it is a message that needs one. */
    method Post(r: Request, slot: Option<nat>)
      requires Counts() && FewUnsignaled() && pendingMsg < maxPending && r.id < HALF
      requires if slot.Some? then Ring(1) && slot.value == Wrap(slotTail + pendingSendMsg, maxPending) else Ring(0)
      requires if r.isSend then |r.payload| <= MAX_REQUEST_SIZE else slot.None?
      requires Signals(posted) == done + Ids(batches)
      modifies this`pendingMsg, this`pendingSendMsg, this`toSignaledSend,
        this`toSignaledOther, this`batches, this`posted
      ensures Counts() && FewUnsignaled() && Ring(0) && pendingMsg == old(pendingMsg) + 1
      ensures |posted| == |old(posted)| + 1 && posted[..|old(posted)|] == old(posted)
      ensures var p := posted[|old(posted)|]; p.reqs == [r] && p.data == r.payload && Sound(p)
      ensures Carried(posted) == Carried(old(posted)) + [r] && Signals(posted) == done + Ids(batches)
    {
      hide Sends, Others, Ids, WrId, InRing, Slots, Carried, Signals, Sound;
      if slot.Some? {
        RingTake(Slots(posted), pendingSendMsg, slotTail, maxPending);
        pendingSendMsg := pendingSendMsg + 1;
      }
      pendingMsg := pendingMsg + 1;
      var wrId := Signal(r.id, r.signaled);
      var p := Posted([r], slot, r.payload, wrId);
      PostedAppend(posted, p);
      SingleSound(r, slot, wrId);
      assert done + Ids(batches) == done + old(Ids(batches)) + if wrId.Some? then [wrId.value] else [];
      assert Slots(posted) + [] == Slots(posted) && Signals(posted) + [] == Signals(posted);
      posted := posted + [p];
    }

    /** A request of a client: posted at once, or queued behind the others. `slot` is
        one the client filled in before. */
    method Rdma(r: Request, slot: Option<nat>)
      requires Counts() && FewUnsignaled() && InOrder() && (pendingRequests != [] ==> pendingMsg == maxPending)
      requires r.id < HALF && (if r.isSend then |r.payload| <= MAX_REQUEST_SIZE else slot.None?)
      requires if slot.Some?
        then pendingMsg < maxPending && Ring(1) && slot.value == Wrap(slotTail + pendingSendMsg, maxPending)
        else Ring(0)
      modifies this
      ensures Valid() && calls == old(calls) + [r] && done == old(done)
      ensures pendingMsg == if old(pendingMsg) == maxPending then maxPending else old(pendingMsg) + 1
      ensures Released() == old(Released())
    {
      hide Sound, InRing, Sends, Others, Ids, Carried, Signals, Slots, WrId;
      calls := calls + [r];
      if pendingMsg >= maxPending {
        pendingRequests := pendingRequests + [r];
        assert Carried(posted) + pendingRequests == calls;
        return;
      }
      var s := slot;
      if r.isSend && slot.None? && |r.payload| > MAX_RDMA_INLINE_SIZE {
        s := GetFreeSlot();
      }
      assert pendingRequests == [];
      Post(r, s);
    }

    /** Submit a message: fill a free slot if there is one, a buffer of one's own
        otherwise, and send it. */
    method Submit(r: Request)
      requires Valid() && r.isSend && r.id < HALF && |r.payload| <= MAX_REQUEST_SIZE
      modifies this
      ensures Valid() && calls == old(calls) + [r] && done == old(done)
      ensures pendingMsg == (if old(pendingMsg) == maxPending then maxPending else old(pendingMsg) + 1)
      ensures Released() == old(Released())
    {
      hide Sound, InRing, Sends, Others, Ids, Carried, Signals, Slots, WrId;
      var slot := GetFreeSlot();
      Rdma(r, slot);
    }

    /** Append a queued message to the last work request. */
    method Merge(r: Request)
      requires Counts() && FewUnsignaled() && Ring(0) && r.isSend && !r.signaled && r.id < HALF
      requires posted != [] && var p := posted[|posted| - 1];
        Sound(p) && p.reqs[0].isSend && |p.data| + |r.payload| + 2 <= MAX_REQUEST_SIZE
      modifies this`posted, this`toSignaledSend, this`toSignaledOther, this`batches
      ensures Counts() && FewUnsignaled() && Ring(0) && batches == old(batches)
      ensures posted == old(posted)[..|old(posted)| - 1] + [Merged(old(posted)[|old(posted)| - 1], r)]
      ensures Carried(posted) == Carried(old(posted)) + [r] && Signals(posted) == Signals(old(posted))
      ensures var p := posted[|posted| - 1];
        Sound(p) && p.reqs[0].isSend && |p.data| == |old(posted)[|posted| - 1].data| + 1 + |r.payload|
    {
      hide Sends, Others, Ids, WrId, InRing, Slots, Carried, Signals, Sound;
      MergeLast(posted, r);
      MergeSound(posted[|posted| - 1], r);
      posted := posted[..|posted| - 1] + [Merged(posted[|posted| - 1], r)];
      var wrId := Signal(r.id, r.signaled);
    }

    /** Whether the last work request is a message, of how many bytes. */
    ghost predicate Last(isSend: bool, bytes: nat)
      reads this
    {
      isSend ==> posted != [] && var p := posted[|posted| - 1]; p.reqs != [] && p.reqs[0].isSend && |p.data| == bytes
    }

    ghost predicate Sane()
      reads this
    {
      Counts() && FewUnsignaled() && Ring(0) && InOrder()
    }

    /** The first queued request becomes a work request. */
    method PostFront() returns (isSend: bool, bytes: nat)
      requires Sane() && pendingRequests != [] && pendingMsg < maxPending
      modifies this
      ensures Sane() && calls == old(calls) && done == old(done)
      ensures pendingRequests == old(pendingRequests)[1..] && pendingMsg == old(pendingMsg) + 1
      ensures Last(isSend, bytes) && |posted| == |old(posted)| + 1 && posted[..|old(posted)|] == old(posted)
      ensures var p, r := posted[|old(posted)|], old(pendingRequests)[0];
        p.reqs == [r] && p.data == r.payload && isSend == r.isSend && bytes == |r.payload|
    {
      hide Sends, Others, Ids, WrId, InRing, Slots, Carried, Signals, Sound;
      var r := pendingRequests[0];
      var slot := None;
      if r.isSend { slot := GetFreeSlot(); }
      Post(r, slot);
      assert calls == Carried(old(posted)) + [r] + pendingRequests[1..];
      pendingRequests := pendingRequests[1..];
      isSend, bytes := r.isSend, |r.payload|;
    }

    /** The first queued request joins the last work request. */
    method MergeFront(bufPos: nat) returns (bytes: nat)
      requires Sane() && pendingRequests != [] && Last(true, bufPos)
      requires var r := pendingRequests[0]; r.isSend && bufPos + |r.payload| + 1 + 1 <= MAX_REQUEST_SIZE && !r.signaled
      modifies this
      ensures Sane() && calls == old(calls) && done == old(done)
      ensures pendingRequests == old(pendingRequests)[1..] && pendingMsg == old(pendingMsg)
      ensures Last(true, bytes) && |posted| == |old(posted)| > 0
      ensures posted[..|posted| - 1] == old(posted)[..|posted| - 1]
      ensures posted[|posted| - 1] == Merged(old(posted)[|posted| - 1], old(pendingRequests)[0])
      ensures bytes == bufPos + 1 + |old(pendingRequests)[0].payload|
    {
      hide Sends, Others, Ids, WrId, InRing, Slots, Carried, Signals, Sound;
      var r := pendingRequests[0];
      assert Sound(posted[|posted| - 1]);
      Merge(r);
      assert calls == Carried(old(posted)) + [r] + pendingRequests[1..];
      pendingRequests := pendingRequests[1..];
      bytes := bufPos + 1 + |r.payload|;
    }

    /** Post queued requests, in at most as many work requests as have just completed;
        messages that fit are merged, but into none that was posted before. */
    method ProcessPendingRequests(n: nat)
      requires Sane() && n > 0 && (pendingRequests != [] ==> pendingMsg + n == maxPending)
      modifies this
      ensures Valid() && calls == old(calls) && done == old(done)
      ensures Released() == old(Released())
      ensures |old(posted)| <= |posted| <= |old(posted)| + n && posted[..|old(posted)|] == old(posted)
      ensures pendingRequests != [] ==> |posted| == |old(posted)| + n
      ensures Packed(posted, |old(posted)|)
    {
      hide Counts, FewUnsignaled, Ring, InOrder, Last, Packed, Apart;
      var made, lastSend := 0, false;
      var bufPos: nat := 0;
      assert Last(false, 0) by { NoLast(); }
      NothingPacked(posted);
      while pendingRequests != []
        invariant Sane() && calls == old(calls) && done == old(done) && Last(lastSend, bufPos)
        invariant made <= n && (pendingRequests != [] ==> pendingMsg == maxPending - n + made)
        invariant pendingMsg == old(pendingMsg) + made
        invariant |posted| == |old(posted)| + made && posted[..|old(posted)|] == old(posted) && (lastSend ==> made > 0)
        invariant Packed(posted, |old(posted)|) && (made > 0 ==> Ends(posted, lastSend, bufPos))
        decreases |pendingRequests|
      {
        var r := pendingRequests[0];
        if r.isSend && lastSend && bufPos + |r.payload| + 1 + 1 <= MAX_REQUEST_SIZE && !r.signaled {
          ghost var before := posted;
          bufPos := MergeFront(bufPos);
          Earlier(before, posted, |old(posted)|);
          PackedMerge(before, posted, |old(posted)|, r);
        } else {
          if made == n { break; }
          made := made + 1;
          ghost var before := posted;
          lastSend, bufPos := PostFront();
          assert before[..|old(posted)|] == posted[..|before|][..|old(posted)|];
          assert posted == before + [posted[|before|]];
          if made > 1 { NotMerged(before[|before| - 1], posted[|before|]); }
          PackedPush(before, |old(posted)|, posted[|before|]);
        }
      }
    }

    static lemma Earlier(ps: seq<Posted>, ps': seq<Posted>, k: nat)
      requires k < |ps| == |ps'| && ps'[..|ps'| - 1] == ps[..|ps'| - 1]
      ensures ps'[..k] == ps[..k]
    {
      assert ps'[..k] == ps'[..|ps'| - 1][..k] && ps[..k] == ps[..|ps'| - 1][..k];
    }

    lemma NoLast()
      ensures Last(false, 0)
    {
    }

    /** Free the slots of completed messages. */
    method AdvanceTail(currSend: nat)
      requires Ring(0) && currSend <= pendingSendMsg
      modifies this`slotTail, this`full, this`pendingSendMsg
      ensures Ring(0) && pendingSendMsg == old(pendingSendMsg) - currSend
    {
      hide InRing, Slots;
      RingRelease(Slots(posted), pendingSendMsg, slotTail, maxPending, currSend);
      slotTail := slotTail + currSend;
      if slotTail >= maxPending { slotTail := slotTail - maxPending; }
      pendingSendMsg := pendingSendMsg - currSend;
      if full && currSend != 0 { full := false; }
    }

    /** Take the oldest batch out of all accounts. */
    method Release(currSend: nat, currOther: nat)
      requires Valid() && batches != [] && batches[0].send == currSend && batches[0].other == currOther
      modifies this
      ensures Sane() && calls == old(calls) && done == old(done) + [IdOf(old(batches)[0])]
      ensures Released() == old(Released()) + currSend + currOther
      ensures currSend + currOther > 0 && (pendingRequests != [] ==> pendingMsg + currSend + currOther == maxPending)
    {
      hide InRing, Slots, Carried, Signals, Sound, WrId, Sends, Others, Ids;
      assert batches[0] in batches;
      BatchHead(batches);
      AdvanceTail(currSend);
      toSignaledSend := toSignaledSend - currSend;
      toSignaledOther := toSignaledOther - currOther;
      pendingMsg := pendingMsg - (currSend + currOther);
      assert done + Ids(batches) == (done + [IdOf(batches[0])]) + Ids(batches[1..]);
      done := done + [IdOf(batches[0])];
      batches := batches[1..];
    }

    /** The device has completed the oldest signalled work request. */
    method SendComp(wrId: nat) returns (id: nat)
      requires Valid() && batches != [] && wrId == IdOf(batches[0])
      modifies this
      ensures Valid() && calls == old(calls) && done == old(done) + [wrId] && id == old(batches)[0].id
      ensures Released() == old(Released()) + old(batches)[0].send + old(batches)[0].other
    {
      hide Ring, InOrder, WrId, Sends, Others;
      ghost var b := batches[0];
      assert b in batches;
      WrIdRoundTrip(b.id, b.send, b.other);
      id := wrId % HALF;
      var currSend, currOther := wrId / (HALF * QUARTER), wrId / HALF % QUARTER;
      Release(currSend, currOther);
      ProcessPendingRequests(currSend + currOther);
    }

    /** A full ring always has a signalled batch outstanding, so it drains. */
    lemma FullHasSignal()
      requires Valid() && pendingMsg == maxPending
      ensures batches != []
    {
    }
  }
}
