/**
 Both ends of a connection together: what the receive loop gets out of the messages that
 the send ring has posted is what was submitted, in the order of the calls.
 */
module Delivery {
  import opened Codec
  import opened SendRing

  /** What the messages among the requests carry, in order. */
  function Sent(rs: seq<Request>): seq<Bytes> {
    if rs == [] then [] else (if rs[0].isSend then [rs[0].payload] else []) + Sent(rs[1..])
  }

  lemma {:induction false} SentAppend(rs: seq<Request>, rs': seq<Request>)
    ensures Sent(rs + rs') == Sent(rs) + Sent(rs')
  {
    if rs == [] {
      assert rs + rs' == rs';
    } else {
      assert (rs + rs')[1..] == rs[1..] + rs';
      SentAppend(rs[1..], rs');
    }
  }

  lemma {:induction false} AllSent(rs: seq<Request>)
    requires forall r | r in rs :: r.isSend
    ensures Sent(rs) == Payloads(rs)
  {
    if rs != [] { AllSent(rs[1..]); }
  }

  lemma {:induction false} SerAllAppend(wrs: seq<WorkRequest>, wrs': seq<WorkRequest>)
    ensures SerAll(wrs + wrs') == SerAll(wrs) + SerAll(wrs')
    ensures ReceivedAll(wrs + wrs') == ReceivedAll(wrs) + ReceivedAll(wrs')
  {
    hide Ser, Received;
    if wrs == [] {
      assert wrs + wrs' == wrs';
    } else {
      assert (wrs + wrs')[1..] == wrs[1..] + wrs';
      SerAllAppend(wrs[1..], wrs');
    }
  }

  /** The encodings that come first belong to the requests that come first. */
  lemma FirstSent(wrs: seq<WorkRequest>, front: seq<Bytes>, rest: seq<Bytes>)
    requires SerAll(wrs) == front + rest
    ensures |front| <= |wrs| && SerAll(wrs[..|front|]) == front && SerAll(wrs[|front|..]) == rest
  {
    hide Ser;
    SerAllParts(wrs);
    var n := |front|;
    assert wrs == wrs[..n] + wrs[n..];
    SerAllAppend(wrs[..n], wrs[n..]);
    SerAllParts(wrs[..n]);
    assert SerAll(wrs)[..n] == front && SerAll(wrs)[n..] == rest;
    assert SerAll(wrs)[..n] == SerAll(wrs[..n]) && SerAll(wrs)[n..] == SerAll(wrs[n..]);
  }

  /** The messages of one posted work request. */
  lemma PostedSent(p: Posted)
    requires Sound(p)
    ensures p.reqs != []
    ensures if p.reqs[0].isSend then Sent(p.reqs) != [] && p.data == Join(Sent(p.reqs)) else Sent(p.reqs) == []
  {
    hide Join;
    if p.reqs[0].isSend {
      AllSent(p.reqs);
    } else {
      assert p.reqs[1..] == [];
    }
  }

  /** A message arrives in a receive slot; `slot` is the memory from there on. */
  method Arrive(data: Bytes, slot: array<Byte>)
    requires |data| <= slot.Length
    modifies slot
    ensures slot[..|data|] == data
  {
    var i := 0;
    while i < |data|
      invariant 0 <= i <= |data| && slot[..i] == data[..i]
    {
      slot[i] := data[i];
      i := i + 1;
    }
  }

  /** The other side receives the posted messages one after the other. A message that
      fills its slot needs the byte behind it for the terminator. */
  method ReceivePosted(posted: seq<Posted>, slot: array<Byte>, ghost sent: seq<WorkRequest>)
    returns (got: seq<WorkRequest>)
    requires slot.Length > MAX_REQUEST_SIZE && (forall p | p in posted :: Sound(p))
    requires (forall wr | wr in sent :: Encodable(wr)) && SerAll(sent) == Sent(Carried(posted))
    modifies slot
    ensures got == ReceivedAll(sent)
  {
    hide Encodable, Sound, Sent, SerAll, ReceivedAll, Join;
    got := [];
    var i := 0;
    ghost var rest := sent;
    assert posted[0..] == posted && [] + ReceivedAll(sent) == ReceivedAll(sent);
    while i < |posted|
      invariant 0 <= i <= |posted| && (forall wr | wr in rest :: wr in sent)
      invariant SerAll(rest) == Sent(Carried(posted[i..])) && got + ReceivedAll(rest) == ReceivedAll(sent)
    {
      var p := posted[i];
      assert p in posted && posted[i..][0] == p && posted[i..][1..] == posted[i + 1..];
      SentAppend(p.reqs, Carried(posted[i + 1..]));
      PostedSent(p);
      ghost var n := |Sent(p.reqs)|;
      FirstSent(rest, Sent(p.reqs), Sent(Carried(posted[i + 1..])));
      assert rest == rest[..n] + rest[n..];
      SerAllAppend(rest[..n], rest[n..]);
      if IsMessage(p) {
        Fits(p);
        Arrive(p.data, slot);
        var wrs := ReceiveLoop(slot, |p.data|, rest[..n]);
        got := got + wrs;
      } else {
        assert n == 0 && rest[n..] == rest;
      }
      rest := rest[n..];
      i := i + 1;
    }
    NothingMore(rest);
  }

  predicate IsMessage(p: Posted) { p.reqs != [] && p.reqs[0].isSend }

  lemma Fits(p: Posted)
    requires Sound(p) && IsMessage(p)
    ensures |p.data| <= MAX_REQUEST_SIZE
  {
  }

  lemma NothingMore(rest: seq<WorkRequest>)
    requires SerAll(rest) == Sent(Carried([]))
    ensures ReceivedAll(rest) == []
  {
    SerAllParts(rest);
  }

  /** The receive loop over all messages posted so far yields the requests submitted, in
      call order, up to those that still wait in the overflow queue. */
  method ReceiveCalls(sender: RdmaContext, slot: array<Byte>, ghost sent: seq<WorkRequest>)
    returns (got: seq<WorkRequest>)
    requires sender.Valid() && slot.Length > MAX_REQUEST_SIZE
    requires (forall wr | wr in sent :: Encodable(wr)) && SerAll(sent) == Sent(sender.calls)
    modifies slot
    ensures |Sent(sender.pendingRequests)| <= |sent|
    ensures got == ReceivedAll(sent[..|sent| - |Sent(sender.pendingRequests)|])
  {
    hide Encodable, Sound, Sent, SerAll, ReceivedAll, Carried;
    ghost var front, waiting := Sent(Carried(sender.posted)), Sent(sender.pendingRequests);
    SentAppend(Carried(sender.posted), sender.pendingRequests);
    FirstSent(sent, front, waiting);
    SerAllParts(sent[|front|..]);
    got := ReceivePosted(sender.posted, slot, sent[..|front|]);
  }
}
