/** How sorting a channel by kind of message follows sending and receiving. */
module Streams {
  import opened Sharers
  import opened Protocol
  import opened Invariant

  lemma {:induction false} SendUp(up: seq<UpMsg>, m: UpMsg)
    ensures Requests(up + [m]) == if IsReply(m) then Requests(up) else Requests(up) + [m]
    ensures Replies(up + [m]) == if IsReply(m) then Replies(up) + [m] else Replies(up)
  {
    if up == [] {
      assert up + [m] == [m] && [m][1..] == [];
      assert Requests([m]) == (if IsReply(m) then [] else [m]) + Requests([]);
      assert Replies([m]) == (if IsReply(m) then [m] else []) + Replies([]);
    } else {
      SendUp(up[1..], m);
      assert (up + [m])[1..] == up[1..] + [m];
    }
  }

  lemma {:induction false} SendGrants(down: seq<DownMsg>, ms: seq<DownMsg>)
    ensures Grants(down + ms) == Grants(down) + Grants(ms)
  {
    if down == [] {
      assert down + ms == ms;
    } else {
      SendGrants(down[1..], ms);
      assert (down + ms)[1..] == down[1..] + ms;
      Assoc(if IsDemand(down[0]) then [] else [down[0]], Grants(down[1..]), Grants(ms));
    }
  }

  lemma {:induction false} SendDemands(down: seq<DownMsg>, ms: seq<DownMsg>)
    ensures Demands(down + ms) == Demands(down) + Demands(ms)
  {
    if down == [] {
      assert down + ms == ms;
    } else {
      SendDemands(down[1..], ms);
      assert (down + ms)[1..] == down[1..] + ms;
      Assoc(if IsDemand(down[0]) then [down[0]] else [], Demands(down[1..]), Demands(ms));
    }
  }

  lemma {:induction false} Park(parked: seq<Parked>, p: Parked, w: Wid)
    ensures ParkedOf(parked + [p], w) == if p.wid == w then ParkedOf(parked, w) + [p.msg] else ParkedOf(parked, w)
  {
    if parked == [] {
      assert parked + [p] == [p] && [p][1..] == [];
      assert ParkedOf([p], w) == (if p.wid == w then [p.msg] else []) + ParkedOf([], w);
    } else {
      Park(parked[1..], p, w);
      assert (parked + [p])[1..] == parked[1..] + [p];
    }
  }

  lemma TakeUp(up: seq<UpMsg>)
    requires up != []
    ensures IsReply(up[0]) ==> Requests(up) == Requests(up[1..]) && Replies(up) == [up[0]] + Replies(up[1..])
    ensures !IsReply(up[0]) ==> Requests(up) == [up[0]] + Requests(up[1..]) && Replies(up) == Replies(up[1..])
  {
    hide IsReply;
    assert [] + Requests(up[1..]) == Requests(up[1..]);
    assert [] + Replies(up[1..]) == Replies(up[1..]);
  }

  lemma TakeDown(down: seq<DownMsg>)
    requires down != []
    ensures IsDemand(down[0]) ==> Grants(down) == Grants(down[1..]) && Demands(down) == [down[0]] + Demands(down[1..])
    ensures !IsDemand(down[0]) ==> Grants(down) == [down[0]] + Grants(down[1..]) && Demands(down) == Demands(down[1..])
  {
    hide IsDemand;
    assert [] + Grants(down[1..]) == Grants(down[1..]);
    assert [] + Demands(down[1..]) == Demands(down[1..]);
  }

  lemma Unpark(parked: seq<Parked>, w: Wid)
    requires parked != []
    ensures ParkedOf(parked, w) ==
      if parked[0].wid == w then [parked[0].msg] + ParkedOf(parked[1..], w) else ParkedOf(parked[1..], w)
  {
    assert [] + ParkedOf(parked[1..], w) == ParkedOf(parked[1..], w);
  }

  lemma Assoc<T>(a: seq<T>, b: seq<T>, c: seq<T>)
    ensures (a + b) + c == a + (b + c)
  {
  }

  lemma HeadTail<T>(m: T, a: seq<T>)
    ensures [m] + a != [] && ([m] + a)[0] == m && ([m] + a)[1..] == a
  {
  }

  // ----- the traffic of one worker -----

  lemma TakeAsk(h: Home, w: Wid, n: Node)
    requires n.up != [] && !IsReply(n.up[0]) && ParkedOf(h.parked, w) == []
    ensures var t := TrafficOf(h, w, n);
      && t.asks != [] && t.asks[0] == n.up[0]
      && TrafficOf(h, w, n.(up := n.up[1..])) == t.(asks := t.asks[1..])
  {
    var t := TrafficOf(h, w, n);
    TakeUp(n.up);
    var rest := Requests(n.up[1..]);
    assert [] + rest == rest;
    HeadTail(n.up[0], rest);
    assert t.asks == [n.up[0]] + rest;
  }

  lemma TakeReply(h: Home, w: Wid, n: Node)
    requires n.up != [] && IsReply(n.up[0])
    ensures var t := TrafficOf(h, w, n);
      && t.replies == [n.up[0]] + Replies(n.up[1..])
      && TrafficOf(h, w, n.(up := n.up[1..])) == t.(replies := Replies(n.up[1..]))
  {
    TakeUp(n.up);
  }

  lemma TakeParked(h: Home, h': Home, w: Wid, n: Node)
    requires h.parked != [] && h'.parked == h.parked[1..]
    ensures var t := TrafficOf(h, w, n);
      if h.parked[0].wid == w then
        t.asks != [] && t.asks[0] == h.parked[0].msg && TrafficOf(h', w, n) == t.(asks := t.asks[1..])
      else TrafficOf(h', w, n) == t
  {
    Unpark(h.parked, w);
    var t, m := TrafficOf(h, w, n), h.parked[0].msg;
    if h.parked[0].wid == w {
      var a, b := ParkedOf(h'.parked, w), Requests(n.up);
      Assoc([m], a, b);
      HeadTail(m, a + b);
    }
  }

  lemma ParkAsk(h: Home, h': Home, w: Wid, n: Node)
    requires n.up != [] && IsRequest(n.up[0]) && h'.parked == h.parked + [Parked(w, n.up[0])]
    ensures TrafficOf(h', w, n.(up := n.up[1..])) == TrafficOf(h, w, n)
  {
    TakeUp(n.up);
    Park(h.parked, Parked(w, n.up[0]), w);
    Assoc(ParkedOf(h.parked, w), [n.up[0]], Requests(n.up[1..]));
  }

  lemma ParkOther(h: Home, h': Home, p: Parked, w: Wid, n: Node)
    requires h'.parked == h.parked + [p] && p.wid != w
    ensures TrafficOf(h', w, n) == TrafficOf(h, w, n)
  {
    Park(h.parked, p, w);
  }

  lemma SendAsk(h: Home, w: Wid, n: Node, m: UpMsg)
    requires !IsReply(m)
    ensures var t := TrafficOf(h, w, n); TrafficOf(h, w, n.(up := n.up + [m])) == t.(asks := t.asks + [m])
  {
    SendUp(n.up, m);
    Assoc(ParkedOf(h.parked, w), Requests(n.up), [m]);
  }

  lemma SendReply(h: Home, w: Wid, n: Node, m: UpMsg)
    requires IsReply(m)
    ensures var t := TrafficOf(h, w, n); TrafficOf(h, w, n.(up := n.up + [m])) == t.(replies := t.replies + [m])
  {
    SendUp(n.up, m);
  }

  lemma TakeGrant(h: Home, w: Wid, n: Node)
    requires n.down != [] && !IsDemand(n.down[0])
    ensures var t := TrafficOf(h, w, n);
      && t.grants != [] && t.grants[0] == n.down[0]
      && TrafficOf(h, w, n.(down := n.down[1..])) == t.(grants := t.grants[1..])
  {
    TakeDown(n.down);
    HeadTail(n.down[0], Grants(n.down[1..]));
  }

  lemma TakeDemand(h: Home, w: Wid, n: Node)
    requires n.down != [] && IsDemand(n.down[0])
    ensures var t := TrafficOf(h, w, n);
      && t.demands != [] && t.demands[0] == n.down[0]
      && TrafficOf(h, w, n.(down := n.down[1..])) == t.(demands := t.demands[1..])
  {
    TakeDown(n.down);
    HeadTail(n.down[0], Demands(n.down[1..]));
  }

  /** Nothing is lost in sorting. */
  lemma {:induction false} SortedLength(up: seq<UpMsg>)
    ensures |up| == |Requests(up)| + |Replies(up)|
  {
    if up != [] { SortedLength(up[1..]); }
  }

  lemma {:induction false} RequestsOnly(up: seq<UpMsg>)
    requires forall m | m in up :: !m.WriteBackData?
    ensures forall m | m in Requests(up) :: IsRequest(m)
  {
    if up != [] { RequestsOnly(up[1..]); }
  }

  lemma {:induction false} ParkedAreRequests(parked: seq<Parked>, w: Wid)
    requires forall p | p in parked :: IsRequest(p.msg)
    ensures forall m | m in ParkedOf(parked, w) :: IsRequest(m)
  {
    if parked != [] { ParkedAreRequests(parked[1..], w); }
  }
}
