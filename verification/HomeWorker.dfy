/**
 The home worker's handlers as they run: they change the directory entry, the
 block's memory, the pending work and the parked queue, and send messages one by
 one. Each is proved to do what the protocol's step function says.
 */
module HomeWorkers {
  import opened Blocks
  import opened Basics
  import opened Sharers
  import opened Protocol
  import opened Directories

  /** The channels after `send` has been appended to them. */
  function Sent(net: map<Wid, seq<DownMsg>>, send: map<Wid, seq<DownMsg>>): map<Wid, seq<DownMsg>> {
    map u | u in net :: if u in send then net[u] + send[u] else net[u]
  }

  /** The number of sharers to be told, `skip` being the requester. */
  function Targets(list: seq<Sharer>, skip: Option<Wid>): int {
    |list| - if skip.Some? && skip.value in Wids(list) then 1 else 0
  }

  /** The same message for every listed worker but `skip`. */
  function Notices(list: seq<Sharer>, skip: Option<Wid>, m: DownMsg): map<Wid, seq<DownMsg>> {
    map u | u in Wids(list) && skip != Some(u) :: [m]
  }

  /** The channels after the messages have been sent in list order. */
  function Tell(net: map<Wid, seq<DownMsg>>, list: seq<Sharer>, skip: Option<Wid>, m: DownMsg): map<Wid, seq<DownMsg>>
    requires Wids(list) <= net.Keys
    decreases |list|
  {
    if list == [] then net
    else
      var w := list[0].wid;
      Tell(if skip == Some(w) then net else net[w := net[w] + [m]], list[1..], skip, m)
  }

  /** In a list of distinct workers nobody is told twice. */
  lemma {:induction false} TellOnce(net: map<Wid, seq<DownMsg>>, list: seq<Sharer>, skip: Option<Wid>, m: DownMsg)
    requires Wids(list) <= net.Keys && Distinct(list)
    ensures Tell(net, list, skip, m) == Sent(net, Notices(list, skip, m))
    decreases |list|
  {
    if list != [] {
      var w := list[0].wid;
      TellOnce(if skip == Some(w) then net else net[w := net[w] + [m]], list[1..], skip, m);
    }
  }

  /** What a worker that becomes the owner is sent. */
  function Grant(ptr: Ptr, data: Option<Block>): seq<DownMsg> {
    (if data.Some? then [LineData(ptr, data.value)] else []) + [WriteReply]
  }

  /** With only the requester listed, nobody is told. */
  lemma NobodyTold(net: map<Wid, seq<DownMsg>>, list: seq<Sharer>, w: Wid, m: DownMsg)
    requires Distinct(list) && Targets(list, Some(w)) == 0
    ensures Sent(net, Notices(list, Some(w), m)) == net
  {
    if list != [] { SingleEntry(list, w); }
  }

  /** The messages of ProcessRemoteWrite. */
  lemma WriteSends(h: Home, w: Wid, ptr: Ptr, perm: bool)
    requires h.state.DirShared? || h.state.DirUnshared?
    ensures ServeWrite(h, w, ptr, perm).send ==
      if h.state.DirUnshared? then map[w := Grant(ptr, Some(h.mem))]
      else if Targets(h.shared, Some(w)) == 0 then map[w := Grant(ptr, None)]
      else Notices(h.shared, Some(w), InvalidateForward)
  {
    assert Grant(ptr, None) == [WriteReply] && Grant(ptr, Some(h.mem)) == [LineData(ptr, h.mem), WriteReply];
    assert Notices(h.shared, Some(w), InvalidateForward) == map u | u in Wids(h.shared) - {w} :: [InvalidateForward];
  }

  /** Serving a copied queue in order: a request that meets a transition is parked again. */
  function Replay(h: Home, q: seq<Parked>, net: map<Wid, seq<DownMsg>>): (Home, map<Wid, seq<DownMsg>>)
    requires forall p | p in q :: IsRequest(p.msg)
    decreases |q|
  {
    if q == [] then (h, net)
    else
      var o := HandleRequest(h, q[0].wid, q[0].msg);
      Replay(o.home, q[1..], Sent(net, o.send))
  }

  /** Serving parked requests from the head of the queue until a transition starts. */
  function Drain(h: Home, q: seq<Parked>, net: map<Wid, seq<DownMsg>>): (Home, map<Wid, seq<DownMsg>>)
    requires forall p | p in q :: IsRequest(p.msg)
    decreases |q|
  {
    if q == [] || InTransition(h.state) then (h.(parked := q), net)
    else
      var o := Serve(h.(parked := []), q[0].wid, q[0].msg);
      Drain(o.home, q[1..], Sent(net, o.send))
  }

  lemma {:induction false} ReplayParks(h: Home, q: seq<Parked>, net: map<Wid, seq<DownMsg>>)
    requires InTransition(h.state) && forall p | p in q :: IsRequest(p.msg)
    ensures Replay(h, q, net) == (h.(parked := h.parked + q), net)
    decreases |q|
  {
    if q == [] {
      assert h.parked + q == h.parked;
    } else {
      var h' := h.(parked := h.parked + [q[0]]);
      ReplayParks(h', q[1..], net);
      assert h'.parked + q[1..] == h.parked + q;
      assert Sent(net, map[]) == net;
    }
  }

  /** Copying the parked queue and serving all of it leaves what serving it from
      the head would: the same entry, the same messages in the same order, and the
      requests not yet served still parked, in order. */
  lemma {:induction false} ReplayIsDrain(h: Home, q: seq<Parked>, net: map<Wid, seq<DownMsg>>)
    requires h.parked == [] && forall p | p in q :: IsRequest(p.msg)
    ensures Replay(h, q, net) == Drain(h, q, net)
    decreases |q|
  {
    if InTransition(h.state) {
      ReplayParks(h, q, net);
      assert [] + q == q;
    } else if q != [] {
      ServeKeepsParked(h, q[0].wid, q[0].msg);
      var o := Serve(h, q[0].wid, q[0].msg);
      assert h.(parked := []) == h;
      ReplayIsDrain(o.home, q[1..], Sent(net, o.send));
    }
  }

  lemma ServeKeepsParked(h: Home, w: Wid, m: UpMsg)
    requires IsRequest(m)
    ensures Serve(h, w, m).home.parked == h.parked
  {
  }

  /** What the handler of a request relies on. */
  predicate Admissible(h: Home, w: Wid, m: UpMsg, workers: set<Wid>)
    requires IsRequest(m)
  {
    w in workers && HandleRequest(h, w, m).ok && Wids(h.shared) <= workers &&
    (m.Read? ==> w !in Wids(h.shared) || InTransition(h.state))
  }

  /** Every request is admissible when its turn comes. */
  predicate AllAdmissible(h: Home, q: seq<Parked>, workers: set<Wid>)
    requires forall p | p in q :: IsRequest(p.msg)
    decreases |q|
  {
    q == [] ||
    (Admissible(h, q[0].wid, q[0].msg, workers)
      && AllAdmissible(HandleRequest(h, q[0].wid, q[0].msg).home, q[1..], workers))
  }

  class HomeWorker {
    const block: Ptr
    const directory: Directory
    const mem: array<int>
    var pending: Pending
    var parked: seq<Parked>
    var net: map<Wid, seq<DownMsg>>    // channel to every other worker

    constructor (block: Ptr, bytes: array<int>, workers: set<Wid>)
      requires bytes.Length == BLOCK_SIZE
      ensures this.block == block && mem == bytes && fresh(directory) && Valid()
      ensures Value() == Home(DirUnshared, [], bytes[..], Idle, []) && net.Keys == workers
    {
      this.block := block;
      directory := new Directory();
      mem := bytes;
      pending := Idle;
      parked := [];
      net := map w | w in workers :: [];
    }

    /** No local thread holds a lock in the block. */
    ghost predicate Valid()
      reads this, directory
    {
      mem.Length == BLOCK_SIZE && directory.Valid() && directory.Locks(block) == map[]
    }

    ghost function Value(): Home
      requires mem.Length == BLOCK_SIZE
      reads this, directory, mem
    {
      Home(directory.State(block), directory.Shared(block), mem[..], pending, parked)
    }

    /** The outcome of a handler is `o`. */
    twostate predicate Did(o: HomeOut)
      requires mem.Length == BLOCK_SIZE
      reads this, directory, mem
    {
      Value() == o.home && net == Sent(old(net), o.send)
    }

    method Send(w: Wid, m: DownMsg)
      requires w in net
      modifies this`net
      ensures net == old(net)[w := old(net)[w] + [m]]
    {
      net := net[w := net[w] + [m]];
    }

    method ProcessRemoteRead(w: Wid, ptr: Ptr)
      requires Valid() && w in net && ServeRead(Value(), w, ptr).ok && Wids(directory.Shared(block)) <= net.Keys
      requires !InTransition(directory.State(block)) && w !in Wids(directory.Shared(block))
      modifies this, directory
      ensures Valid() && Did(ServeRead(old(Value()), w, ptr))
    {
      if !directory.State(block).DirDirty? {
        Send(w, ReadReply(ptr, mem[..]));
        directory.ToShared(block, Sharer(w, ptr));
      } else {
        var owner := directory.Shared(block)[0].wid;
        SingleEntry(directory.Shared(block), owner);
        directory.ToToShared(block);
        pending := ForwardingRead(w, ptr);
        Send(owner, ReadForward(w, ptr));
      }
    }

    /** The invalidation fan-out: one message to every address in the list, except
        the requester's, for which the counter is reduced instead. */
    method FanOut(m: DownMsg, skip: Option<Wid>) returns (counter: int)
      requires Distinct(directory.Shared(block)) && Wids(directory.Shared(block)) <= net.Keys
      modifies this`net
      ensures counter == Targets(directory.Shared(block), skip)
      ensures net == Sent(old(net), Notices(directory.Shared(block), skip, m))
    {
      var list := directory.Shared(block);
      counter := |list|;
      var i := 0;
      while i < |list|
        invariant 0 <= i <= |list| && Distinct(list[i..]) && Wids(list[i..]) <= net.Keys
        invariant counter - (|list| - i) + Targets(list[i..], skip) == Targets(list, skip)
        invariant Tell(net, list[i..], skip, m) == Tell(old(net), list, skip, m)
      {
        assert list[i..][1..] == list[i+1..];
        var w := list[i].wid;
        if skip == Some(w) {
          counter := counter - 1;
        } else {
          Send(w, m);
        }
        i := i + 1;
      }
      TellOnce(old(net), list, skip, m);
    }

    /** Send the owner-to-be the block, if it needs it, and the reply. */
    method SendGrant(w: Wid, ptr: Ptr, data: bool)
      requires w in net && mem.Length == BLOCK_SIZE
      modifies this`net
      ensures net == Sent(old(net), map[w := Grant(ptr, if data then Some(mem[..]) else None)])
    {
      if data { Send(w, LineData(ptr, mem[..])); }
      Send(w, WriteReply);
      assert net[w] == old(net)[w] + Grant(ptr, if data then Some(mem[..]) else None);
    }

    /** ProcessRemoteWrite of a block in DIR_SHARED. */
    method WriteShared(w: Wid, ptr: Ptr, perm: bool)
      requires Valid() && w in net && Wids(directory.Shared(block)) <= net.Keys
      requires directory.State(block).DirShared? && (w in Wids(directory.Shared(block)) ==> perm)
      modifies this, directory
      ensures Valid() && Did(ServeWrite(old(Value()), w, ptr, perm))
    {
      WriteSends(Value(), w, ptr, perm);
      var counter := FanOut(InvalidateForward, Some(w));
      if counter != 0 {
        directory.ToToDirty(block);
        pending := InvalidatingForward(counter, w, ptr, perm);
      } else {
        NobodyTold(old(net), directory.Shared(block), w, InvalidateForward);
        SendGrant(w, ptr, false);
        directory.ToDirty(block, Sharer(w, ptr));
      }
    }

    method ProcessRemoteWrite(w: Wid, ptr: Ptr, perm: bool)
      requires Valid() && w in net && ServeWrite(Value(), w, ptr, perm).ok && Wids(directory.Shared(block)) <= net.Keys
      requires !InTransition(directory.State(block))
      modifies this, directory
      ensures Valid() && Did(ServeWrite(old(Value()), w, ptr, perm))
    {
      if directory.State(block).DirShared? {
        WriteShared(w, ptr, perm);
      } else if directory.State(block).DirDirty? {
        var owner := directory.Shared(block)[0].wid;
        SingleEntry(directory.Shared(block), owner);
        directory.ToToDirty(block);
        pending := ForwardingWrite(w, ptr);
        Send(owner, WriteForward(w, ptr));
      } else {
        WriteSends(Value(), w, ptr, perm);
        SendGrant(w, ptr, true);
        directory.ToDirty(block, Sharer(w, ptr));
      }
    }

    /** A worker's eviction notice; `dirty` asks for an acknowledgement. */
    method ProcessRemoteEvict(w: Wid, ptr: Ptr, dirty: bool)
      requires Valid() && w in net && !InTransition(directory.State(block))
      modifies this, directory
      ensures Valid() && Did(Serve(old(Value()), w, if dirty then WriteBack(ptr) else ActiveInvalidate(ptr)))
    {
      directory.Clear(block, Sharer(w, ptr));
      if dirty { Send(w, EvictAck); }
    }

    /** A request is parked in a transition and served otherwise. */
    method ProcessRequest(w: Wid, m: UpMsg)
      requires Valid() && IsRequest(m) && Admissible(Value(), w, m, net.Keys)
      modifies this, directory
      ensures Valid() && Did(HandleRequest(old(Value()), w, m))
    {
      if InTransition(directory.State(block)) {
        parked := parked + [Parked(w, m)];
        return;
      }
      match m {
        case Read(ptr) => ProcessRemoteRead(w, ptr);
        case Write(ptr) => ProcessRemoteWrite(w, ptr, false);
        case WritePermissionOnly(ptr) => ProcessRemoteWrite(w, ptr, true);
        case ActiveInvalidate(ptr) => ProcessRemoteEvict(w, ptr, false);
        case WriteBack(ptr) => ProcessRemoteEvict(w, ptr, true);
      }
    }

    /** The parked requests get another turn after a transition has ended. */
    method ProcessToServeRequest()
      requires Valid() && forall p | p in parked :: IsRequest(p.msg)
      requires AllAdmissible(Value().(parked := []), parked, net.Keys)
      modifies this, directory
      ensures Valid() && (Value(), net) == Drain(old(Value()), old(parked), old(net))
    {
      var queue := parked;
      parked := [];
      ghost var start := Value();
      var i := 0;
      while i < |queue|
        invariant 0 <= i <= |queue| && Valid() && net.Keys == old(net).Keys
        invariant AllAdmissible(Value(), queue[i..], net.Keys)
        invariant Replay(Value(), queue[i..], net) == Replay(start, queue, old(net))
      {
        assert queue[i..][0] == queue[i] && queue[i..][1..] == queue[i+1..];
        ProcessRequest(queue[i].wid, queue[i].msg);
        i := i + 1;
      }
      ReplayIsDrain(start, queue, old(net));
      assert old(Value()).(parked := []) == start;
    }

    /** The home worker's own write gets one answer, with data from an owner. */
    method ProcessPendingWrite(w: Wid, data: Option<Block>)
      requires Valid() && directory.State(block).DirToUnshared? && w in Wids(directory.Shared(block))
      requires pending.Invalidating? && (pending.fetch <==> data.Some?) && pending.counter == |directory.Shared(block)|
      modifies this, directory, mem
      ensures Valid()
      ensures Did(Reply(old(Value()), w, if data.Some? then FetchInvalidateReply(data.value) else InvalidateAck))
    {
      if data.Some? { CopyBlock(mem, data.value); }
      var counter := pending.counter - 1;
      RemoveWidEntry(directory.Shared(block), w, w);
      directory.Remove(block, w);
      if counter == 0 {
        CopyStore(mem, pending.store);
        directory.ToUnShared(block);
        pending := Idle;
      } else {
        pending := Invalidating(pending.fetch, counter, pending.store);
      }
    }

    /** A sharer has given up its copy for a remote writer. */
    method ProcessPendingInvalidateForward(w: Wid)
      requires Valid() && directory.State(block).DirToDirty? && w in Wids(directory.Shared(block))
      requires pending.InvalidatingForward? && pending.wid in net
      modifies this, directory
      ensures Valid() && Did(PendingInvalidateForward(old(Value()), w))
    {
      var p := pending;
      directory.Remove(block, w);
      var counter := p.counter - 1;
      if counter == 0 {
        SendGrant(p.wid, p.ptr, !p.perm || directory.State(block).DirUnshared?);
        directory.ToDirty(block, Sharer(p.wid, p.ptr));
        pending := Idle;
      } else {
        pending := InvalidatingForward(counter, p.wid, p.ptr, p.perm);
      }
    }

    /** The owner's copy has come back for a local reader or a forwarded read. */
    method ProcessPendingRead(b: Block)
      requires Valid() && directory.State(block).DirToShared?
      requires pending.FetchingShared? || (pending.ForwardingRead? && directory.Shared(block)[0].wid != pending.wid)
      modifies this, directory, mem
      ensures Valid() && Did(Reply(old(Value()), 0,
        if old(pending).FetchingShared? then FetchSharedReply(b) else ReadForwardReply(b)))
    {
      CopyBlock(mem, b);
      SingleEntry(directory.Shared(block), directory.Shared(block)[0].wid);
      directory.FinishShared(block);
      if pending.ForwardingRead? {
        directory.ToShared(block, Sharer(pending.wid, pending.ptr));
      }
      pending := Idle;
    }

    /** The old owner has passed the block on. */
    method ProcessPendingWriteForward()
      requires Valid() && directory.State(block).DirToDirty? && pending.ForwardingWrite? && pending.wid in net
      modifies this, directory
      ensures Valid() && Did(Reply(old(Value()), 0, WriteForwardAck))
    {
      directory.ToDirty(block, Sharer(pending.wid, pending.ptr));
      Send(pending.wid, OwnershipAck);
      pending := Idle;
    }

    method ProcessLocalRead() returns (r: Option<Block>)
      requires Valid() && !InTransition(directory.State(block)) && Wids(directory.Shared(block)) <= net.Keys
      modifies this, directory
      ensures Valid() && Did(LocalRead(old(Value()))) && r == LocalRead(old(Value())).read
    {
      if directory.State(block).DirDirty? {
        var owner := directory.Shared(block)[0].wid;
        SingleEntry(directory.Shared(block), owner);
        directory.ToToShared(block);
        pending := FetchingShared;
        Send(owner, FetchAndShared);
        r := None;
      } else {
        r := Some(mem[..]);
      }
    }

    method ProcessLocalWrite(s: Store)
      requires Valid() && !InTransition(directory.State(block)) && Wids(directory.Shared(block)) <= net.Keys
      modifies this, directory, mem
      ensures Valid() && Did(LocalWrite(old(Value()), s))
    {
      var state := directory.State(block);
      if state.DirDirty? || state.DirShared? {
        var m := if state.DirDirty? then FetchAndInvalidate else Invalidate;
        var counter := FanOut(m, None);
        directory.ToToUnShared(block);
        pending := Invalidating(state.DirDirty?, counter, s);
      } else {
        CopyStore(mem, s);
      }
    }
  }
}
