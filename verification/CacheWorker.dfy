/**
 A cache worker's handlers as they run on its cache line: the state word, the line
 buffer, the pending work of a write, the parked queue and the outgoing channels are
 changed in place. Each is proved to do what the protocol's step function says.
 */
module CacheWorkers {
  import opened Blocks
  import opened Basics
  import opened CacheStates
  import opened Sharers
  import opened Protocol

  class CacheWorker {
    var state: CacheState         // Invalid: there is no line
    var ptr: Ptr
    var line: array<int>
    var perm: bool                // the pending write: WRITE_PERMISSION_ONLY,
    var store: Store              // its bytes
    var counter: int              // and its message counter
    var evicting: bool            // a WRITE_BACK is pending
    var parked: seq<DownMsg>
    var up: seq<UpMsg>
    var toPeers: seq<(Wid, PeerMsg)>
    var down: seq<DownMsg>
    var peer: seq<PeerMsg>

    constructor (buffer: array<int>)
      requires buffer.Length == BLOCK_SIZE
      ensures Valid() && Value() == Node(Absent, [], [], [], []) && toPeers == []
    {
      state, ptr, line, perm, store, counter, evicting := Invalid, 0, buffer, false, Store(0, []), 0, false;
      parked, up, toPeers, down, peer := [], [], [], [], [];
    }

    /** A line has the size of a block. */
    ghost predicate Valid()
      reads this
    {
      line.Length == BLOCK_SIZE
    }

    ghost function LineValue(): Line
      requires Valid()
      reads this, line
    {
      match state
      case Invalid => Absent
      case ToShared => CacheToShared(ptr)
      case Shared => CacheShared(ptr, line[..])
      case ToDirty => CacheToDirty(ptr, line[..], perm, store, counter)
      case Dirty => CacheDirty(ptr, line[..])
      case ToInvalid => CacheToInvalid(ptr, line[..], evicting)
    }

    ghost function Value(): Node
      requires Valid()
      reads this, line
    {
      Node(LineValue(), parked, up, down, peer)
    }

    twostate predicate Did(o: NodeOut)
      requires old(Valid()) && Valid()
      reads this, line
    {
      Value() == o.node && toPeers == old(toPeers) + if o.send.Some? then [o.send.value] else []
    }

    /** The owner answers a fetch for reading. */
    method ProcessRemoteReadCache(m: DownMsg)
      requires Valid() && (m.FetchAndShared? || m.ReadForward?) && ServeReadCache(Value(), m).ok
      modifies this
      ensures Valid() && Did(ServeReadCache(old(Value()), m))
    {
      if state.ToDirty? {
        parked := parked + [m];
        return;
      }
      if m.FetchAndShared? {
        up := up + [FetchSharedReply(line[..])];
      } else {
        toPeers := toPeers + [(m.pwid, ReadData(m.ptr, line[..]))];
        up := up + [ReadForwardReply(line[..])];
      }
      if state.Dirty? { state := Shared; }
    }

    /** A sharer gives up its copy. */
    method ProcessInvalidate(m: DownMsg)
      requires Valid() && (m.Invalidate? || m.InvalidateForward?) && ServeInvalidate(Value(), m).ok
      modifies this
      ensures Valid() && Did(ServeInvalidate(old(Value()), m))
    {
      if state.ToShared? {
        parked := parked + [m];
        return;
      }
      if state.Shared? { state := Invalid; }
      up := up + [if m.Invalidate? then InvalidateAck else InvalidateForwardAck];
    }

    /** The owner passes the block on to a writer. */
    method ProcessRemoteWriteCache(m: DownMsg)
      requires Valid() && (m.FetchAndInvalidate? || m.WriteForward?) && ServeWriteCache(Value(), m).ok
      modifies this
      ensures Valid() && Did(ServeWriteCache(old(Value()), m))
    {
      if state.ToDirty? || state.ToShared? {
        parked := parked + [m];
        return;
      }
      if m.FetchAndInvalidate? {
        up := up + [FetchInvalidateReply(line[..])];
      } else {
        toPeers := toPeers + [(m.pwid, OwnershipData(m.ptr, line[..]))];
        up := up + [WriteForwardAck];
      }
      if state.Dirty? {
        state := ToInvalid;
        evicting := false;
      }
    }

    /** The reply to a read. */
    method ProcessPendingRead(p: Ptr, b: Block) returns (r: Block)
      requires Valid() && FinishRead(Value(), p, b).ok
      modifies this, line
      ensures Valid() && Did(FinishRead(old(Value()), p, b)) && FinishRead(old(Value()), p, b).read == Some(r)
    {
      CopyBlock(line, b);
      state := Shared;
      r := line[..];
    }

    /** The reply to a write: the home worker's, its acknowledgement of a transfer, or
        the old owner's data. At zero the bytes are copied again over what has arrived. */
    method ProcessPendingWrite(delta: int)
      requires Valid() && CountWrite(Value(), delta).ok
      modifies this, line
      ensures Valid() && Did(CountWrite(old(Value()), delta)) && line == old(line)
    {
      counter := counter + delta;
      if counter == 0 {
        CopyStore(line, store);
        state := Dirty;
      }
    }

    /** A block written by RDMA. */
    method ReceiveData(p: Ptr, b: Block)
      requires Valid() && Land(Value(), p, b).1
      modifies line
      ensures Value() == Land(old(Value()), p, b).0
    {
      CopyBlock(line, b);
    }

    /** The old owner's data and its message. */
    method ReceiveOwnership(p: Ptr, b: Block)
      requires Valid() && FromPeer(Value(), OwnershipData(p, b)).ok
      modifies this, line
      ensures Valid() && Did(FromPeer(old(Value()), OwnershipData(p, b)))
    {
      ReceiveData(p, b);
      ProcessPendingWrite(-1);
    }

    method Read(p: Ptr, buffer: array<int>) returns (r: Option<Block>)
      requires Valid() && buffer.Length == BLOCK_SIZE
      modifies this
      ensures Valid() && Did(CacheRead(old(Value()), p)) && CacheRead(old(Value()), p).read == r
    {
      r := None;
      match state {
        case Invalid =>
          ptr, line, state := p, buffer, ToShared;
          up := up + [UpMsg.Read(p)];
        case Shared => r := Some(line[..]);
        case Dirty => r := Some(line[..]);
        case ToInvalid => r := Some(line[..]);
        case _ =>
      }
    }

    /** A write: a miss, an upgrade whose bytes go into the line at once, or a hit.
        `buffer` is the line allocated on a miss. */
    method Write(p: Ptr, buffer: array<int>, s: Store)
      requires Valid() && buffer.Length == BLOCK_SIZE
      modifies this, line
      ensures Valid() && Did(CacheWrite(old(Value()), p, old(buffer[..]), s))
    {
      match state {
        case Invalid =>
          ptr, line, perm, store, counter, state := p, buffer, false, s, 0, ToDirty;
          up := up + [UpMsg.Write(p)];
        case Shared =>
          CopyStore(line, s);
          perm, store, counter, state := true, s, 0, ToDirty;
          up := up + [WritePermissionOnly(ptr)];
        case Dirty => CopyStore(line, s);
        case _ =>
      }
    }

    /** Evict the line. */
    method EvictLine()
      requires Valid()
      modifies this
      ensures Valid() && Did(Evict(old(Value())))
    {
      if state.Shared? {
        state := Invalid;
        up := up + [ActiveInvalidate(ptr)];
      } else if state.Dirty? {
        up := up + [WriteBackData(line[..])];
        state, evicting := ToInvalid, true;
        up := up + [WriteBack(ptr)];
      }
    }

    /** The write-back has been acknowledged. */
    method ProcessPendingEvictDirty()
      requires Valid() && FromHome(Value(), EvictAck).ok
      modifies this
      ensures Valid() && Did(FromHome(old(Value()), EvictAck))
    {
      state := Invalid;
    }

    /** The last message of a line passed on has left. */
    method CompletionCheck()
      requires Valid()
      modifies this
      ensures Valid() && Did(SendDone(old(Value())))
    {
      if state.ToInvalid? && !evicting { state := Invalid; }
    }
  }
}
