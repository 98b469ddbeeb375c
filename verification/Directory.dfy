/**
 The directory of one worker: an entry per block that other workers hold or
 local threads have locked. A block without an entry is unshared and unlocked.
 */
module Directories {
  import opened Sharers
  import opened Protocol

  const EXCLUSIVE_LOCK_TAG := 255
  const MAX_SHARED_LOCK := 254

  /** `locks` counts the readers of a locked address; the tag marks a writer. */
  datatype DirEntry = DirEntry(state: DirState, shared: seq<Sharer>, locks: map<Ptr, int>)

  predicate Locked(e: DirEntry) { e.locks != map[] }

  predicate WriteLocked(e: DirEntry) { exists p :: p in e.locks && e.locks[p] == EXCLUSIVE_LOCK_TAG }

  /** What every entry satisfies between two operations. */
  predicate EntryOk(e: DirEntry) {
    && Distinct(e.shared)
    && (e.state.DirDirty? || e.state.DirToShared? ==> |e.shared| == 1 && !Locked(e))
    && (e.state.DirShared? ==> e.shared != [])
    && (e.state.DirUnshared? ==> e.shared == [] && Locked(e))
    && (e.state.DirToDirty? ==> e.shared != [] && !Locked(e))
    && (e.state.DirToUnshared? ==> e.shared != [])
    && (WriteLocked(e) ==> e.state.DirUnshared?)
    && (forall p | p in e.locks :: 0 < e.locks[p] <= EXCLUSIVE_LOCK_TAG)
  }

  /** Scan a list for a worker's address and erase it. */
  method EraseFirst(list: seq<Sharer>, w: Wid) returns (rest: seq<Sharer>)
    requires w in Wids(list)
    ensures rest == RemoveWid(list, w)
  {
    var i := 0;
    while list[i].wid != w
      invariant i < |list| && w in Wids(list[i..]) && RemoveWid(list, w) == list[..i] + RemoveWid(list[i..], w)
      decreases |list| - i
    {
      assert list[i..][1..] == list[i+1..];
      assert list[..i] + ([list[i]] + RemoveWid(list[i+1..], w)) == list[..i+1] + RemoveWid(list[i+1..], w);
      i := i + 1;
    }
    assert list[i..][1..] == list[i+1..];
    rest := list[..i] + list[i+1..];
  }

  class Directory {
    var dir: map<Ptr, DirEntry>

    ghost predicate Valid()
      reads this
    {
      forall b | b in dir :: EntryOk(dir[b])
    }

    constructor ()
      ensures Valid() && dir == map[]
    {
      dir := map[];
    }

    function State(b: Ptr): DirState
      reads this
    {
      if b in dir then dir[b].state else DirUnshared
    }

    function Shared(b: Ptr): seq<Sharer>
      reads this
    {
      if b in dir then dir[b].shared else []
    }

    function Locks(b: Ptr): map<Ptr, int>
      reads this
    {
      if b in dir then dir[b].locks else map[]
    }

    /** A read of worker `e.wid` has been served: ToShared with an address. */
    method ToShared(b: Ptr, e: Sharer)
      requires Valid() && (State(b).DirShared? || State(b).DirUnshared?)
      requires e.wid !in Wids(Shared(b)) && (b in dir ==> !WriteLocked(dir[b]))
      modifies this
      ensures Valid() && dir == old(dir)[b := DirEntry(DirShared, old(Shared(b)) + [e], old(Locks(b)))]
    {
      AppendEntry(Shared(b), e, e.wid);
      if b !in dir {
        dir := dir[b := DirEntry(DirShared, [] + [e], map[])];
      } else {
        dir := dir[b := DirEntry(DirShared, dir[b].shared + [e], dir[b].locks)];
      }
    }

    /** The owner's copy has come back: ToShared with a null address. */
    method FinishShared(b: Ptr)
      requires Valid() && State(b).DirToShared?
      modifies this
      ensures Valid() && dir == old(dir)[b := old(dir[b]).(state := DirShared)]
    {
      dir := dir[b := dir[b].(state := DirShared)];
    }

    /** One worker gets the block for writing. */
    method ToDirty(b: Ptr, e: Sharer)
      requires Valid() && (State(b).DirUnshared? || State(b).DirShared? || State(b).DirToDirty?)
      requires Locks(b) == map[]
      modifies this
      ensures Valid() && dir == old(dir)[b := DirEntry(DirDirty, [e], map[])]
    {
      SingleEntry([e], e.wid);
      dir := dir[b := DirEntry(DirDirty, [e], Locks(b))];
    }

    method ToToShared(b: Ptr)
      requires Valid() && State(b).DirDirty?
      modifies this
      ensures Valid() && dir == old(dir)[b := old(dir[b]).(state := DirToShared)]
    {
      dir := dir[b := dir[b].(state := DirToShared)];
    }

    method ToToUnShared(b: Ptr)
      requires Valid() && (State(b).DirDirty? || State(b).DirShared?)
      modifies this
      ensures Valid() && dir == old(dir)[b := old(dir[b]).(state := DirToUnshared)]
    {
      dir := dir[b := dir[b].(state := DirToUnshared)];
    }

    method ToToDirty(b: Ptr)
      requires Valid() && (State(b).DirDirty? || State(b).DirShared?) && Locks(b) == map[]
      modifies this
      ensures Valid() && dir == old(dir)[b := old(dir[b]).(state := DirToDirty)]
    {
      dir := dir[b := dir[b].(state := DirToDirty)];
    }

    /** An answer that gives a copy up: erase the worker's address, and the entry
        with its last address unless it is locked. A collection in progress that
        loses its last address in a locked entry is completed by the same handler. */
    method Remove(b: Ptr, w: Wid)
      requires Valid() && b in dir && w in Wids(dir[b].shared) && InTransition(dir[b].state)
      modifies this
      ensures var rest := RemoveWid(old(dir[b]).shared, w);
        dir ==
          if rest == [] && !Locked(old(dir[b])) then old(dir) - {b} else old(dir)[b := old(dir[b]).(shared := rest)]
      ensures !old(State(b)).DirToShared? ==>
        RemoveWid(old(dir[b]).shared, w) != [] || !Locked(old(dir[b])) ==> Valid()
    {
      RemoveWidEntry(dir[b].shared, w, w);
      var shared := EraseFirst(dir[b].shared, w);
      if shared == [] && dir[b].locks == map[] {
        dir := dir - {b};
      } else {
        dir := dir[b := dir[b].(shared := shared)];
      }
    }

    /** All copies are gone: ToUnShared. */
    method ToUnShared(b: Ptr)
      requires forall c | c in dir && c != b :: EntryOk(dir[c])
      requires b in dir ==> dir[b].state.DirToUnshared? && !WriteLocked(dir[b])
                            && (forall p | p in dir[b].locks :: 0 < dir[b].locks[p] <= EXCLUSIVE_LOCK_TAG)
      modifies this
      ensures Valid()
      ensures dir ==
        if b in old(dir) && Locked(old(dir[b])) then old(dir)[b := DirEntry(DirUnshared, [], old(dir[b]).locks)]
        else old(dir) - {b}
    {
      if b in dir {
        if dir[b].locks != map[] {
          dir := dir[b := DirEntry(DirUnshared, [], dir[b].locks)];
        } else {
          dir := dir - {b};
        }
      }
    }

    /** A worker evicted the line at address `e`: Clear. */
    method Clear(b: Ptr, e: Sharer)
      requires Valid() && !InTransition(State(b))
      modifies this
      ensures Valid()
      ensures var old_ := old(Shared(b));
        var rest := if old(State(b)).DirDirty? then (if old_[0] == e then [] else old_) else RemoveAddr(old_, e);
        dir == if b !in old(dir) then old(dir)
               else if rest != [] then old(dir)[b := old(dir[b]).(shared := rest)]
               else if Locked(old(dir[b])) then old(dir)[b := DirEntry(DirUnshared, [], old(dir[b]).locks)]
               else old(dir) - {b}
    {
      if b !in dir { return; }
      var shared := dir[b].shared;
      if dir[b].state.DirDirty? {
        if e == shared[0] { shared := shared[1..]; }
      } else {
        RemoveAddrEntry(shared, e, e.wid);
        shared := RemoveAll(shared, e);
      }
      if shared == [] {
        if dir[b].locks == map[] {
          dir := dir - {b};
        } else {
          dir := dir[b := DirEntry(DirUnshared, [], dir[b].locks)];
        }
      } else {
        dir := dir[b := dir[b].(shared := shared)];
      }
    }

    /** A shared lock on an address of the block; `ok` is false when a writer holds it. */
    method RLock(b: Ptr, p: Ptr) returns (ok: bool)
      requires Valid() && !InTransition(State(b)) && !State(b).DirDirty?
      requires p in Locks(b) && Locks(b)[p] != EXCLUSIVE_LOCK_TAG ==> Locks(b)[p] < MAX_SHARED_LOCK
      modifies this
      ensures Valid() && ok == !(p in old(Locks(b)) && old(Locks(b))[p] == EXCLUSIVE_LOCK_TAG)
      ensures dir == if !ok then old(dir)
        else old(dir)[b := DirEntry(old(State(b)), old(Shared(b)),
          old(Locks(b))[p := if p in old(Locks(b)) then old(Locks(b))[p] + 1 else 1])]
    {
      if b !in dir {
        dir := dir[b := DirEntry(DirUnshared, [], map[p := 1])];
        assert p in dir[b].locks;
        return true;
      }
      var locks := dir[b].locks;
      if p in locks && locks[p] == EXCLUSIVE_LOCK_TAG { return false; }
      var count := if p in locks then locks[p] + 1 else 1;
      var e := DirEntry(dir[b].state, dir[b].shared, locks[p := count]);
      assert p in e.locks;
      assert WriteLocked(e) ==> WriteLocked(dir[b]) by {
        if WriteLocked(e) {
          var q :| q in e.locks && e.locks[q] == EXCLUSIVE_LOCK_TAG;
          assert q in locks && locks[q] == EXCLUSIVE_LOCK_TAG;
        }
      }
      dir := dir[b := e];
      ok := true;
    }

    /** An exclusive lock on an address of an unshared block. */
    method WLock(b: Ptr, p: Ptr) returns (ok: bool)
      requires Valid() && State(b).DirUnshared?
      modifies this
      ensures Valid() && ok == (p !in old(Locks(b)))
      ensures dir ==
        if !ok then old(dir) else old(dir)[b := DirEntry(DirUnshared, [], old(Locks(b))[p := EXCLUSIVE_LOCK_TAG])]
    {
      if b in dir && p in dir[b].locks { return false; }
      var locks := if b in dir then dir[b].locks else map[];
      var e := DirEntry(DirUnshared, [], locks[p := EXCLUSIVE_LOCK_TAG]);
      assert p in e.locks;
      dir := dir[b := e];
      ok := true;
    }

    /** Release one lock; an unshared entry goes with its last lock. */
    method UnLock(b: Ptr, p: Ptr)
      requires Valid() && b in dir && p in dir[b].locks
      modifies this
      ensures Valid()
      ensures var e := old(dir[b]);
        var count := if e.locks[p] == EXCLUSIVE_LOCK_TAG then 0 else e.locks[p] - 1;
        var locks := if count == 0 then e.locks - {p} else e.locks[p := count];
        dir == if e.state.DirUnshared? && locks == map[] then old(dir) - {b} else old(dir)[b := e.(locks := locks)]
    {
      var e := dir[b];
      var count := if e.locks[p] == EXCLUSIVE_LOCK_TAG then 0 else e.locks[p] - 1;
      var locks := if count == 0 then e.locks - {p} else e.locks[p := count];
      var e' := e.(locks := locks);
      assert WriteLocked(e') ==> WriteLocked(e) by {
        if WriteLocked(e') {
          var q :| q in locks && locks[q] == EXCLUSIVE_LOCK_TAG;
          assert q in e.locks && e.locks[q] == EXCLUSIVE_LOCK_TAG;
        }
      }
      if e.state.DirUnshared? && locks == map[] {
        dir := dir - {b};
      } else {
        dir := dir[b := e'];
      }
    }
  }

  /** list::remove */
  method RemoveAll(list: seq<Sharer>, e: Sharer) returns (r: seq<Sharer>)
    ensures r == RemoveAddr(list, e)
  {
    r := [];
    var i := |list|;
    while i > 0
      invariant 0 <= i <= |list| && r == RemoveAddr(list[i..], e)
    {
      i := i - 1;
      assert list[i..][1..] == list[i+1..];
      if list[i] != e { r := [list[i]] + r; }
    }
    assert list[0..] == list;
  }
}
