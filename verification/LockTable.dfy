/**
 The multi-block try-lock: one lock per block of the range, taken in address order,
 given back if one of them is refused.
 */
module LockTables {
  import opened Basics

  /** A shared lock with its readers, or an exclusive one. */
  datatype Held = Shared(readers: nat) | Exclusive

  type Table = map<Addr, Held>

  predicate WellFormed(t: Table) {
    forall k | k in t && t[k].Shared? :: t[k].readers > 0
  }

  predicate CanLock(t: Table, k: Addr, write: bool) {
    if write then k !in t else k in t ==> t[k].Shared?
  }

  /** What the source decides on. At the requesting worker a lock conflicts with a lock
      on the same address; where the request has to be decided by another worker, which
      keeps the locks of `far`, it conflicts with a lock anywhere in the block. */
  predicate Granted(t: Table, far: set<Addr>, k: Addr, write: bool) {
    forall x | x in t && (x == k || (x in far && ToBlock(x) == ToBlock(k))) :: !write && t[x].Shared?
  }

  /** No granted lock conflicts with one that is held, and a block without conflicting
      locks is never refused. */
  lemma GrantedBounds(t: Table, far: set<Addr>, k: Addr, write: bool)
    ensures Granted(t, far, k, write) ==> CanLock(t, k, write)
    ensures (forall x | x in t && ToBlock(x) == ToBlock(k) :: !write && t[x].Shared?) ==> Granted(t, far, k, write)
    ensures far == {} ==> (Granted(t, far, k, write) <==> CanLock(t, k, write))
  {
  }

  /** A lock on one address can keep another worker from a free address of the block. */
  lemma FreeYetRefused()
    ensures var t := map[8 := Exclusive]; CanLock(t, 0, false) && !Granted(t, {8}, 0, false)
  {
    var t := map[8 := Exclusive];
    assert 8 in t && t[8].Exclusive? && ToBlock(8) == ToBlock(0);
  }

  /** A request is refused for a conflicting lock on its address, and for one that another
      worker keeps anywhere in the block; a write conflicts with every lock. */
  lemma ConflictRefused(t: Table, far: set<Addr>, k: Addr, write: bool, x: Addr)
    requires x in t && (x == k || (x in far && ToBlock(x) == ToBlock(k))) && (write || t[x].Exclusive?)
    ensures !Granted(t, far, k, write)
  {
    hide ToBlock;
  }

  function LockKey(t: Table, k: Addr, write: bool): Table {
    if write then t[k := Exclusive]
    else if k in t && t[k].Shared? then t[k := Shared(t[k].readers + 1)]
    else t[k := Shared(1)]
  }

  function FreeKey(t: Table, k: Addr): Table {
    if k !in t then t
    else if t[k].Exclusive? || t[k].readers <= 1 then t - {k}
    else t[k := Shared(t[k].readers - 1)]
  }

  /** Where the locks of the range are: at its address, and at the start of every
      further block it reaches into. */
  function BlockKeys(addr: Addr, count: nat): (keys: seq<Addr>)
    requires count > 0
    ensures |keys| > 0 && keys[0] == addr
    ensures forall i, j | 0 <= i < j < |keys| :: keys[i] < keys[j]
    ensures forall i | 0 <= i < |keys| :: addr <= keys[i] < addr + count
  {
    var n := (ToBlock(addr + count - 1) - ToBlock(addr)) / BLOCK_SIZE;
    [addr] + seq(n, i requires 0 <= i < n => ToBlock(addr) + (i + 1) * BLOCK_SIZE)
  }

  /** The loop's own arithmetic: key `i`, and when to stop. */
  lemma KeyAt(addr: Addr, count: nat, i: nat)
    requires count > 0
    ensures 0 < i < |BlockKeys(addr, count)| ==> BlockKeys(addr, count)[i] == ToBlock(addr) + i * BLOCK_SIZE
    ensures i > 0 ==> (ToBlock(addr) + i * BLOCK_SIZE > ToBlock(addr + count - 1) <==> i >= |BlockKeys(addr, count)|)
  {
  }

  /** Lock `i` is in block `i` of the range. */
  lemma KeyBlock(addr: Addr, count: nat, i: nat)
    requires count > 0 && i < |BlockKeys(addr, count)|
    ensures ToBlock(BlockKeys(addr, count)[i]) == ToBlock(addr) + i * BLOCK_SIZE
  {
  }

  lemma OtherBlocks(addr: Addr, count: nat, i: nat)
    requires count > 0 && i < |BlockKeys(addr, count)|
    ensures forall x | x in BlockKeys(addr, count)[..i] :: ToBlock(x) != ToBlock(BlockKeys(addr, count)[i])
  {
    hide BlockKeys, ToBlock;
    KeyBlock(addr, count, i);
    forall j | 0 <= j < i ensures ToBlock(BlockKeys(addr, count)[j]) != ToBlock(BlockKeys(addr, count)[i]) {
      KeyBlock(addr, count, j);
    }
  }

  /** Where the block of a byte of the range comes among them. */
  lemma KeyCount(addr: Addr, count: nat, x: Addr)
    requires count > 0 && addr <= x < addr + count
    ensures var i := (ToBlock(x) - ToBlock(addr)) / BLOCK_SIZE;
      0 <= i < |BlockKeys(addr, count)| && ToBlock(x) == ToBlock(addr) + i * BLOCK_SIZE
  {
    hide ToBlock;
    var end := addr + count - 1;
    BlockNumber(addr);
    BlockNumber(x);
    BlockNumber(end);
    assert addr / BLOCK_SIZE <= x / BLOCK_SIZE <= end / BLOCK_SIZE;
  }

  lemma BlockNumber(a: Addr)
    ensures ToBlock(a) == a / BLOCK_SIZE * BLOCK_SIZE
  {
  }

  /** Every byte of the range lies in the block of exactly one of its locks. */
  lemma OneKeyPerBlock(addr: Addr, count: nat, x: Addr) returns (i: nat)
    requires count > 0 && addr <= x < addr + count
    ensures i < |BlockKeys(addr, count)|
    ensures forall j | 0 <= j < |BlockKeys(addr, count)| :: ToBlock(BlockKeys(addr, count)[j]) == ToBlock(x) <==> j == i
  {
    hide BlockKeys, ToBlock;
    KeyCount(addr, count, x);
    i := (ToBlock(x) - ToBlock(addr)) / BLOCK_SIZE;
    forall j | 0 <= j < |BlockKeys(addr, count)| ensures ToBlock(BlockKeys(addr, count)[j]) == ToBlock(x) <==> j == i {
      KeyBlock(addr, count, j);
    }
  }

  /** All locks at once. */
  function LockAll(t: Table, keys: seq<Addr>, write: bool): Table {
    map k | k in t.Keys + (set x | x in keys) ::
      if k !in keys then t[k] else LockKey(t, k, write)[k]
  }

  predicate CanLockAll(t: Table, keys: seq<Addr>, write: bool) {
    forall i | 0 <= i < |keys| :: CanLock(t, keys[i], write)
  }

  predicate GrantedAll(t: Table, far: set<Addr>, keys: seq<Addr>, write: bool) {
    forall i | 0 <= i < |keys| :: Granted(t, far, keys[i], write)
  }

  predicate Unique(keys: seq<Addr>) {
    forall i, j | 0 <= i < j < |keys| :: keys[i] != keys[j]
  }

  lemma NoLocks(t: Table, write: bool)
    ensures LockAll(t, [], write) == t
  {
  }

  lemma LockLast(t: Table, keys: seq<Addr>, k: Addr, write: bool)
    requires k !in keys
    ensures LockKey(LockAll(t, keys, write), k, write) == LockAll(t, keys + [k], write)
    ensures CanLock(LockAll(t, keys, write), k, write) <==> CanLock(t, k, write)
  {
    var l, r := LockKey(LockAll(t, keys, write), k, write), LockAll(t, keys + [k], write);
    forall x ensures (x in l <==> x in r) && (x in l ==> l[x] == r[x]) {
      assert x in keys + [k] <==> x in keys || x == k;
    }
  }

  /** Locks taken in other blocks do not decide on this one. */
  lemma GrantedLater(t: Table, far: set<Addr>, keys: seq<Addr>, k: Addr, write: bool)
    requires forall x | x in keys :: ToBlock(x) != ToBlock(k)
    ensures Granted(LockAll(t, keys, write), far, k, write) <==> Granted(t, far, k, write)
  {
    hide ToBlock;
    forall x | ToBlock(x) == ToBlock(k)
      ensures x in LockAll(t, keys, write) <==> x in t
      ensures x in t ==> LockAll(t, keys, write)[x] == t[x]
    {}
  }

  /** Giving back one lock of several. */
  lemma FreeOne(t: Table, keys: seq<Addr>, k: Addr, write: bool)
    requires WellFormed(t) && k !in keys && CanLock(t, k, write)
    ensures FreeKey(LockAll(t, [k] + keys, write), k) == LockAll(t, keys, write)
  {
    hide LockAll, LockKey, FreeKey, CanLock, WellFormed;
    FreeOther(t, keys, k, write);
    FreeSelf(t, keys, k, write);
    assert FreeKey(LockAll(t, [k] + keys, write), k).Keys == LockAll(t, keys, write).Keys;
  }

  lemma FreeSelf(t: Table, keys: seq<Addr>, k: Addr, write: bool)
    requires WellFormed(t) && k !in keys && CanLock(t, k, write)
    ensures k in FreeKey(LockAll(t, [k] + keys, write), k) <==> k in LockAll(t, keys, write)
    ensures k in LockAll(t, keys, write) ==> FreeKey(LockAll(t, [k] + keys, write), k)[k] == LockAll(t, keys, write)[k]
  {
    assert k in [k] + keys;
    assert LockAll(t, [k] + keys, write)[k] == LockKey(t, k, write)[k];
  }

  lemma FreeOther(t: Table, keys: seq<Addr>, k: Addr, write: bool)
    ensures forall x | x != k :: x in FreeKey(LockAll(t, [k] + keys, write), k) <==> x in LockAll(t, keys, write)
    ensures forall x | x != k && x in LockAll(t, keys, write) ::
      FreeKey(LockAll(t, [k] + keys, write), k)[x] == LockAll(t, keys, write)[x]
  {
    forall x | x != k ensures x in [k] + keys <==> x in keys {}
  }

  lemma FreeFirst(t: Table, keys: seq<Addr>, write: bool)
    requires WellFormed(t) && keys != [] && Unique(keys) && CanLockAll(t, keys, write)
    ensures FreeKey(LockAll(t, keys, write), keys[0]) == LockAll(t, keys[1..], write)
  {
    assert keys == [keys[0]] + keys[1..];
    FreeOne(t, keys[1..], keys[0], write);
  }

  /** One lock at every key given back. */
  function FreeAll(t: Table, keys: seq<Addr>): Table {
    map k | k in t && (k in keys ==> k in FreeKey(t, k)) :: if k in keys then FreeKey(t, k)[k] else t[k]
  }

  lemma FreeNone(t: Table)
    ensures FreeAll(t, []) == t
  {
  }

  lemma FreeLast(t: Table, keys: seq<Addr>, k: Addr)
    requires k !in keys
    ensures FreeKey(FreeAll(t, keys), k) == FreeAll(t, keys + [k])
  {
    var l, r := FreeKey(FreeAll(t, keys), k), FreeAll(t, keys + [k]);
    forall x ensures (x in l <==> x in r) && (x in l ==> l[x] == r[x]) {
      assert x in keys + [k] <==> x in keys || x == k;
    }
  }

  /** Unlocking a range undoes locking it. */
  lemma UnlockUndoesLock(t: Table, keys: seq<Addr>, write: bool)
    requires WellFormed(t) && CanLockAll(t, keys, write)
    ensures FreeAll(LockAll(t, keys, write), keys) == t
  {
    var l := FreeAll(LockAll(t, keys, write), keys);
    forall x ensures (x in l <==> x in t) && (x in l ==> l[x] == t[x]) {
      if x in keys { assert CanLock(t, x, write); }
    }
  }

  class GAlloc {
    var table: Table

    /** One request for one block's lock; `far` are the locks that other workers keep. */
    method SendLock(k: Addr, write: bool, far: set<Addr>) returns (ok: bool)
      modifies this
      ensures ok == Granted(old(table), far, k, write)
      ensures table == if ok then LockKey(old(table), k, write) else old(table)
    {
      ok := Granted(table, far, k, write);
      if ok { table := LockKey(table, k, write); }
    }

    method SendUnlock(k: Addr)
      modifies this
      ensures table == FreeKey(old(table), k)
    {
      table := FreeKey(table, k);
    }

    /** Try_RLock and Try_WLock: all blocks of the range or none. */
    method Lock(addr: Addr, count: nat, write: bool, far: set<Addr>) returns (status: int)
      requires count > 0 && WellFormed(table)
      modifies this
      ensures status == (if GrantedAll(old(table), far, BlockKeys(addr, count), write) then 0 else -1)
      ensures status == 0 ==> CanLockAll(old(table), BlockKeys(addr, count), write)
      ensures table == if status == 0 then LockAll(old(table), BlockKeys(addr, count), write) else old(table)
    {
      hide LockAll, LockKey, FreeKey, CanLock, Granted, BlockKeys, ToBlock;
      ghost var keys := BlockKeys(addr, count);
      var start, last := ToBlock(addr), ToBlock(addr + count - 1);
      var i, next := 0, addr;
      GrantedBounds(table, far, next, write);
      var ok := SendLock(next, write, far);
      NoLocks(old(table), write);
      assert keys[..0] == [] && keys[..1] == [] + [addr];
      LockLast(old(table), [], addr, write);
      while ok
        invariant 0 <= i < |keys| && next == keys[i]
        invariant forall j | 0 <= j < i ::
          Granted(old(table), far, keys[j], write) && CanLock(old(table), keys[j], write)
        invariant ok == Granted(old(table), far, keys[i], write) && (ok ==> CanLock(old(table), keys[i], write))
        invariant table == if ok then LockAll(old(table), keys[..i+1], write) else LockAll(old(table), keys[..i], write)
        decreases |keys| - i
      {
        i := i + 1;
        next := start + i * BLOCK_SIZE;
        KeyAt(addr, count, i);
        if next > last { break; }
        LockLast(old(table), keys[..i], keys[i], write);
        assert keys[..i+1] == keys[..i] + [keys[i]];
        OtherBlocks(addr, count, i);
        GrantedLater(old(table), far, keys[..i], keys[i], write);
        GrantedBounds(old(table), far, keys[i], write);
        ok := SendLock(next, write, far);
      }
      if ok {
        assert keys[..i] == keys;
        return 0;
      }
      ghost var got := keys[..i];
      if i >= 1 {
        FreeFirst(old(table), got, write);
        SendUnlock(addr);
        var j := 1;
        while j < i
          invariant 1 <= j <= i && table == LockAll(old(table), got[j..], write)
        {
          FreeFirst(old(table), got[j..], write);
          KeyAt(addr, count, j);
          assert got[j..][1..] == got[j+1..];
          SendUnlock(start + j * BLOCK_SIZE);
          j := j + 1;
        }
        assert got[i..] == [];
      }
      status := -1;
    }

    /** UnLock of the range gives back one lock in every block of it. */
    method UnLock(addr: Addr, count: nat)
      requires count > 0 && WellFormed(table) && forall k | k in BlockKeys(addr, count) :: k in table
      modifies this
      ensures table == FreeAll(old(table), BlockKeys(addr, count))
    {
      hide FreeKey, BlockKeys, ToBlock, FreeAll;
      ghost var keys := BlockKeys(addr, count);
      var start, last := ToBlock(addr), ToBlock(addr + count - 1);
      var i, next := 0, addr;
      assert keys[..0] == [];
      FreeNone(table);
      while next <= last || i == 0
        invariant 0 <= i <= |keys| && (i < |keys| ==> next == keys[i]) && (i == |keys| ==> next > last && i > 0)
        invariant i > 0 ==> next == start + i * BLOCK_SIZE
        invariant table == FreeAll(old(table), keys[..i])
        decreases |keys| - i
      {
        FreeLast(old(table), keys[..i], keys[i]);
        assert keys[..i+1] == keys[..i] + [keys[i]];
        SendUnlock(next);
        i := i + 1;
        next := start + i * BLOCK_SIZE;
        KeyAt(addr, count, i);
      }
      KeyAt(addr, count, i);
      assert keys[..i] == keys;
    }
  }
}
