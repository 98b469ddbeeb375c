/**
 The slab allocator: pages cut into chunks of one size class each, a free list for
 every class, and the byte counts.
 */
module Slabs {
  import opened Basics
  import opened SlabClasses

  /** What is recorded for a chunk: its class while it is allocated, 0 while it is free. */
  datatype Item = Item(cls: nat, size: nat)

  /** Every chunk with its class, counted from 0. */
  type Chunks = map<Addr, nat>

  type Stats = map<Addr, Item>

  ghost predicate Classified(sizes: seq<nat>, chunks: Chunks) {
    forall c | c in chunks :: chunks[c] < |sizes|
  }

  /** The chunks lie apart from each other in the arena, block sizes on block boundaries. */
  ghost predicate Placed(sizes: seq<nat>, chunks: Chunks, lo: Addr, hi: Addr)
    requires Classified(sizes, chunks)
  {
    && (forall c | c in chunks :: lo <= c && c + sizes[chunks[c]] <= hi)
    && (forall c | c in chunks && sizes[chunks[c]] % BLOCK_SIZE == 0 :: c % BLOCK_SIZE == 0)
    && (forall c, d | c in chunks && d in chunks && c < d :: c + sizes[chunks[c]] <= d)
  }

  predicate NoDuplicates(l: seq<Addr>) {
    forall i, j | 0 <= i < j < |l| :: l[i] != l[j]
  }

  /** A chunk is allocated to a request of its class, or free. */
  predicate Fits(sizes: seq<nat>, k: nat, it: Item)
    requires k < |sizes|
  {
    it.cls == 0 || (it.cls == k + 1 && Below(sizes, k) < it.size <= sizes[k])
  }

  /** Every free chunk is on the list of its class exactly once, and nothing else is. */
  ghost predicate Listed(sizes: seq<nat>, chunks: Chunks, stats: Stats, slots: seq<seq<Addr>>)
    requires Classified(sizes, chunks)
  {
    && stats.Keys == chunks.Keys && |slots| == |sizes|
    && (forall c | c in chunks :: Fits(sizes, chunks[c], stats[c]))
    && (forall k | 0 <= k < |slots| :: NoDuplicates(slots[k]))
    && (forall k, c | 0 <= k < |slots| :: c in slots[k] <==> c in chunks && chunks[c] == k && stats[c].cls == 0)
  }

  // ----- sums over chunks -----

  /** The sum of all values of a map. */
  ghost function Total(m: map<Addr, nat>): nat {
    if m == map[] then 0
    else
      var k :| k in m;
      m[k] + Total(m - {k})
  }

  lemma {:induction false} TotalRemove(m: map<Addr, nat>, k: Addr)
    requires k in m
    ensures Total(m) == m[k] + Total(m - {k})
    decreases |m|
  {
    var j :| j in m && Total(m) == m[j] + Total(m - {j});
    if j != k {
      TotalRemove(m - {j}, k);
      TotalRemove(m - {k}, j);
      assert m - {j} - {k} == m - {k} - {j};
    }
  }

  lemma TotalAdd(m: map<Addr, nat>, k: Addr, v: nat)
    requires k !in m
    ensures Total(m[k := v]) == Total(m) + v
  {
    TotalRemove(m[k := v], k);
    assert m[k := v] - {k} == m;
  }

  lemma {:induction false} TotalPart(m: map<Addr, nat>, n: map<Addr, nat>)
    requires forall k | k in m :: k in n && n[k] == m[k]
    ensures Total(m) <= Total(n)
    decreases |n|
  {
    if n == map[] {
      assert m == map[];
    } else {
      var k :| k in n;
      TotalRemove(n, k);
      if k in m {
        TotalRemove(m, k);
        TotalPart(m - {k}, n - {k});
      } else {
        TotalPart(m, n - {k});
      }
    }
  }

  /** The bytes of all chunks. */
  ghost function Cut(sizes: seq<nat>, chunks: Chunks): map<Addr, nat>
    requires Classified(sizes, chunks)
  {
    map c | c in chunks :: sizes[chunks[c]]
  }

  /** The bytes of the allocated chunks. */
  ghost function Used(sizes: seq<nat>, chunks: Chunks, stats: Stats): map<Addr, nat>
    requires Classified(sizes, chunks) && stats.Keys == chunks.Keys
  {
    map c | c in chunks && stats[c].cls != 0 :: sizes[chunks[c]]
  }

  lemma UsedIsPart(sizes: seq<nat>, chunks: Chunks, stats: Stats)
    requires Classified(sizes, chunks) && stats.Keys == chunks.Keys
    ensures Total(Used(sizes, chunks, stats)) <= Total(Cut(sizes, chunks))
  {
    hide Total;
    TotalPart(Used(sizes, chunks, stats), Cut(sizes, chunks));
  }

  // ----- the three moves -----

  lemma PlacedPush(sizes: seq<nat>, chunks: Chunks, lo: Addr, c: Addr, k: nat)
    requires Classified(sizes, chunks) && Placed(sizes, chunks, lo, c) && k < |sizes| && lo <= c
    requires (forall x | x in chunks :: sizes[chunks[x]] > 0) && (sizes[k] % BLOCK_SIZE == 0 ==> c % BLOCK_SIZE == 0)
    ensures c !in chunks && Classified(sizes, chunks[c := k]) && Placed(sizes, chunks[c := k], lo, c + sizes[k])
  {
  }

  lemma CutPush(sizes: seq<nat>, chunks: Chunks, stats: Stats, c: Addr, k: nat)
    requires Classified(sizes, chunks) && stats.Keys == chunks.Keys && k < |sizes| && c !in chunks
    ensures Classified(sizes, chunks[c := k])
    ensures Used(sizes, chunks[c := k], stats[c := Item(0, 0)]) == Used(sizes, chunks, stats)
    ensures Total(Cut(sizes, chunks[c := k])) == Total(Cut(sizes, chunks)) + sizes[k]
  {
    hide Total;
    TotalAdd(Cut(sizes, chunks), c, sizes[k]);
    assert Cut(sizes, chunks[c := k]) == Cut(sizes, chunks)[c := sizes[k]];
  }

  /** A new chunk behind all others goes to the front of its free list. */
  lemma AddChunk(sizes: seq<nat>, chunks: Chunks, stats: Stats, slots: seq<seq<Addr>>, lo: Addr, c: Addr, k: nat)
    requires Classified(sizes, chunks) && Placed(sizes, chunks, lo, c) && Listed(sizes, chunks, stats, slots)
    requires Classes(sizes) && k < |sizes| && lo <= c && (sizes[k] % BLOCK_SIZE == 0 ==> c % BLOCK_SIZE == 0)
    ensures c !in chunks && Classified(sizes, chunks[c := k]) && Placed(sizes, chunks[c := k], lo, c + sizes[k])
    ensures Listed(sizes, chunks[c := k], stats[c := Item(0, 0)], slots[k := [c] + slots[k]])
    ensures Used(sizes, chunks[c := k], stats[c := Item(0, 0)]) == Used(sizes, chunks, stats)
    ensures Total(Cut(sizes, chunks[c := k])) == Total(Cut(sizes, chunks)) + sizes[k]
  {
    hide Total, Classes, Placed, Used, Cut;
    forall x | x in chunks ensures sizes[chunks[x]] > 0 { ClassPositive(sizes, chunks[x]); }
    PlacedPush(sizes, chunks, lo, c, k);
    CutPush(sizes, chunks, stats, c, k);
    ListedPush(sizes, chunks, stats, slots, c, k);
  }

  lemma ClassPositive(sizes: seq<nat>, k: nat)
    requires Classes(sizes) && k < |sizes|
    ensures sizes[k] > 0
  {
    assert Follows(Below(sizes, k), sizes[k]);
  }

  lemma ListedPush(sizes: seq<nat>, chunks: Chunks, stats: Stats, slots: seq<seq<Addr>>, c: Addr, k: nat)
    requires Classified(sizes, chunks) && Listed(sizes, chunks, stats, slots) && k < |sizes| && c !in chunks
    ensures Classified(sizes, chunks[c := k])
    ensures Listed(sizes, chunks[c := k], stats[c := Item(0, 0)], slots[k := [c] + slots[k]])
  {
    assert c !in slots[k];
  }

  /** The first free chunk of a class is allocated. */
  lemma TakeChunk(sizes: seq<nat>, chunks: Chunks, stats: Stats, slots: seq<seq<Addr>>, k: nat, size: nat)
    requires Classified(sizes, chunks) && Listed(sizes, chunks, stats, slots) && k < |sizes| && slots[k] != []
    requires Below(sizes, k) < size <= sizes[k]
    ensures slots[k][0] in chunks && chunks[slots[k][0]] == k && stats[slots[k][0]].cls == 0
    ensures Listed(sizes, chunks, stats[slots[k][0] := Item(k + 1, size)], slots[k := slots[k][1..]])
    ensures Total(Used(sizes, chunks, stats[slots[k][0] := Item(k + 1, size)])) ==
      Total(Used(sizes, chunks, stats)) + sizes[k]
  {
    hide Total;
    var c := slots[k][0];
    var stats' := stats[c := Item(k + 1, size)];
    assert c in slots[k] && c !in slots[k][1..];
    assert forall x :: x in slots[k] <==> x == c || x in slots[k][1..];
    TotalAdd(Used(sizes, chunks, stats), c, sizes[k]);
    assert Used(sizes, chunks, stats') == Used(sizes, chunks, stats)[c := sizes[k]];
  }

  /** An allocated chunk goes back to the front of its free list. */
  lemma GiveChunk(sizes: seq<nat>, chunks: Chunks, stats: Stats, slots: seq<seq<Addr>>, c: Addr)
    requires Classified(sizes, chunks) && Listed(sizes, chunks, stats, slots) && c in chunks && stats[c].cls != 0
    ensures Listed(sizes, chunks, stats[c := Item(0, 0)], slots[chunks[c] := [c] + slots[chunks[c]]])
    ensures Total(Used(sizes, chunks, stats)) == Total(Used(sizes, chunks, stats[c := Item(0, 0)])) + sizes[chunks[c]]
  {
    hide Total;
    var k := chunks[c];
    assert c !in slots[k];
    TotalRemove(Used(sizes, chunks, stats), c);
    assert Used(sizes, chunks, stats[c := Item(0, 0)]) == Used(sizes, chunks, stats) - {c};
  }

  /** How many chunks of a size a page holds. */
  function PerSlab(size: nat): nat
    requires size > 0
  {
    ITEM_SIZE_MAX / size
  }

  /** The bytes of the first `x` chunks of a page. */
  function Span(x: nat, size: nat): nat { x * size }

  lemma SpanStep(size: nat, x: nat)
    requires 0 < size && x < PerSlab(size)
    ensures Span(x + 1, size) == Span(x, size) + size <= ITEM_SIZE_MAX
  {
    MulMono(x, PerSlab(size), size);
    assert ITEM_SIZE_MAX == PerSlab(size) * size + ITEM_SIZE_MAX % size;
  }

  /** The chunks of a page lie one after the other and fill it, up to less than one more. */
  lemma PageFilled(size: nat, x: nat)
    requires size > 0
    ensures Span(x, size) == x * size && PerSlab(size) == ITEM_SIZE_MAX / size
    ensures PerSlab(size) * size <= ITEM_SIZE_MAX < PerSlab(size) * size + size
  {
  }

  lemma SpanStart(size: nat)
    requires 0 < size <= ITEM_SIZE_MAX
    ensures Span(0, size) == 0 && PerSlab(size) > 0
  {
  }

  /** The chunks that `n` pages hold. */
  function Pages(n: nat, size: nat): nat
    requires size > 0
  {
    n * PerSlab(size)
  }

  lemma PagesMore(n: nat, size: nat)
    requires size > 0
    ensures Pages(0, size) == 0 && Pages(n + 1, size) == Pages(n, size) + PerSlab(size)
  {
  }

  /** The allocated chunks of a class. */
  ghost function Taken(stats: Stats, k: nat): set<Addr> { set c | c in stats && stats[c].cls == k + 1 }

  lemma TakenUpdate(stats: Stats, p: Addr, it: Item, k: nat)
    ensures |Taken(stats[p := it], k)| == |Taken(stats, k)|
      - (if p in stats && stats[p].cls == k + 1 then 1 else 0) + (if it.cls == k + 1 then 1 else 0)
  {
    var others := Taken(stats, k) - {p};
    assert Taken(stats[p := it], k) == if it.cls == k + 1 then others + {p} else others;
    assert Taken(stats, k) == if p in stats && stats[p].cls == k + 1 then others + {p} else others;
  }

  lemma TakenSame(stats: Stats, stats': Stats, k: nat)
    requires forall c | c in stats :: c in stats' && stats'[c] == stats[c]
    requires forall c | c in stats' && c !in stats :: stats'[c].cls == 0
    ensures Taken(stats', k) == Taken(stats, k)
  {
  }

  /** Every chunk of every page is free or allocated. */
  ghost predicate Counted(sizes: seq<nat>, slCurr: seq<nat>, slabs: seq<nat>, stats: Stats) {
    |slCurr| == |slabs| == |sizes| && forall k | 0 <= k < |sizes| :: CountedAt(sizes, slCurr, slabs, stats, k)
  }

  ghost predicate CountedAt(sizes: seq<nat>, slCurr: seq<nat>, slabs: seq<nat>, stats: Stats, k: nat)
    requires k < |slCurr| == |slabs| == |sizes|
  {
    sizes[k] > 0 && slCurr[k] + |Taken(stats, k)| == Pages(slabs[k], sizes[k])
  }

  lemma CountPage(sizes: seq<nat>, slCurr: seq<nat>, slabs: seq<nat>, stats: Stats, stats': Stats, k: nat)
    requires Counted(sizes, slCurr, slabs, stats) && k < |sizes| && sizes[k] > 0
    requires forall c | c in stats :: c in stats' && stats'[c] == stats[c]
    requires forall c | c in stats' && c !in stats :: stats'[c].cls == 0
    ensures Counted(sizes, slCurr[k := slCurr[k] + PerSlab(sizes[k])], slabs[k := slabs[k] + 1], stats')
  {
    hide Pages, PerSlab, Taken;
    PagesMore(slabs[k], sizes[k]);
    var slCurr', slabs' := slCurr[k := slCurr[k] + PerSlab(sizes[k])], slabs[k := slabs[k] + 1];
    forall j | 0 <= j < |sizes| ensures CountedAt(sizes, slCurr', slabs', stats', j) {
      assert CountedAt(sizes, slCurr, slabs, stats, j);
      TakenSame(stats, stats', j);
    }
  }

  lemma CountTake(sizes: seq<nat>, slCurr: seq<nat>, slabs: seq<nat>, stats: Stats, p: Addr, k: nat, size: nat)
    requires Counted(sizes, slCurr, slabs, stats) && k < |sizes| && slCurr[k] > 0 && p in stats && stats[p].cls == 0
    ensures Counted(sizes, slCurr[k := slCurr[k] - 1], slabs, stats[p := Item(k + 1, size)])
  {
    hide Pages, Taken;
    var slCurr', stats' := slCurr[k := slCurr[k] - 1], stats[p := Item(k + 1, size)];
    forall j | 0 <= j < |sizes| ensures CountedAt(sizes, slCurr', slabs, stats', j) {
      assert CountedAt(sizes, slCurr, slabs, stats, j);
      TakenUpdate(stats, p, Item(k + 1, size), j);
    }
  }

  lemma CountGive(sizes: seq<nat>, slCurr: seq<nat>, slabs: seq<nat>, stats: Stats, p: Addr, k: nat)
    requires Counted(sizes, slCurr, slabs, stats) && k < |sizes| && p in stats && stats[p].cls == k + 1
    ensures Counted(sizes, slCurr[k := slCurr[k] + 1], slabs, stats[p := Item(0, 0)])
  {
    hide Pages, Taken;
    var slCurr', stats' := slCurr[k := slCurr[k] + 1], stats[p := Item(0, 0)];
    forall j | 0 <= j < |sizes| ensures CountedAt(sizes, slCurr', slabs, stats', j) {
      assert CountedAt(sizes, slCurr, slabs, stats, j);
      TakenUpdate(stats, p, Item(0, 0), j);
    }
  }

  lemma CountForget(sizes: seq<nat>, slCurr: seq<nat>, slabs: seq<nat>, stats: Stats, p: Addr)
    requires Counted(sizes, slCurr, slabs, stats) && p in stats && stats[p].cls == 0
    ensures Counted(sizes, slCurr, slabs, stats[p := Item(0, 0)])
  {
    hide Pages, Taken;
    var stats' := stats[p := Item(0, 0)];
    forall j | 0 <= j < |sizes| ensures CountedAt(sizes, slCurr, slabs, stats', j) {
      assert CountedAt(sizes, slCurr, slabs, stats, j);
      TakenUpdate(stats, p, Item(0, 0), j);
    }
  }

  lemma NothingCounted(sizes: seq<nat>)
    requires Classes(sizes)
    ensures Counted(sizes, seq(|sizes|, _ => 0), seq(|sizes|, _ => 0), map[])
  {
    hide Classes;
    var none: seq<nat>, stats: Stats := seq(|sizes|, _ => 0), map[];
    forall k | 0 <= k < |sizes| ensures CountedAt(sizes, none, none, stats, k) {
      ClassPositive(sizes, k);
      assert Taken(stats, k) == {};
    }
  }

  lemma AlignUpMultiple(size: nat)
    ensures AlignUp(size, BLOCK_SIZE) % BLOCK_SIZE == 0 && (size == 0 <==> AlignUp(size, BLOCK_SIZE) == 0)
    ensures size <= AlignUp(size, BLOCK_SIZE) && (size <= ITEM_SIZE_MAX ==> AlignUp(size, BLOCK_SIZE) <= ITEM_SIZE_MAX)
  {
  }

  lemma AlignedSum(a: nat, b: nat)
    requires a % BLOCK_SIZE == 0 && b % BLOCK_SIZE == 0
    ensures (a + b) % BLOCK_SIZE == 0
  {
  }

  /** The first `n` numbers are one larger than before. */
  ghost predicate Raised(a: seq<nat>, b: seq<nat>, n: nat) {
    |a| == |b| && forall k | 0 <= k < |a| :: b[k] == a[k] + if k < n then 1 else 0
  }

  lemma RaisedNone(a: seq<nat>)
    ensures Raised(a, a, 0)
  {
  }

  lemma RaisedNext(a: seq<nat>, b: seq<nat>, n: nat)
    requires Raised(a, b, n) && n < |b|
    ensures Raised(a, b[n := b[n] + 1], n + 1)
  {
  }

  class SlabAllocator {
    const sizes: seq<nat>          // the class table
    const base: Addr
    const limit: nat
    var memCurrent: Addr
    var memAvail: nat
    var memMalloced: nat
    var memFree: nat
    var slots: seq<seq<Addr>>      // the free list of every class
    var slCurr: seq<nat>
    var slabs: seq<nat>
    var stats: Stats
    ghost var chunks: Chunks

    /** The chunks up to `hi`, their lists and their bytes. */
    ghost predicate Consistent(hi: Addr)
      reads this
    {
      && Classes(sizes) && sizes != [] && Last(sizes) == ITEM_SIZE_MAX && base % BLOCK_SIZE == 0
      && Classified(sizes, chunks) && Placed(sizes, chunks, base, hi) && Listed(sizes, chunks, stats, slots)
      && |slCurr| == |slabs| == |sizes| && (forall k | 0 <= k < |sizes| :: slCurr[k] == |slots[k]|)
      && memFree + Total(Used(sizes, chunks, stats)) == limit
      && base <= hi && Total(Cut(sizes, chunks)) <= hi - base
    }

    ghost predicate Arena()
      reads this
    {
      base <= memCurrent && memCurrent - base + memAvail == limit && memCurrent % BLOCK_SIZE == 0
    }

    ghost predicate Valid()
      reads this
    {
      Arena() && Consistent(memCurrent) && memMalloced == memCurrent - base && Counted(sizes, slCurr, slabs, stats)
    }

    /** An arena of `limit` bytes at a block boundary, with nothing cut yet. */
    constructor (base: Addr, limit: nat, sizes: seq<nat>)
      requires base % BLOCK_SIZE == 0 && Classes(sizes) && sizes != [] && Last(sizes) == ITEM_SIZE_MAX
      ensures Valid() && this.base == base && this.limit == limit && this.sizes == sizes && stats == map[]
      ensures memFree == limit
    {
      this.base, this.limit, this.sizes := base, limit, sizes;
      memCurrent, memAvail, memMalloced, memFree := base, limit, 0, limit;
      slots, slCurr, slabs := seq(|sizes|, _ => []), seq(|sizes|, _ => 0), seq(|sizes|, _ => 0);
      stats, chunks := map[], map[];
      new;
      NothingCounted(sizes);
      assert Used(sizes, map[], map[]) == map[] && Cut(sizes, map[]) == map[];
    }

    /** slabs_preallocate: one page for every class; `ok` is false if the arena is too small. */
    method Preallocate() returns (ok: bool)
      requires Valid()
      modifies this
      ensures Valid() && memFree == old(memFree)
      ensures ok ==> forall c | c in old(stats) :: c in stats && stats[c] == old(stats)[c]
      ensures ok <==> |sizes| * ITEM_SIZE_MAX <= old(memAvail)
      ensures ok ==> Raised(old(slabs), slabs, |sizes|)
    {
      hide Consistent, CutUp, Counted, Arena, PerSlab, Raised;
      Table(memCurrent);
      RaisedNone(slabs);
      var i := POWER_SMALLEST;
      while i <= |sizes|
        invariant 1 <= i <= |sizes| + 1 && Valid() && memFree == old(memFree) && |slabs| == |sizes|
        invariant memAvail == old(memAvail) - (i - 1) * ITEM_SIZE_MAX
        invariant Raised(old(slabs), slabs, i - 1)
        invariant forall c | c in old(stats) :: c in stats && stats[c] == old(stats)[c]
      {
        RaisedNext(old(slabs), slabs, i - 1);
        var done := NewSlab(i);
        if !done { return false; }
        i := i + 1;
      }
      ok := true;
    }

    /** The start of a fresh page, if the arena has room. */
    method MemoryAllocate() returns (ret: Option<Addr>)
      requires Arena()
      modifies this`memCurrent, this`memAvail
      ensures Arena() && ret.Some? == (ITEM_SIZE_MAX <= old(memAvail))
      ensures ret.None? ==> memCurrent == old(memCurrent) && memAvail == old(memAvail)
      ensures ret.Some? ==> ret.value == old(memCurrent) && memCurrent == old(memCurrent) + ITEM_SIZE_MAX
      ensures ret.Some? ==> memAvail == old(memAvail) - ITEM_SIZE_MAX
    {
      if ITEM_SIZE_MAX > memAvail { return None; }
      ret := Some(memCurrent);
      memCurrent := memCurrent + ITEM_SIZE_MAX;
      memAvail := memAvail - ITEM_SIZE_MAX;
    }

    /** do_slabs_free: put a chunk at the front of a free list. A class out of range breaks
        an assertion, which `ok` reports; without assertions the call is ignored. */
    method DoSlabsFree(ptr: Addr, size: nat, id: nat) returns (ok: bool)
      requires |slCurr| == |slots| == |sizes|
      modifies this`stats, this`slots, this`slCurr, this`memFree
      ensures ok <==> 0 < id <= |sizes|
      ensures !ok ==> unchanged(this)
      ensures ok ==>
        && stats == (if ptr in old(stats) then old(stats) else old(stats)[ptr := Item(0, 0)])
        && slots == old(slots)[id - 1 := [ptr] + old(slots)[id - 1]]
        && slCurr == old(slCurr)[id - 1 := old(slCurr)[id - 1] + 1]
        && memFree == old(memFree) + if size != 0 then sizes[id - 1] else 0
    {
      ok := POWER_SMALLEST <= id <= |sizes|;
      if !ok { return; }
      if ptr !in stats { stats := stats[ptr := Item(0, 0)]; }
      slots := slots[id - 1 := [ptr] + slots[id - 1]];
      slCurr := slCurr[id - 1 := slCurr[id - 1] + 1];
      if size != 0 { memFree := memFree + sizes[id - 1]; }
    }

    lemma Table(hi: Addr)
      requires Consistent(hi)
      ensures Classes(sizes) && sizes != [] && Last(sizes) == ITEM_SIZE_MAX && |slCurr| == |slabs| == |slots| == |sizes|
    {
    }

    lemma Wider(hi: Addr, hi': Addr)
      requires Consistent(hi) && hi <= hi'
      ensures Consistent(hi')
    {
    }

    /** One more chunk at `ptr`, behind all others. */
    method CutChunk(ptr: Addr, id: nat)
      requires Consistent(ptr) && 0 < id <= |sizes| && (sizes[id - 1] % BLOCK_SIZE == 0 ==> ptr % BLOCK_SIZE == 0)
      modifies this`stats, this`slots, this`slCurr, this`memFree, this`chunks
      ensures Consistent(ptr + sizes[id - 1]) && memFree == old(memFree) && |old(slCurr)| == |sizes|
      ensures slCurr == old(slCurr)[id - 1 := old(slCurr)[id - 1] + 1] && stats == old(stats)[ptr := Item(0, 0)]
      ensures ptr !in old(stats) && chunks == old(chunks)[ptr := id - 1] && stats.Keys == chunks.Keys
    {
      hide Classes, Placed, Used, Cut, Total, Last;
      AddChunk(sizes, chunks, stats, slots, base, ptr, id - 1);
      var freed := DoSlabsFree(ptr, 0, id);
      chunks := chunks[ptr := id - 1];
    }

    /** Cut a page into chunks of class `id`, as many as it holds. */
    method SplitSlab(page: Addr, id: nat)
      requires Consistent(page) && 0 < id <= |sizes| && page % BLOCK_SIZE == 0
      modifies this`stats, this`slots, this`slCurr, this`memFree, this`chunks
      ensures Consistent(page + ITEM_SIZE_MAX) && memFree == old(memFree)
      ensures sizes[id - 1] > 0 && |old(slCurr)| == |sizes|
      ensures slCurr == old(slCurr)[id - 1 := old(slCurr)[id - 1] + PerSlab(sizes[id - 1])]
      ensures CutUp(page, sizes[id - 1], PerSlab(sizes[id - 1]), id - 1)
      ensures forall c | c in old(stats) :: c in stats && stats[c] == old(stats)[c]
      ensures forall c | c in stats && c !in old(stats) :: stats[c] == Item(0, 0)
    {
      hide Consistent, Span, PerSlab, Last, Classes;
      Table(page);
      var size := sizes[id - 1];
      ClassPositive(sizes, id - 1);
      LastIsLargest(sizes, id - 1);
      SpanStart(size);
      var ptr, x := page, 0;
      while x < PerSlab(size)
        invariant x <= PerSlab(size) && ptr == page + Span(x, size) <= page + ITEM_SIZE_MAX
        invariant Consistent(ptr) && memFree == old(memFree) && |slCurr| == |sizes|
        invariant slCurr == old(slCurr)[id - 1 := old(slCurr)[id - 1] + x]
        invariant CutUp(page, size, x, id - 1)
        invariant size % BLOCK_SIZE == 0 ==> ptr % BLOCK_SIZE == 0
        invariant forall c | c in old(stats) :: c in stats && stats[c] == old(stats)[c]
        invariant forall c | c in stats && c !in old(stats) :: stats[c] == Item(0, 0)
      {
        CutChunk(ptr, id);
        SpanStep(size, x);
        if size % BLOCK_SIZE == 0 { AlignedSum(ptr, size); }
        ptr := ptr + size;
        x := x + 1;
      }
      Wider(ptr, page + ITEM_SIZE_MAX);
    }

    /** The first `n` chunks of a page are free chunks of class `k`. */
    ghost predicate CutUp(page: Addr, size: nat, n: nat, k: nat)
      reads this
    {
      forall x | 0 <= x < n :: IsFree(page + Span(x, size), k)
    }

    /** A free chunk of class `k`. */
    ghost predicate IsFree(c: Addr, k: nat)
      reads this
    {
      c in chunks && chunks[c] == k && c in stats && stats[c] == Item(0, 0)
    }

    /** A new page for a class. */
    method NewSlab(id: nat) returns (ok: bool)
      requires Valid() && 0 < id <= |sizes|
      modifies this
      ensures Valid() && memFree == old(memFree) && ok == (ITEM_SIZE_MAX <= old(memAvail))
      ensures memAvail == old(memAvail) - if ok then ITEM_SIZE_MAX else 0
      ensures ok ==>
        && slabs == old(slabs)[id - 1 := old(slabs)[id - 1] + 1] && sizes[id - 1] > 0
        && CutUp(old(memCurrent), sizes[id - 1], PerSlab(sizes[id - 1]), id - 1)
        && slCurr == old(slCurr)[id - 1 := old(slCurr)[id - 1] + PerSlab(sizes[id - 1])] && slCurr[id - 1] > 0
      ensures !ok ==> stats == old(stats) && slots == old(slots) && slCurr == old(slCurr) && slabs == old(slabs)
      ensures forall c | c in old(stats) :: c in stats && stats[c] == old(stats)[c]
    {
      hide Classes, Placed, Listed, Used, Cut, Total, Last, Counted, PerSlab;
      if limit != 0 && memMalloced + ITEM_SIZE_MAX > limit && slabs[id - 1] > 0 { return false; }
      var page := MemoryAllocate();
      if page.None? { return false; }
      SplitSlab(page.value, id);
      CountSlab(id);
      memMalloced := memMalloced + ITEM_SIZE_MAX;
      LastIsLargest(sizes, id - 1);
      SpanStart(sizes[id - 1]);
      CountPage(sizes, old(slCurr), old(slabs), old(stats), stats, id - 1);
      ok := true;
    }

    method CountSlab(id: nat)
      requires Consistent(memCurrent) && 0 < id <= |sizes|
      modifies this`slabs
      ensures Consistent(memCurrent) && |old(slabs)| == |sizes| && slabs == old(slabs)[id - 1 := old(slabs)[id - 1] + 1]
    {
      hide Classes, Placed, Listed, Used, Cut, Total, Last;
      slabs := slabs[id - 1 := slabs[id - 1] + 1];
    }

    /** Allocate the first free chunk of a class. */
    method TakeFirst(size: nat, id: nat) returns (p: Addr)
      requires Valid() && 0 < id <= |sizes| && Below(sizes, id - 1) < size <= sizes[id - 1] && slCurr[id - 1] > 0
      modifies this
      ensures Valid() && chunks == old(chunks)
      ensures p in chunks && chunks[p] == id - 1 && old(stats[p]).cls == 0
      ensures stats == old(stats)[p := Item(id, size)] && memFree == old(memFree) - sizes[id - 1]
    {
      hide Classes, Placed, Total, Last, Used, Cut, Counted;
      TakeChunk(sizes, chunks, stats, slots, id - 1, size);
      CountTake(sizes, slCurr, slabs, stats, slots[id - 1][0], id - 1, size);
      p := slots[id - 1][0];
      slots := slots[id - 1 := slots[id - 1][1..]];
      stats := stats[p := Item(id, size)];
      slCurr := slCurr[id - 1 := slCurr[id - 1] - 1];
      UsedIsPart(sizes, chunks, stats);
      memFree := memFree - sizes[id - 1];
    }

    /** do_slabs_alloc */
    method DoSlabsAlloc(size: nat, id: nat) returns (ret: Option<Addr>)
      requires Valid() && (0 < id <= |sizes| ==> Below(sizes, id - 1) < size <= sizes[id - 1])
      modifies this
      ensures Valid()
      ensures ret.Some? <==> 0 < id <= |sizes| && (old(slCurr)[id - 1] > 0 || ITEM_SIZE_MAX <= old(memAvail))
      ensures ret.None? ==> stats == old(stats) && memFree == old(memFree)
      ensures ret.Some? ==> Gave(ret.value, size, id)
    {
      hide Consistent, Classes, Placed, Total, Last, Counted;
      Table(memCurrent);
      if id < POWER_SMALLEST || id > |sizes| { return None; }
      if slCurr[id - 1] == 0 {
        var ok := NewSlab(id);
        if !ok { return None; }
      }
      Table(memCurrent);
      var p := TakeFirst(size, id);
      ret := Some(p);
    }

    /** Chunk `p` of class `id` has been allocated and no other chunk has changed hands. */
    twostate predicate Gave(p: Addr, size: nat, id: nat)
      reads this
    {
      && 0 < id <= |sizes| && p in chunks && chunks[p] == id - 1 && memFree == old(memFree) - sizes[id - 1]
      && (p in old(stats) ==> old(stats)[p].cls == 0)
      && p in stats && stats[p] == Item(id, size)
      && (forall c | c in old(stats) && c != p :: c in stats && stats[c] == old(stats)[c])
    }

    /** The pages of a class hold more chunks than are allocated, or there is room for
        another page. */
    ghost predicate CanServe(k: nat)
      requires k < |sizes| == |slabs| && sizes[k] > 0
      reads this
    {
      |Taken(stats, k)| < slabs[k] * PerSlab(sizes[k]) || ITEM_SIZE_MAX <= memAvail
    }

    lemma Serves(k: nat)
      requires Valid() && k < |sizes|
      ensures sizes[k] > 0 && |slabs| == |slCurr| == |sizes|
      ensures CanServe(k) <==> slCurr[k] > 0 || ITEM_SIZE_MAX <= memAvail
    {
      hide Consistent, Taken;
      assert CountedAt(sizes, slCurr, slabs, stats, k);
    }

    /** sb_malloc: some chunk of the first class that fits. */
    method SbMalloc(size: nat) returns (ret: Option<Addr>)
      requires Valid()
      modifies this
      ensures Valid()
      ensures ret.None? ==> stats == old(stats) && memFree == old(memFree)
      ensures ret.Some? ==> ret.value in stats && 0 < stats[ret.value].cls <= |sizes|
      ensures ret.Some? ==>
        var id := stats[ret.value].cls; Gave(ret.value, size, id) && Below(sizes, id - 1) < size <= sizes[id - 1]
      ensures size == 0 || size > ITEM_SIZE_MAX ==> ret.None?
      ensures 0 < size <= ITEM_SIZE_MAX <= old(memAvail) ==> ret.Some?
      ensures forall k | 0 <= k < |sizes| && Below(sizes, k) < size <= sizes[k] :: ret.Some? <==> old(CanServe(k))
    {
      hide Consistent, Classes, Counted, CanServe;
      Table(memCurrent);
      var id := FindClass(sizes, size);
      forall k | 0 <= k < |sizes| && Below(sizes, k) < size <= sizes[k]
        ensures k + 1 == id && (CanServe(k) <==> slCurr[k] > 0 || ITEM_SIZE_MAX <= memAvail)
      {
        LastIsLargest(sizes, k);
        OneClass(sizes, size, k, id - 1);
        Serves(k);
      }
      ret := DoSlabsAlloc(size, id);
    }

    /** sb_aligned_malloc: whole blocks, on a block boundary. */
    method SbAlignedMalloc(size: nat) returns (ret: Option<Addr>)
      requires Valid()
      modifies this
      ensures Valid()
      ensures ret.None? ==> stats == old(stats) && memFree == old(memFree)
      ensures ret.Some? ==> ret.value % BLOCK_SIZE == 0 && ret.value in stats && 0 < stats[ret.value].cls <= |sizes|
      ensures ret.Some? ==> var id := stats[ret.value].cls;
        Gave(ret.value, AlignUp(size, BLOCK_SIZE), id) && size <= sizes[id - 1] && sizes[id - 1] % BLOCK_SIZE == 0
      ensures 0 < size <= ITEM_SIZE_MAX <= old(memAvail) ==> ret.Some?
      ensures forall k | 0 <= k < |sizes| && Below(sizes, k) < AlignUp(size, BLOCK_SIZE) <= sizes[k] ::
        ret.Some? <==> old(CanServe(k))
    {
      hide Consistent, Classes, Counted, CanServe;
      Table(memCurrent);
      var newsize := AlignUp(size, BLOCK_SIZE);
      AlignUpMultiple(size);
      var id := FindClass(sizes, newsize);
      forall k | 0 <= k < |sizes| && Below(sizes, k) < newsize <= sizes[k]
        ensures k + 1 == id && (CanServe(k) <==> slCurr[k] > 0 || ITEM_SIZE_MAX <= memAvail)
      {
        LastIsLargest(sizes, k);
        OneClass(sizes, newsize, k, id - 1);
        Serves(k);
      }
      ret := DoSlabsAlloc(newsize, id);
      if ret.Some? {
        AlignedClass(sizes, id - 1, newsize);
        OnBoundary(ret.value);
      }
    }

    lemma OnBoundary(c: Addr)
      requires Valid() && c in chunks && chunks[c] < |sizes| && sizes[chunks[c]] % BLOCK_SIZE == 0
      ensures c % BLOCK_SIZE == 0
    {
    }

    /** sb_free: the chunk goes back to its class. Freeing a free chunk breaks an assertion,
        which `ok` reports; without assertions it changes nothing. */
    method SbFree(ptr: Addr) returns (size: nat, ok: bool)
      requires Valid() && ptr in stats
      modifies this
      ensures Valid() && chunks == old(chunks) && size == old(stats)[ptr].size
      ensures stats == old(stats)[ptr := Item(0, 0)]
      ensures memFree == old(memFree) + if old(stats)[ptr].cls != 0 then sizes[chunks[ptr]] else 0
      ensures ok <==> old(stats)[ptr].cls != 0
      ensures !ok ==> slots == old(slots)
    {
      hide Classes, Placed, Used, Cut, Total, Last;
      var it := stats[ptr];
      if it.cls != 0 {
        ok := GiveBack(ptr);
      } else {
        ForgetSize(ptr);
        ok := DoSlabsFree(ptr, it.size, it.cls);
      }
      size := it.size;
    }

    method GiveBack(ptr: Addr) returns (ok: bool)
      requires Valid() && ptr in stats && stats[ptr].cls != 0
      modifies this
      ensures ok && Valid() && chunks == old(chunks) && stats == old(stats)[ptr := Item(0, 0)]
      ensures memFree == old(memFree) + sizes[chunks[ptr]]
    {
      hide Classes, Placed, Total, Last, Counted;
      var it := stats[ptr];
      GiveChunk(sizes, chunks, stats, slots, ptr);
      assert Fits(sizes, chunks[ptr], it);
      CountGive(sizes, slCurr, slabs, stats, ptr, it.cls - 1);
      stats := stats[ptr := Item(0, 0)];
      ok := DoSlabsFree(ptr, it.size, it.cls);
    }

    method ForgetSize(ptr: Addr)
      requires Valid() && ptr in stats && stats[ptr].cls == 0
      modifies this`stats
      ensures Valid() && stats == old(stats)[ptr := Item(0, 0)]
    {
      hide Classes, Placed, Total, Last, Counted;
      CountForget(sizes, slCurr, slabs, stats, ptr);
      stats := stats[ptr := Item(0, 0)];
      assert Used(sizes, chunks, stats) == Used(sizes, chunks, old(stats));
    }
  }
}
