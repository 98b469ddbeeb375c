/**
 The size classes of the slab allocator. Class `i` of the source is entry `i - 1` here.
 */
module SlabClasses {
  import opened Basics

  const ITEM_SIZE_MAX: nat := 524288
  const CHUNK_SIZE: nat := 48
  const CHUNK_ALIGN_BYTES: nat := 8
  const POWER_SMALLEST: nat := 1
  const POWER_LARGEST: nat := 200

  /** The size before class `k`. */
  function Below(sizes: seq<nat>, k: nat): nat
    requires k < |sizes|
  {
    if k == 0 then 0 else sizes[k-1]
  }

  /** A class of `hi` bytes may follow one of `lo` bytes: it is larger, 8-byte aligned,
      and no block boundary lies between them unless it is on one itself. */
  predicate Follows(lo: nat, hi: nat) {
    lo < hi && hi % CHUNK_ALIGN_BYTES == 0 && (hi % BLOCK_SIZE == 0 || hi / BLOCK_SIZE == lo / BLOCK_SIZE)
  }

  ghost predicate Classes(sizes: seq<nat>) {
    forall k | 0 <= k < |sizes| :: Follows(Below(sizes, k), sizes[k])
  }

  function Last(sizes: seq<nat>): nat { if sizes == [] then 0 else sizes[|sizes| - 1] }

  function AlignUp(size: nat, n: nat): nat
    requires n > 0
  {
    if size % n != 0 then size + (n - size % n) else size
  }

  /** The size after a class, before alignment: times 1.25, rounded down. */
  function Next(size: nat): nat { size * 5 / 4 }

  /** How many more rounds the table loop makes from `size`. */
  ghost function Rounds(size: nat): nat
    requires size >= CHUNK_SIZE
    decreases ITEM_SIZE_MAX - size
  {
    if size * 5 <= ITEM_SIZE_MAX * 4 then 1 + Rounds(Next(AlignUp(size, CHUNK_ALIGN_BYTES))) else 0
  }

  lemma AppendClass(sizes: seq<nat>, size: nat)
    requires Classes(sizes) && Follows(Last(sizes), size)
    ensures Classes(sizes + [size])
  {
    hide Follows;
    var sizes' := sizes + [size];
    forall k | 0 <= k < |sizes'| ensures Follows(Below(sizes', k), sizes'[k]) {
      if k < |sizes| { assert Below(sizes', k) == Below(sizes, k); }
    }
  }

  /** One round of the table loop: the next size, and before it the last multiple of
      the block size if one was passed. */
  lemma RoundFollows(pre: nat, size: nat)
    requires pre < size && size % CHUNK_ALIGN_BYTES == 0
    ensures pre / BLOCK_SIZE < size / BLOCK_SIZE && size % BLOCK_SIZE != 0 ==>
      Follows(pre, size / BLOCK_SIZE * BLOCK_SIZE) && Follows(size / BLOCK_SIZE * BLOCK_SIZE, size)
    ensures !(pre / BLOCK_SIZE < size / BLOCK_SIZE && size % BLOCK_SIZE != 0) ==> Follows(pre, size)
  {
    var q := size / BLOCK_SIZE;
    assert q * BLOCK_SIZE <= size < q * BLOCK_SIZE + BLOCK_SIZE;
    assert q * BLOCK_SIZE % BLOCK_SIZE == 0 && q * BLOCK_SIZE / BLOCK_SIZE == q;
    assert q * BLOCK_SIZE == (q * 512) * CHUNK_ALIGN_BYTES;
  }

  lemma NextGrows(size: nat)
    requires size >= CHUNK_SIZE
    ensures size <= AlignUp(size, CHUNK_ALIGN_BYTES) < size + 8
    ensures AlignUp(size, CHUNK_ALIGN_BYTES) % CHUNK_ALIGN_BYTES == 0
    ensures Next(size) > size
  {
  }

  lemma AlignMono(s: nat, t: nat)
    requires s <= t
    ensures AlignUp(s, CHUNK_ALIGN_BYTES) <= AlignUp(t, CHUNK_ALIGN_BYTES)
  {
    var a, b := AlignUp(s, CHUNK_ALIGN_BYTES) / 8, AlignUp(t, CHUNK_ALIGN_BYTES) / 8;
    assert AlignUp(s, CHUNK_ALIGN_BYTES) == 8 * a < s + 8 && t <= AlignUp(t, CHUNK_ALIGN_BYTES) == 8 * b;
  }

  lemma GrowMono(s: nat, t: nat)
    requires s <= t
    ensures Next(s) <= Next(t)
  {
  }

  lemma NextMono(s: nat, t: nat)
    requires s <= t
    ensures Next(AlignUp(s, CHUNK_ALIGN_BYTES)) <= Next(AlignUp(t, CHUNK_ALIGN_BYTES))
  {
    hide Next, AlignUp;
    AlignMono(s, t);
    GrowMono(AlignUp(s, CHUNK_ALIGN_BYTES), AlignUp(t, CHUNK_ALIGN_BYTES));
  }

  lemma {:induction false} RoundsMono(s: nat, t: nat)
    requires CHUNK_SIZE <= s <= t
    ensures Rounds(t) <= Rounds(s)
    decreases ITEM_SIZE_MAX - s
  {
    if t * 5 <= ITEM_SIZE_MAX * 4 {
      hide Next, AlignUp;
      NextMono(s, t);
      NextGrows(s);
      NextGrows(AlignUp(s, CHUNK_ALIGN_BYTES));
      RoundsMono(Next(AlignUp(s, CHUNK_ALIGN_BYTES)), Next(AlignUp(t, CHUNK_ALIGN_BYTES)));
    }
  }

  function Step(s: nat): nat { Next(AlignUp(s, CHUNK_ALIGN_BYTES)) }

  lemma RoundsStep(s: nat)
    requires CHUNK_SIZE <= s
    ensures Step(s) > s && 4 * Step(s) >= 5 * s - 3 && Rounds(s) <= 1 + Rounds(Step(s))
  {
  }

  /** Four rounds at least double the size. */
  lemma RoundsDouble(s: nat)
    requires CHUNK_SIZE <= s
    ensures Rounds(s) <= 4 + Rounds(2 * s)
  {
    hide Step, Rounds;
    var s1, s2, s3 := Step(s), Step(Step(s)), Step(Step(Step(s)));
    RoundsStep(s);
    RoundsStep(s1);
    RoundsStep(s2);
    RoundsStep(s3);
    RoundsMono(2 * s, Step(s3));
  }

  function Pow2(k: nat): nat { if k == 0 then 1 else 2 * Pow2(k - 1) }

  lemma {:induction false} RoundsLog(s: nat, k: nat)
    requires CHUNK_SIZE <= s && s * Pow2(k) * 5 > ITEM_SIZE_MAX * 4
    ensures Rounds(s) <= 4 * k
    decreases k
  {
    if k > 0 {
      assert 2 * s * Pow2(k - 1) == s * Pow2(k);
      RoundsLog(2 * s, k - 1);
      RoundsDouble(s);
    }
  }

  lemma RoundsCount()
    ensures Rounds(CHUNK_SIZE) <= 56
  {
    assert Pow2(14) == 16384;
    RoundsLog(CHUNK_SIZE, 14);
  }

  /** The first class is the smallest chunk, and every other one is at most 1.25 times as
      large as the one before, rounded up to the alignment. */
  ghost predicate Dense(sizes: seq<nat>) {
    (sizes != [] ==> sizes[0] == CHUNK_SIZE) && forall k | 1 <= k < |sizes| :: CloseTo(sizes[k-1], sizes[k])
  }

  predicate CloseTo(lo: nat, hi: nat) { 4 * hi < 5 * lo + 4 * CHUNK_ALIGN_BYTES }

  lemma NextIsClose(lo: nat)
    ensures CloseTo(lo, AlignUp(Next(lo), CHUNK_ALIGN_BYTES)) && 4 * Next(lo) <= 5 * lo
  {
  }

  lemma AppendDense(sizes: seq<nat>, size: nat)
    requires Dense(sizes) && (if sizes == [] then size == CHUNK_SIZE else CloseTo(Last(sizes), size))
    ensures Dense(sizes + [size])
  {
    hide CloseTo;
  }

  /** A class between two others may be added. */
  lemma DenseBetween(lo: nat, mid: nat, hi: nat)
    requires CloseTo(lo, hi) && lo <= mid <= hi
    ensures CloseTo(lo, mid) && CloseTo(mid, hi)
  {
  }

  lemma RoundDown(size: nat)
    ensures size / BLOCK_SIZE * BLOCK_SIZE <= size
  {
  }

  lemma FirstAligned()
    ensures AlignUp(CHUNK_SIZE, CHUNK_ALIGN_BYTES) == CHUNK_SIZE && CHUNK_SIZE / BLOCK_SIZE == 0 && Dense([])
  {
  }

  /** slabs_init: the class table for factor 1.25. */
  method BuildTable() returns (sizes: seq<nat>)
    ensures Classes(sizes) && 1 < |sizes| <= POWER_LARGEST && Last(sizes) == ITEM_SIZE_MAX
    ensures Dense(sizes[..|sizes| - 1]) && 25 * sizes[|sizes| - 2] > 16 * ITEM_SIZE_MAX
  {
    hide Follows, Classes, AlignUp, Next, Dense;
    var size, pre := CHUNK_SIZE, CHUNK_SIZE;
    sizes := [];
    RoundsCount();
    NoClasses();
    FirstAligned();
    while |sizes| + 1 < POWER_LARGEST && size * 5 <= ITEM_SIZE_MAX * 4
      invariant Classes(sizes) && CHUNK_SIZE <= size && Last(sizes) < size && Last(sizes) < ITEM_SIZE_MAX - 8
      invariant if sizes == [] then pre == size == CHUNK_SIZE else pre == Last(sizes)
      invariant |sizes| + 2 * Rounds(size) <= 2 * 56
      invariant Dense(sizes) && (sizes != [] ==> size == Next(Last(sizes)))
      decreases Rounds(size)
    {
      NextGrows(size);
      size := AlignUp(size, CHUNK_ALIGN_BYTES);
      RoundFollows(Last(sizes), size);
      NextIsClose(Last(sizes));
      if pre / BLOCK_SIZE < size / BLOCK_SIZE && size % BLOCK_SIZE != 0 {
        RoundDown(size);
        FollowsIsLarger(Last(sizes), size / BLOCK_SIZE * BLOCK_SIZE);
        DenseBetween(Last(sizes), size / BLOCK_SIZE * BLOCK_SIZE, size);
        AppendClass(sizes, size / BLOCK_SIZE * BLOCK_SIZE);
        AppendDense(sizes, size / BLOCK_SIZE * BLOCK_SIZE);
        sizes := sizes + [size / BLOCK_SIZE * BLOCK_SIZE];
      }
      AppendClass(sizes, size);
      AppendDense(sizes, size);
      sizes := sizes + [size];
      pre := size;
      NextGrows(size);
      size := Next(size);
    }
    NextIsClose(Last(sizes));
    LastFollows(Last(sizes));
    AppendClass(sizes, ITEM_SIZE_MAX);
    ghost var before := sizes;
    sizes := sizes + [ITEM_SIZE_MAX];
    assert sizes[..|sizes| - 1] == before;
  }

  lemma NoClasses()
    ensures Classes([])
  {
  }

  lemma LastFollows(pre: nat)
    requires pre < ITEM_SIZE_MAX
    ensures Follows(pre, ITEM_SIZE_MAX)
  {
  }

  /** slabs_clsid: the first class that holds `size` bytes, 0 if there is none. */
  method FindClass(sizes: seq<nat>, size: nat) returns (id: nat)
    requires Classes(sizes) && sizes != []
    ensures id == 0 <==> size == 0 || size > Last(sizes)
    ensures id > 0 ==> id <= |sizes| && Below(sizes, id - 1) < size <= sizes[id - 1]
  {
    hide Follows, Classes;
    if size == 0 { return 0; }
    var res := POWER_SMALLEST;
    while size > sizes[res - 1]
      invariant 1 <= res <= |sizes| && Below(sizes, res - 1) < size
      decreases |sizes| - res
    {
      if res == |sizes| { return 0; }
      res := res + 1;
    }
    id := res;
    LastIsLargest(sizes, id - 1);
  }

  lemma {:induction false} LastIsLargest(sizes: seq<nat>, k: nat)
    requires Classes(sizes) && k < |sizes|
    ensures sizes[k] <= Last(sizes)
    decreases |sizes| - k
  {
    hide Follows;
    if k + 1 < |sizes| {
      assert Follows(Below(sizes, k + 1), sizes[k+1]);
      FollowsIsLarger(Below(sizes, k + 1), sizes[k+1]);
      LastIsLargest(sizes, k + 1);
    }
  }

  lemma {:induction false} Rising(sizes: seq<nat>, j: nat, k: nat)
    requires Classes(sizes) && j < k < |sizes|
    ensures sizes[j] <= Below(sizes, k)
    decreases k
  {
    hide Follows;
    if j < k - 1 {
      Rising(sizes, j, k - 1);
      assert Follows(Below(sizes, k - 1), sizes[k - 1]);
      FollowsIsLarger(Below(sizes, k - 1), sizes[k - 1]);
    }
  }

  /** A size belongs to one class. */
  lemma OneClass(sizes: seq<nat>, size: nat, j: nat, k: nat)
    requires Classes(sizes) && j < |sizes| && k < |sizes|
    requires Below(sizes, j) < size <= sizes[j] && Below(sizes, k) < size <= sizes[k]
    ensures j == k
  {
    if j < k { Rising(sizes, j, k); }
    if k < j { Rising(sizes, k, j); }
  }

  /** The first class that holds a multiple of the block size is one itself. */
  lemma AlignedClass(sizes: seq<nat>, k: nat, m: nat)
    requires Classes(sizes) && k < |sizes| && m % BLOCK_SIZE == 0 && Below(sizes, k) < m <= sizes[k]
    ensures sizes[k] % BLOCK_SIZE == 0
  {
    assert Follows(Below(sizes, k), sizes[k]);
    SameBlock(Below(sizes, k), m, sizes[k]);
  }

  lemma FollowsIsLarger(lo: nat, hi: nat)
    requires Follows(lo, hi)
    ensures lo < hi
  {
  }

  lemma SameBlock(lo: nat, m: nat, hi: nat)
    requires lo < m <= hi && m % BLOCK_SIZE == 0
    ensures lo / BLOCK_SIZE < hi / BLOCK_SIZE
  {
    assert m == m / BLOCK_SIZE * BLOCK_SIZE;
  }
}
