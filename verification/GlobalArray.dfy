/**
 The growable and shrinkable global array: a radix tree of buckets in global memory
 that behaves like a flat sequence.
 */
module GlobalArrays {
  import opened Basics
  import opened Radix
  import opened BucketTrees

  /** The layers of a tree over `b` leaf buckets. */
  ghost predicate Shape(g: nat, b: nat, lv: Levels)
    requires g > 1
  {
    |lv| == Depth(g, b) && forall i | 0 <= i < |lv| :: |lv[i]| == Above(g, b, |lv| - 1 - i)
  }

  /** The leaf buckets of an array of `n` items; an empty array has one, too. */
  function Need(p: nat, n: nat): nat
    requires p > 0
  {
    if n == 0 then 1 else CeilDiv(n, p)
  }

  /** Where item `k` is: its bucket and the offset in it. */
  ghost function Where(p: nat, lv: Levels, k: nat): (Addr, nat)
    requires p > 0 && |lv| > 0 && k / p < |lv[|lv| - 1]|
  {
    (lv[|lv| - 1][k / p], k % p)
  }

  lemma LeafExists(p: nat, g: nat, n: nat, lv: Levels, k: nat)
    requires p > 0 && g > 1 && n > 0 && Shape(g, CeilDiv(n, p), lv) && k < n
    ensures |lv| > 0 && k / p < |lv[|lv| - 1]| == CeilDiv(n, p)
  {
    ParentBelow(k, n, p);
  }

  /** The value of item `k`. */
  ghost function ItemAt(p: nat, m: Memory, lv: Levels, k: nat): int {
    if p > 0 && |lv| > 0 && k / p < |lv[|lv| - 1]| then
      var (a, off) := Where(p, lv, k);
      if a in m && off < |m[a].items| then m[a].items[off] else 0
    else 0
  }

  ghost function Items(p: nat, m: Memory, lv: Levels, n: nat): seq<int> {
    seq(n, k requires 0 <= k < n => ItemAt(p, m, lv, k))
  }

  /** Items stay where they are while their leaf layer is extended or cut behind them. */
  lemma ItemsKept(p: nat, g: nat, m: Memory, lv: Levels, n: nat, m': Memory, lv': Levels, n': nat)
    requires p > 0 && g > 1 && Tree(g, m, lv) && Tree(g, m', lv')
    requires Shape(g, Need(p, n), lv) && Shape(g, Need(p, n'), lv')
    requires lv[|lv| - 1] <= lv'[|lv'| - 1] || lv'[|lv'| - 1] <= lv[|lv| - 1]
    requires forall a | a in m && a in m' :: m[a].items == m'[a].items
    ensures forall k | 0 <= k < n && k < n' :: Items(p, m, lv, n)[k] == Items(p, m', lv', n')[k]
  {
    hide Linked, Apart, Depth, Above;
    forall k | 0 <= k < n && k < n' ensures ItemAt(p, m, lv, k) == ItemAt(p, m', lv', k) {
      LeafExists(p, g, n, lv, k);
      LeafExists(p, g, n', lv', k);
      assert At(lv, |lv| - 1, k / p) && At(lv', |lv'| - 1, k / p);
    }
  }

  /** Distinct indices have distinct addresses. */
  lemma DistinctAddresses(p: nat, g: nat, m: Memory, lv: Levels, j: nat, k: nat)
    requires p > 0 && Tree(g, m, lv) && j / p < |lv[|lv| - 1]| && k / p < |lv[|lv| - 1]| && j != k
    ensures Where(p, lv, j) != Where(p, lv, k)
  {
    if Where(p, lv, j) == Where(p, lv, k) {
      assert At(lv, |lv| - 1, j / p) && At(lv, |lv| - 1, k / p);
      SlotUnique(j, k, p);
    }
  }

  /** `counts` holds the bucket counts of the layers over `b` buckets. */
  ghost predicate Counted(g: nat, b: nat, counts: seq<nat>)
    requires g > 1
  {
    |counts| == Depth(g, b) && forall i | 0 <= i < |counts| :: counts[i] == Above(g, b, |counts| - 1 - i)
  }

  /** The counts of a complete tree: one root, and every layer as large as the next one needs. */
  ghost predicate Complete(g: nat, counts: seq<nat>) {
    |counts| > 0 && counts[0] == 1 && Stacked(g, counts, 0) && forall i | 0 <= i < |counts| :: counts[i] >= 1
  }

  /** `had` counts the buckets of the layers below the root. */
  ghost predicate Had(lv: Levels, had: seq<nat>) {
    |had| == |lv| > 0 && |lv[0]| == 1 && forall i | 1 <= i < |had| :: had[i] == |lv[i]|
  }

  /** Put below `d` new layers, no layer has more buckets than `counts` says. */
  ghost predicate Room(lv: Levels, counts: seq<nat>, d: nat) {
    |lv| + d == |counts| && forall i | d < i < |counts| :: |lv[i - d]| <= counts[i]
  }

  ghost predicate Filled(lv: Levels, counts: seq<nat>) {
    |lv| == |counts| && forall i | 0 <= i < |counts| :: |lv[i]| == counts[i]
  }

  lemma FilledShape(g: nat, b: nat, lv: Levels, counts: seq<nat>)
    requires g > 1 && Counted(g, b, counts) && Filled(lv, counts)
    ensures Shape(g, b, lv)
  {
    hide Depth, Above;
  }

  lemma ShapeDepth(g: nat, b: nat, lv: Levels)
    requires g > 1 && Shape(g, b, lv)
    ensures |lv| == Depth(g, b)
  {
    hide Depth, Above;
  }

  lemma CountsLink(g: nat, b: nat, counts: seq<nat>)
    requires g > 1 && b >= 1 && Counted(g, b, counts)
    ensures Complete(g, counts)
  {
    DepthTop(g, b);
    forall i | 0 <= i < |counts| ensures counts[i] >= 1 {
      AbovePositive(g, b, |counts| - 1 - i);
    }
  }

  lemma FewerBuckets(p: nat, g: nat, size: nat, n: nat)
    requires p > 0 && g > 1 && 0 < n <= size
    ensures 1 <= CeilDiv(n, p) <= CeilDiv(size, p) && Depth(g, CeilDiv(n, p)) <= Depth(g, CeilDiv(size, p))
  {
    CeilDivMono(n, size, p);
    CeilDivBound(n, p, 0);
    DepthMono(g, CeilDiv(n, p), CeilDiv(size, p));
  }

  /** The counts of the smaller tree fit into the layers of the larger one. */
  lemma ShrinkCounts(g: nat, b: nat, b': nat, lv: Levels, counts: seq<nat>, d: nat)
    requires g > 1 && 1 <= b' <= b && Shape(g, b, lv) && |counts| == |lv| && d + Depth(g, b') == |lv|
    requires CountedBelow(g, b', counts, d)
    ensures Within(lv, counts) && Smaller(g, counts, d)
  {
    DepthTop(g, b');
    forall i | d <= i < |lv| ensures counts[i] <= |lv[i]| {
      AboveMono(g, b', b, |lv| - 1 - i);
    }
  }

  /** `counts` holds the bucket counts of the layers over `b` buckets, behind `d` layers
      that have gone. */
  ghost predicate CountedBelow(g: nat, b: nat, counts: seq<nat>, d: nat)
    requires g > 1
  {
    && d <= |counts| && (forall i | 0 <= i < d :: counts[i] == 0)
    && (forall i | d <= i < |counts| :: counts[i] == Above(g, b, |counts| - 1 - i))
  }

  /** No layer grows. */
  ghost predicate Within(lv: Levels, counts: seq<nat>) {
    |counts| == |lv| && forall i | 0 <= i < |lv| :: counts[i] <= |lv[i]|
  }

  /** `counts` is a tree whose root is in layer `d`. */
  ghost predicate Smaller(g: nat, counts: seq<nat>, d: nat) {
    d < |counts| && counts[d] == 1 && Stacked(g, counts, d) && forall i | 0 <= i < d :: counts[i] == 0
  }

  lemma KeptShape(g: nat, b: nat, lv: Levels, counts: seq<nat>, d: nat)
    requires g > 1 && Within(lv, counts) && d <= |lv| && CountedBelow(g, b, counts, d) && d + Depth(g, b) == |lv|
    ensures Shape(g, b, Kept(lv, counts, d))
    ensures d < |lv| ==> |Kept(lv, counts, d)| > 0
    ensures d < |lv| ==> Kept(lv, counts, d)[|lv| - d - 1] <= lv[|lv| - 1]
  {
    hide Depth, Above;
  }

  lemma ShapeFilled(g: nat, b: nat, lv: Levels, counts: seq<nat>)
    requires g > 1 && Shape(g, b, lv) && Counted(g, b, counts)
    ensures Filled(lv, counts)
  {
    hide Depth, Above;
  }

  ghost predicate NoneEmpty(lv: Levels) {
    forall i | 0 <= i < |lv| :: |lv[i]| >= 1
  }

  lemma ShapeNoneEmpty(g: nat, b: nat, lv: Levels)
    requires g > 1 && b >= 1 && Shape(g, b, lv)
    ensures NoneEmpty(lv)
  {
    hide Depth, Above;
    forall i | 0 <= i < |lv| ensures |lv[i]| >= 1 { AbovePositive(g, b, |lv| - 1 - i); }
  }

  lemma NeedPositive(p: nat, n: nat)
    requires p > 0
    ensures Need(p, n) >= 1
  {
    CeilDivBound(n, p, 0);
  }

  lemma MoreBuckets(p: nat, g: nat, size: nat, n: nat)
    requires p > 0 && g > 1 && n > Need(p, size) * p
    ensures 1 <= Need(p, size) < CeilDiv(n, p) && n * g > p
  {
    NeedPositive(p, size);
    CeilDivBound(n, p, Need(p, size));
    MulMono(1, Need(p, size), p);
    MulMono(1, g, n);
  }

  /** No layer of the larger tree has fewer buckets than the one it grows from. */
  lemma GrownCounts(g: nat, b: nat, b': nat, lv: Levels, counts: seq<nat>, d: nat)
    requires g > 1 && 1 <= b <= b' && Shape(g, b, lv) && Counted(g, b', counts) && |lv| + d == |counts|
    ensures Room(lv, counts, d)
  {
    hide Depth, Above;
    forall i | d < i < |counts| ensures |lv[i - d]| <= counts[i] {
      AboveMono(g, b, b', |counts| - 1 - i);
    }
  }

  /** The counts of an empty array: one layer, and none in it. */
  lemma EmptyCounts(p: nat, g: nat, size: nat)
    requires p > 0 && g > 1
    ensures size == 0 ==> Depth(g, Need(p, size)) == 1 && Above(g, CeilDiv(size, p), 0) == 0
    ensures size > 0 ==> Need(p, size) == CeilDiv(size, p)
  {
  }

  /** Within the capacity no bucket is missing. */
  lemma EnoughBuckets(p: nat, size: nat, n: nat)
    requires p > 0 && size < n <= Need(p, size) * p
    ensures Need(p, n) == Need(p, size)
  {
    CeilDivBound(n, p, Need(p, size));
    CeilDivBound(n, p, 0);
    CeilDivMono(size, n, p);
  }

  /** Writing item `k` changes no other item. */
  lemma ItemWritten(p: nat, g: nat, m: Memory, lv: Levels, n: nat, k: nat, v: int)
    requires p > 0 && g > 1 && n > 0 && Tree(g, m, lv) && Sized(p, g, m) && Shape(g, CeilDiv(n, p), lv) && k < n
    requires |lv| > 0 && k / p < |lv[|lv| - 1]| && Where(p, lv, k).0 in m
    ensures var (a, off) := Where(p, lv, k);
      Items(p, m[a := m[a].(items := m[a].items[off := v])], lv, n) == Items(p, m, lv, n)[k := v]
  {
    hide Linked, Apart, Depth, Above;
    var (a, off) := Where(p, lv, k);
    var m' := m[a := m[a].(items := m[a].items[off := v])];
    forall j | 0 <= j < n ensures ItemAt(p, m', lv, j) == if j == k then v else ItemAt(p, m, lv, j) {
      LeafExists(p, g, n, lv, j);
      assert At(lv, |lv| - 1, j / p);
      if j != k { DistinctAddresses(p, g, m, lv, j, k); }
    }
  }

  /** And nothing about the tree. */
  lemma WriteKeeps(p: nat, g: nat, m: Memory, lv: Levels, n: nat, k: nat, v: int, a: Addr, off: nat)
    requires p > 0 && g > 1 && Tree(g, m, lv) && Sized(p, g, m) && Shape(g, CeilDiv(n, p), lv) && k < n
    requires |lv| > 0 && k / p < |lv[|lv| - 1]| && (a, off) == Where(p, lv, k)
    ensures a in m && a in Buckets(lv) && off < |m[a].items|
    ensures var m' := m[a := m[a].(items := m[a].items[off := v])];
      && Tree(g, m', lv) && Sized(p, g, m') && m'.Keys == m.Keys
      && Items(p, m', lv, n) == Items(p, m, lv, n)[k := v]
  {
    hide Linked, Apart, Depth, Above, Items;
    assert At(lv, |lv| - 1, k / p);
    var m' := m[a := m[a].(items := m[a].items[off := v])];
    SameTree(g, m, m', lv);
    ItemWritten(p, g, m, lv, n, k, v);
  }

  /** A finite memory has an unused address. */
  lemma {:induction false} UnusedExists(used: set<Addr>)
    ensures exists a: Addr :: a !in used
  {
    var bound := Bound(used);
    assert bound !in used;
  }

  ghost function Bound(used: set<Addr>): (b: Addr)
    ensures forall a | a in used :: a < b
  {
    if used == {} then 0
    else
      var a :| a in used;
      var b := Bound(used - {a});
      assert forall x | x in used :: x == a || x in used - {a};
      if a < b then b else a + 1
  }

  datatype Op = ResizeTo(n: nat) | Put(k: nat, v: int)

  /** A flat array as its user knows it: its size and the values written and not cut off since. */
  datatype Flat = Flat(size: nat, known: map<nat, int>)

  predicate Legal(p: nat, g: nat, f: Flat, op: Op) {
    match op
    case ResizeTo(n) => n < f.size ==> n * g > p
    case Put(k, _) => k < f.size
  }

  function Apply(f: Flat, op: Op): Flat {
    match op
    case ResizeTo(n) => Flat(n, map k | k in f.known && k < n :: f.known[k])
    case Put(k, v) => f.(known := f.known[k := v])
  }

  predicate AllLegal(p: nat, g: nat, f: Flat, ops: seq<Op>)
    decreases |ops|
  {
    ops == [] || (Legal(p, g, f, ops[0]) && AllLegal(p, g, Apply(f, ops[0]), ops[1..]))
  }

  function ApplyAll(f: Flat, ops: seq<Op>): Flat
    decreases |ops|
  {
    if ops == [] then f else ApplyAll(Apply(f, ops[0]), ops[1..])
  }

  class GArray {
    const p: nat      // items per bucket
    const g: nat      // addresses per bucket
    var mem: Memory   // global memory
    var root: Addr
    var size: nat
    var capacity: nat
    var layer: nat
    ghost var levels: Levels

    ghost predicate Valid()
      reads this
    {
      && p > 0 && g > 1 && Sized(p, g, mem)
      && Tree(g, mem, levels) && root == levels[0][0] && layer == |levels|
      && Shape(g, Need(p, size), levels) && capacity == Need(p, size) * p
    }

    /** A fresh array of `n` items. */
    constructor (p: nat, g: nat, mem: Memory, n: nat)
      requires p > 0 && g > 1 && Sized(p, g, mem)
      ensures Valid() && this.p == p && this.g == g && size == n
      ensures Buckets(levels) == this.mem.Keys - mem.Keys && mem.Keys <= this.mem.Keys
      ensures forall a | a in mem :: this.mem[a] == mem[a]
    {
      this.p, this.g, this.mem, size, root, layer, capacity, levels := p, g, mem, n, 0, 1, p, [];
      new;
      root := AlignedMalloc();
      levels := [[root]];
      SingleTree(g, this.mem, root);
      CeilDivBound(n, p, 1);
      CeilDivBound(n, p, 0);
      if n > p { Build(n); }
    }

    /** Build the layers for `n` items below a root that is alone so far. */
    method Build(n: nat)
      requires Growing() && |levels| == 1 && n > p
      modifies this
      ensures Growing() && Extends(old(mem), old(levels), mem, levels) && size == old(size)
      ensures layer == |levels| && Shape(g, CeilDiv(n, p), levels) && capacity == CeilDiv(n, p) * p
    {
      hide Tree, Extends, Sized, Layers, CeilDiv, Depth, Above;
      MulMono(1, g, n);
      LayersIsDepth(p, g, n);
      layer := Layers(p, g, n);
      var counts, cap := LayerCounts(n, layer);
      capacity := cap;
      BuildLayers(counts, layer);
      FilledShape(g, CeilDiv(n, p), levels, counts[..]);
    }

    /** The flat sequence the array stands for. */
    ghost function Contents(): seq<int>
      requires Valid()
      reads this
    {
      Items(p, mem, levels, size)
    }

    method AlignedMalloc() returns (a: Addr)
      modifies this`mem
      ensures a !in old(mem) && a in mem && mem == old(mem)[a := mem[a]]
      ensures |mem[a].items| == p && |mem[a].ptrs| == g
    {
      UnusedExists(mem.Keys);
      a :| a !in mem;
      mem := mem[a := Bucket(seq(p, _ => 0), seq(g, _ => 0))];
    }

    method Free(a: Addr)
      requires a in mem
      modifies this`mem
      ensures mem == old(mem) - {a}
    {
      mem := mem - {a};
    }

    /** Follow the addresses from `from` to bucket `bucket` of layer `depth`. */
    method Walk(from: Addr, depth: nat, bucket: nat, ghost lv: Levels) returns (a: Addr)
      requires Tree(g, mem, lv) && from == lv[0][0] && 1 <= depth <= |lv| && bucket < |lv[depth - 1]|
      ensures a == lv[depth - 1][bucket]
    {
      var offs := new nat[depth - 1];
      var rest := bucket;
      ghost var path := [bucket];
      var i := depth - 1;
      while i > 0
        invariant 0 <= i <= depth - 1 && |path| == depth - i && path[0] == rest && At(lv, i, rest)
        invariant path[depth - 1 - i] == bucket
        invariant forall k | 0 <= k < |path| :: At(lv, i + k, path[k])
        invariant forall k | 0 < k < |path| :: path[k-1] == path[k] / g && offs[i + k - 1] == path[k] % g
      {
        assert Link(g, mem, lv, i, rest);
        i := i - 1;
        offs[i] := rest % g;
        rest := rest / g;
        path := [rest] + path;
      }
      assert rest == 0;
      a := from;
      while i < depth - 1
        invariant 0 <= i <= depth - 1 && At(lv, i, path[i]) && a == lv[i][path[i]]
        invariant |path| == depth && path[depth - 1] == bucket
        invariant forall k | 0 < k < depth :: path[k-1] == path[k] / g && offs[k-1] == path[k] % g
        invariant forall k | 0 <= k < depth :: At(lv, k, path[k])
      {
        assert Link(g, mem, lv, i + 1, path[i+1]);
        a := mem[a].ptrs[offs[i]];
        i := i + 1;
      }
    }

    /** The address of slot `idx` of layer `depth`: of an item in the last layer, of a
        pointer to a bucket of the next layer otherwise. */
    method LocateInternal(from: Addr, total: nat, depth: nat, idx: nat, ghost lv: Levels) returns (a: Addr, off: nat)
      requires p > 0 && Tree(g, mem, lv) && from == lv[0][0] && 1 <= depth <= |lv|
      requires idx / (if depth == total then p else g) < |lv[depth - 1]|
      ensures a == lv[depth - 1][idx / (if depth == total then p else g)]
      ensures off == idx % (if depth == total then p else g)
    {
      var perBucket := if depth == total then p else g;
      a := Walk(from, depth, idx / perBucket, lv);
      off := idx % perBucket;
    }

    /** The address of item `k`. */
    method Locate(k: nat) returns (a: Addr, off: nat)
      requires Valid() && k / p < |levels[|levels| - 1]|
      ensures (a, off) == Where(p, levels, k)
    {
      a := Walk(root, layer, k / p, levels);
      off := k % p;
    }

    method Read(k: nat) returns (v: int)
      requires Valid() && k < size
      ensures v == Contents()[k]
    {
      LeafExists(p, g, size, levels, k);
      var a, off := Locate(k);
      assert At(levels, |levels| - 1, k / p);
      v := mem[a].items[off];
    }

    method Write(k: nat, v: int)
      requires Valid() && k < size
      modifies this`mem
      ensures Valid() && Contents() == old(Contents())[k := v]
      ensures mem.Keys == old(mem).Keys && forall a | a in mem && a !in Buckets(levels) :: mem[a] == old(mem)[a]
    {
      hide Tree, Sized, Shape, Items, Where, Buckets;
      LeafExists(p, g, size, levels, k);
      var a, off := Locate(k);
      WriteKeeps(p, g, mem, levels, size, k, v, a, off);
      mem := mem[a := mem[a].(items := mem[a].items[off := v])];
    }

    /** Fill `layers[from..from + depth]` with the bucket counts of `depth` layers. */
    method CalLayers(n: nat, layers: array<nat>, from: nat, depth: nat) returns (cap: nat)
      requires p > 0 && g > 1 && 1 <= depth && from + depth <= layers.Length
      modifies layers
      ensures cap == CeilDiv(n, p) * p
      ensures forall i | from <= i < from + depth :: layers[i] == Above(g, CeilDiv(n, p), from + depth - 1 - i)
      ensures forall i | 0 <= i < from :: layers[i] == old(layers[i])
    {
      layers[from + depth - 1] := CeilDiv(n, p);
      cap := layers[from + depth - 1] * p;
      var i := from + depth - 1;
      while i > from
        invariant from <= i < from + depth
        invariant forall k | i <= k < from + depth :: layers[k] == Above(g, CeilDiv(n, p), from + depth - 1 - k)
        invariant forall k | 0 <= k < from :: layers[k] == old(layers[k])
      {
        i := i - 1;
        layers[i] := CeilDiv(layers[i+1], g);
      }
    }

    /** A tree hangs below the root; its layers need not be complete yet. */
    ghost predicate Growing()
      reads this
    {
      p > 0 && g > 1 && Sized(p, g, mem) && Tree(g, mem, levels) && root == levels[0][0]
    }

    method InsertBlock(l: nat, idx: nat, newbk: Addr, ghost lv: Levels)
      requires p > 0 && g > 1 && Sized(p, g, mem) && Tree(g, mem, lv) && root == lv[0][0]
      requires 1 <= l <= |lv| && l != layer && idx / g < |lv[l-1]|
      modifies this`mem
      ensures lv[l-1][idx / g] in old(mem) && idx % g < |old(mem)[lv[l-1][idx / g]].ptrs|
      ensures mem == SetPtr(old(mem), lv[l-1][idx / g], idx % g, newbk)
    {
      var a, off := LocateInternal(root, layer, l, idx, lv);
      assert At(lv, l - 1, idx / g);
      mem := SetPtr(mem, a, off, newbk);
    }

    /** Allocate the next bucket of layer `i` and link it in. */
    method AppendBlock(i: nat, j: nat)
      requires Growing() && 1 <= i < |levels| && i < layer && j == |levels[i]| && j / g < |levels[i-1]|
      modifies this`mem, this`levels
      ensures Growing() && Extends(old(mem), old(levels), mem, levels)
      ensures |levels| == |old(levels)| && |levels[i]| == j + 1 && old(levels)[i] <= levels[i]
      ensures forall k | 0 <= k < |levels| && k != i :: levels[k] == old(levels)[k]
    {
      assert At(levels, i - 1, j / g);
      var newbk := AlignedMalloc();
      ghost var c := mem[newbk];
      SameTree(g, old(mem), mem, levels);
      InsertBlock(i, j, newbk, levels);
      AddBucket(p, g, old(mem), levels, i, newbk, c);
      AddExtends(p, g, old(mem), levels, i, newbk, c);
      levels := Added(levels, i, newbk);
    }

    /** Allocate the buckets `from..upto` of layer `i` and link them in. */
    method ExtendLayer(i: nat, from: nat, upto: nat)
      requires Growing() && 1 <= i < |levels| && i < layer
      requires from == |levels[i]| <= upto && CeilDiv(upto, g) <= |levels[i-1]|
      modifies this`mem, this`levels
      ensures Growing() && Extends(old(mem), old(levels), mem, levels)
      ensures |levels| == |old(levels)| && |levels[i]| == upto && old(levels)[i] <= levels[i]
      ensures forall k | 0 <= k < |levels| && k != i :: levels[k] == old(levels)[k]
    {
      var j := from;
      while j < upto
        invariant from <= j <= upto && Growing() && Extends(old(mem), old(levels), mem, levels)
        invariant |levels| == |old(levels)| && |levels[i]| == j && old(levels)[i] <= levels[i]
        invariant forall k | 0 <= k < |levels| && k != i :: levels[k] == old(levels)[k]
      {
        ParentBelow(j, upto, g);
        ghost var m, lv := mem, levels;
        AppendBlock(i, j);
        ExtendsTwice(old(mem), old(levels), m, lv, mem, levels);
        j := j + 1;
      }
    }

    /** Build layers 1 to `n - 1` of a tree that has only its root. */
    method BuildLayers(counts: array<nat>, n: nat)
      requires Growing() && |levels| == 1 <= n <= counts.Length && n <= layer && counts[0] == 1
      requires Stacked(g, counts[..], 0)
      modifies this`mem, this`levels
      ensures Growing() && Extends(old(mem), old(levels), mem, levels)
      ensures |levels| == n && forall i | 0 <= i < n :: |levels[i]| == counts[i]
    {
      hide Allocated, Linked, Apart, Sized, Extends, CeilDiv;
      ExtendsSelf(mem, levels);
      var i := 1;
      while i < n
        invariant 1 <= i <= n && Growing() && Extends(old(mem), old(levels), mem, levels)
        invariant |levels| == i && forall k | 0 <= k < i :: |levels[k]| == counts[k]
      {
        ghost var m, lv := mem, levels;
        EmptyLayer(g, mem, levels);
        levels := levels + [[]];
        assert Over(g, counts[..], i);
        ExtendLayer(i, 0, counts[i]);
        ExtendsTwice(old(mem), old(levels), m, lv, mem, levels);
        i := i + 1;
      }
    }

    /** Complete the layers from `from` on; layer `i` has `had[i - d]` buckets so far. */
    method ExtendLayers(counts: array<nat>, had: array<nat>, d: nat, from: nat)
      requires Growing() && 1 <= from <= |levels| == layer == counts.Length && d + had.Length == layer && d < from
      requires |levels[from - 1]| == counts[from - 1]
      requires forall i | from <= i < layer :: |levels[i]| == had[i - d] <= counts[i]
      requires Stacked(g, counts[..], 0)
      modifies this`mem, this`levels
      ensures Growing() && Extends(old(mem), old(levels), mem, levels) && |levels| == layer
      ensures forall i | 0 <= i < layer :: old(levels)[i] <= levels[i]
      ensures forall i | 0 <= i < from :: levels[i] == old(levels)[i]
      ensures forall i | from <= i < layer :: |levels[i]| == counts[i]
    {
      hide Allocated, Linked, Apart, Sized, Extends, CeilDiv;
      ExtendsSelf(mem, levels);
      var i := from;
      while i < layer
        invariant from <= i <= layer && Growing() && Extends(old(mem), old(levels), mem, levels) && |levels| == layer
        invariant forall k | 0 <= k < layer :: old(levels)[k] <= levels[k]
        invariant forall k | 0 <= k < layer && !(from <= k < i) :: levels[k] == old(levels)[k]
        invariant forall k | from <= k < i :: |levels[k]| == counts[k]
      {
        ghost var m, lv := mem, levels;
        assert Over(g, counts[..], i);
        ExtendLayer(i, had[i - d], counts[i]);
        ExtendsTwice(old(mem), old(levels), m, lv, mem, levels);
        i := i + 1;
      }
    }

    /** New layers on top: a new root, full new layers, and the old root below them. */
    method AddLayersOnTop(counts: array<nat>, d: nat)
      requires Growing() && 1 <= d < layer == counts.Length && Complete(g, counts[..])
      modifies this`mem, this`levels, this`root
      ensures Growing() && Extends(old(mem), old(levels), mem, levels)
      ensures |levels| == d + |old(levels)| && levels[d..] == old(levels)
      ensures forall i | 0 <= i < d :: |levels[i]| == counts[i]
    {
      hide Linked, Apart, Extends, Buckets, CeilDiv;
      var oldRoot := root;
      root := AlignedMalloc();
      ghost var a, c := root, mem[root];
      SingleTree(g, mem, root);
      levels := [[root]];
      BuildLayers(counts, d);
      PutOnTop(p, g, old(mem), old(levels), a, c, mem, levels);
      InsertBlock(d, 0, oldRoot, levels);
      levels := levels + old(levels);
    }

    /** The bucket counts of the layers for `n` items. */
    method LayerCounts(n: nat, depth: nat) returns (counts: array<nat>, cap: nat)
      requires p > 0 && g > 1 && n > 0 && depth == Depth(g, CeilDiv(n, p))
      ensures fresh(counts) && counts.Length == depth && cap == CeilDiv(n, p) * p
      ensures Counted(g, CeilDiv(n, p), counts[..]) && Complete(g, counts[..])
    {
      counts := new nat[depth];
      cap := CalLayers(n, counts, 0, depth);
      CeilDivBound(n, p, 0);
      CountsLink(g, CeilDiv(n, p), counts[..]);
    }

    /** Enlarge the tree by `d` layers on top and by buckets in its old layers. */
    method GrowTaller(counts: array<nat>, had: array<nat>, d: nat)
      requires Growing() && 1 <= d < layer == counts.Length && Complete(g, counts[..])
      requires Had(levels, had[..]) && Room(levels, counts[..], d)
      modifies this`mem, this`levels, this`root
      ensures Growing() && Extends(old(mem), old(levels), mem, levels) && Filled(levels, counts[..])
      ensures old(levels)[|old(levels)| - 1] <= levels[layer - 1]
    {
      hide Tree, Extends, Sized;
      AddLayersOnTop(counts, d);
      ghost var m, lv := mem, levels;
      forall i | d <= i < layer ensures lv[i] == old(levels)[i - d] {
        assert lv[d..][i - d] == lv[i];
      }
      assert Over(g, counts[..], d);
      ExtendLayer(d, 1, counts[d]);
      ExtendsTwice(old(mem), old(levels), m, lv, mem, levels);
      ghost var m', lv' := mem, levels;
      ExtendLayers(counts, had, d, d + 1);
      ExtendsTwice(old(mem), old(levels), m', lv', mem, levels);
    }

    /** Enlarge the tree by buckets in its old layers. */
    method GrowWider(counts: array<nat>, had: array<nat>)
      requires Growing() && layer == counts.Length && Complete(g, counts[..])
      requires Had(levels, had[..]) && Room(levels, counts[..], 0)
      modifies this`mem, this`levels
      ensures Growing() && Extends(old(mem), old(levels), mem, levels) && Filled(levels, counts[..])
      ensures old(levels)[layer - 1] <= levels[layer - 1]
    {
      hide Tree, Extends, Sized;
      ExtendLayers(counts, had, 0, 1);
    }

    /** The bucket counts of the array as it is. For an empty array they break the
        assertion that the top layer is one bucket, which `ok` reports. */
    method OldCounts() returns (had: array<nat>, ok: bool)
      requires Valid()
      ensures fresh(had) && Had(levels, had[..])
      ensures ok <==> size > 0
    {
      hide Tree, Sized;
      NeedPositive(p, size);
      DepthTop(g, Need(p, size));
      EmptyCounts(p, g, size);
      had := new nat[layer];
      var _ := CalLayers(size, had, 0, layer);
      ok := had[0] == 1;
    }

    /** Enlarge the tree for `n` items. */
    method Grow(n: nat) returns (ok: bool)
      requires Valid() && n > capacity
      modifies this
      ensures Growing() && Extends(old(mem), old(levels), mem, levels) && size == old(size)
      ensures layer == |levels| && Shape(g, CeilDiv(n, p), levels) && capacity == CeilDiv(n, p) * p
      ensures old(levels)[|old(levels)| - 1] <= levels[|levels| - 1]
      ensures ok <==> size > 0
    {
      hide Tree, Extends, Sized, Layers, CeilDiv, Depth, Above, Need, Complete, Had, Room, Counted, Filled, Shape;
      MoreBuckets(p, g, size, n);
      LayersIsDepth(p, g, n);
      var newLayer := Layers(p, g, n);
      ShapeDepth(g, Need(p, size), levels);
      DepthMono(g, Need(p, size), CeilDiv(n, p));
      var d := newLayer - layer;
      var had, done := OldCounts();
      ok := done;
      var counts, cap := LayerCounts(n, newLayer);
      capacity := cap;
      GrownCounts(g, Need(p, size), CeilDiv(n, p), levels, counts[..], d);
      if d > 0 {
        layer := newLayer;
        GrowTaller(counts, had, d);
      } else {
        GrowWider(counts, had);
      }
      FilledShape(g, CeilDiv(n, p), levels, counts[..]);
      ShapeDepth(g, CeilDiv(n, p), levels);
    }

    /** Free bucket `j` of layer `i` of the old tree, found through its parent. */
    method FreeBlock(from: Addr, total: nat, i: nat, j: nat, ghost m: Memory, ghost lv: Levels, ghost counts: seq<nat>)
      requires p > 0 && g > 1 && Tree(g, m, lv) && from == lv[0][0] && |lv| == |counts| == total
      requires 0 < i && At(lv, i, j) && mem == m - Dropped(lv, counts, i, j + 1)
      modifies this`mem
      ensures mem == m - Dropped(lv, counts, i, j)
    {
      assert Link(g, m, lv, i, j);
      forall a | a in Buckets(lv[..i]) ensures a in mem && mem[a] == m[a] {
        var k, l := Find(lv[..i], a);
        assert At(lv, k, l);
        DroppedAt(lv, counts, i, j + 1, k, l);
      }
      UpperTree(g, m, lv, i);
      SameTree(g, m, mem, lv[..i]);
      var parent, off := LocateInternal(from, total, i, j, lv[..i]);
      DroppedAt(lv, counts, i, j + 1, i - 1, j / g);
      var blk := mem[parent].ptrs[off];
      DropOne(lv, counts, i, j);
      Free(blk);
    }

    /** Release the buckets beyond `counts`, bottom layer first. */
    method Release(from: Addr, had: array<nat>, counts: array<nat>, ghost lv: Levels)
      requires p > 0 && g > 1 && Tree(g, mem, lv) && from == lv[0][0] && had.Length == counts.Length == |lv|
      requires forall i | 0 <= i < |lv| :: had[i] == |lv[i]|
      modifies this`mem
      ensures mem == old(mem) - Dropped(lv, counts[..], 0, 1)
    {
      ghost var m, cs := mem, counts[..];
      DropNone(lv, cs);
      var i := had.Length - 1;
      while i > 0
        invariant 0 <= i < |lv| && mem == m - Dropped(lv, cs, i, |lv[i]|)
      {
        var j := had[i];
        while j > counts[i]
          invariant j <= had[i] && (j >= counts[i] || j == had[i]) && mem == m - Dropped(lv, cs, i, j)
        {
          j := j - 1;
          FreeBlock(from, had.Length, i, j, m, lv, cs);
        }
        DropLayer(lv, cs, i);
        i := i - 1;
      }
    }

    /** The first bucket of layer `d`, by following the first address of each bucket. */
    method FirstOfLayer(d: nat) returns (a: Addr)
      requires Growing() && d < |levels| && NoneEmpty(levels)
      ensures a == levels[d][0]
    {
      a := root;
      var i := 0;
      while i < d
        invariant 0 <= i <= d && a == levels[i][0]
      {
        assert At(levels, i + 1, 0) && Link(g, mem, levels, i + 1, 0);
        a := mem[a].ptrs[0];
        i := i + 1;
      }
    }

    /** Release what lies beyond `counts`, and the old root if `d` layers go away. */
    method Cut(oldRoot: Addr, had: array<nat>, counts: array<nat>, d: nat)
      requires p > 0 && g > 1 && Sized(p, g, mem) && Tree(g, mem, levels) && oldRoot == levels[0][0]
      requires Filled(levels, had[..]) && Within(levels, counts[..]) && Smaller(g, counts[..], d)
      requires |levels[d]| > 0 && root == levels[d][0]
      modifies this`mem, this`levels
      ensures Growing() && levels == Kept(old(levels), counts[..], d)
      ensures mem == old(mem) - (Buckets(old(levels)) - Buckets(levels)) && Buckets(levels) <= Buckets(old(levels))
    {
      ghost var lv, cs := levels, counts[..];
      Release(oldRoot, had, counts, lv);
      if d > 0 {
        DroppedRest(lv, cs, d);
        Member(lv, 0, 0);
        assert At(lv, 0, 0);
        Free(oldRoot);
      }
      CutTree(p, g, old(mem), mem, lv, cs, d);
      levels := Kept(lv, cs, d);
    }

    /** Cut the tree down to what `n` items need. */
    method Shrink(n: nat)
      requires Valid() && n < size && n * g > p
      modifies this
      ensures Growing() && size == n && layer == |levels| && capacity == CeilDiv(n, p) * p
      ensures Shape(g, CeilDiv(n, p), levels) && levels[|levels| - 1] <= old(levels)[|old(levels)| - 1]
      ensures mem == old(mem) - (Buckets(old(levels)) - Buckets(levels)) && Buckets(levels) <= Buckets(old(levels))
    {
      hide Buckets, Layers, CeilDiv, Depth, Tree, Sized, Above, Counted, CountedBelow, Filled, Within, Smaller, Shape;
      FewerBuckets(p, g, size, n);
      LayersIsDepth(p, g, n);
      ShapeDepth(g, CeilDiv(size, p), levels);
      var oldSize, oldLayer, oldRoot := size, layer, root;
      size := n;
      layer := Layers(p, g, n);
      capacity := CeilDiv(n, p) * p;
      var d := oldLayer - layer;
      ShapeNoneEmpty(g, CeilDiv(oldSize, p), levels);
      root := FirstOfLayer(d);
      var had, _ := LayerCounts(oldSize, oldLayer);
      ShapeFilled(g, CeilDiv(oldSize, p), levels, had[..]);
      var counts := NewCounts(n, oldLayer, d);
      ShrinkCounts(g, CeilDiv(oldSize, p), CeilDiv(n, p), levels, counts[..], d);
      KeptShape(g, CeilDiv(n, p), levels, counts[..], d);
      Cut(oldRoot, had, counts, d);
      ShapeDepth(g, CeilDiv(n, p), levels);
    }

    /** The bucket counts of the layers for `n` items, behind `d` layers that go away. */
    method NewCounts(n: nat, total: nat, d: nat) returns (counts: array<nat>)
      requires p > 0 && g > 1 && d < total
      ensures fresh(counts) && counts.Length == total && CountedBelow(g, CeilDiv(n, p), counts[..], d)
    {
      counts := new nat[total](_ => 0);
      var _ := CalLayers(n, counts, d, total - d);
    }

    /** Enlarge to `n` items; within the capacity only the size changes. */
    method Enlarge(n: nat) returns (ok: bool)
      requires Valid() && n > size
      modifies this
      ensures Valid() && size == n && Extends(old(mem), old(levels), mem, levels)
      ensures forall k | 0 <= k < old(size) :: Contents()[k] == old(Contents())[k]
      ensures ok <==> old(size) > 0 || n <= old(capacity)
    {
      if n > capacity {
        ok := Grow(n);
      } else {
        EnoughBuckets(p, size, n);
        ok := true;
      }
      size := n;
      ItemsKept(p, g, old(mem), old(levels), old(size), mem, levels, n);
    }

    /** Reduce to `n` items. */
    method Reduce(n: nat)
      requires Valid() && n < size && n * g > p
      modifies this
      ensures Valid() && size == n
      ensures mem == old(mem) - (Buckets(old(levels)) - Buckets(levels)) && Buckets(levels) <= Buckets(old(levels))
      ensures forall k | 0 <= k < n :: Contents()[k] == old(Contents())[k]
    {
      Shrink(n);
      ItemsKept(p, g, old(mem), old(levels), old(size), mem, levels, n);
    }

    /** Resize to `n` items: indices below both sizes keep their values, and of all of
        global memory exactly the array's own buckets come and go. An assertion breaks
        when an empty array outgrows its bucket, and only then. */
    method Resize(n: nat) returns (ok: bool)
      requires Valid() && (n < size ==> n * g > p)
      modifies this
      ensures ok <==> old(size) > 0 || n <= old(capacity)
      ensures Valid() && size == n
      ensures forall k | 0 <= k < n && k < old(size) :: Contents()[k] == old(Contents())[k]
      ensures mem.Keys - Buckets(levels) == old(mem).Keys - Buckets(old(levels))
      ensures forall a | a in old(mem) && a !in Buckets(old(levels)) :: a in mem && mem[a] == old(mem)[a]
      ensures n >= old(size) ==> Buckets(levels) == Buckets(old(levels)) + (mem.Keys - old(mem).Keys)
      ensures n <= old(size) ==> Buckets(levels) <= Buckets(old(levels))
    {
      ok := true;
      if n > size {
        ok := Enlarge(n);
      } else if n < size {
        Reduce(n);
      }
    }

    /** The array holds every value the flat array is known to hold. */
    ghost predicate Agrees(f: Flat)
      requires Valid()
      reads this
    {
      size == f.size && forall k | k in f.known :: k < size && Contents()[k] == f.known[k]
    }

    /** After any run of resizes and writes the array agrees with the flat one. */
    method Run(ops: seq<Op>, f: Flat)
      requires Valid() && Agrees(f) && AllLegal(p, g, f, ops)
      modifies this
      ensures Valid() && Agrees(ApplyAll(f, ops))
      ensures mem.Keys - Buckets(levels) == old(mem).Keys - Buckets(old(levels))
    {
      var i, now := 0, f;
      while i < |ops|
        invariant 0 <= i <= |ops| && Valid() && Agrees(now)
        invariant AllLegal(p, g, now, ops[i..]) && ApplyAll(now, ops[i..]) == ApplyAll(f, ops)
        invariant mem.Keys - Buckets(levels) == old(mem).Keys - Buckets(old(levels))
      {
        assert ops[i..][0] == ops[i] && ops[i..][1..] == ops[i+1..];
        match ops[i] {
          case ResizeTo(n) => var _ := Resize(n);
          case Put(k, v) => Write(k, v);
        }
        now := Apply(now, ops[i]);
        i := i + 1;
      }
    }
  }
}
