/**
 The bucket tree of a global array inside global memory: `levels[i][j]` is the
 address of bucket `j` of layer `i`, the root being layer 0. Bucket `j` of a layer
 is pointed to by slot `j % g` of bucket `j / g` of the layer above.
 */
module BucketTrees {
  import opened Basics
  import opened Radix

  /** A bucket is read either as items or as addresses, never as both. */
  datatype Bucket = Bucket(items: seq<int>, ptrs: seq<Addr>)

  type Memory = map<Addr, Bucket>

  type Levels = seq<seq<Addr>>

  ghost predicate Sized(p: nat, g: nat, m: Memory) {
    forall a | a in m :: |m[a].items| == p && |m[a].ptrs| == g
  }

  /** Layer `i - 1` has as many buckets as it takes to address those of layer `i`. */
  predicate Over(g: nat, counts: seq<nat>, i: int) {
    g > 0 && 0 < i < |counts| && counts[i-1] == CeilDiv(counts[i], g)
  }

  /** So it is for all layers below layer `d`. */
  ghost predicate Stacked(g: nat, counts: seq<nat>, d: nat) {
    forall i | d < i < |counts| :: Over(g, counts, i)
  }

  predicate At(lv: Levels, i: int, j: int) {
    0 <= i < |lv| && 0 <= j < |lv[i]|
  }

  ghost predicate Allocated(m: Memory, lv: Levels) {
    forall i, j | At(lv, i, j) :: lv[i][j] in m
  }

  /** Bucket `j` of layer `i` is reached from the layer above. */
  ghost predicate Link(g: nat, m: Memory, lv: Levels, i: int, j: int)
    requires g > 0
  {
    At(lv, i, j) && i > 0 ==>
      && At(lv, i - 1, j / g) && lv[i-1][j / g] in m
      && j % g < |m[lv[i-1][j / g]].ptrs| && m[lv[i-1][j / g]].ptrs[j % g] == lv[i][j]
  }

  ghost predicate Linked(g: nat, m: Memory, lv: Levels)
    requires g > 0
  {
    forall i, j :: Link(g, m, lv, i, j)
  }

  ghost predicate Apart(lv: Levels) {
    forall i, j, k, l | At(lv, i, j) && At(lv, k, l) && lv[i][j] == lv[k][l] :: i == k && j == l
  }

  ghost predicate Tree(g: nat, m: Memory, lv: Levels) {
    g > 0 && |lv| >= 1 && |lv[0]| == 1 && Allocated(m, lv) && Linked(g, m, lv) && Apart(lv)
  }

  /** All addresses of the tree. */
  ghost function Buckets(lv: Levels): set<Addr> {
    set i, j | 0 <= i < |lv| && 0 <= j < |lv[i]| :: lv[i][j]
  }

  lemma Find(lv: Levels, a: Addr) returns (i: nat, j: nat)
    requires a in Buckets(lv)
    ensures At(lv, i, j) && lv[i][j] == a
  {
    i, j :| At(lv, i, j) && lv[i][j] == a;
  }

  lemma Member(lv: Levels, i: nat, j: nat)
    requires At(lv, i, j)
    ensures lv[i][j] in Buckets(lv)
  {
  }

  /** Write one slot of a pointer bucket. */
  function SetPtr(m: Memory, a: Addr, k: nat, v: Addr): Memory
    requires a in m && k < |m[a].ptrs|
  {
    m[a := m[a].(ptrs := m[a].ptrs[k := v])]
  }

  /** A memory that agrees on the tree's buckets holds the same tree. */
  lemma SameTree(g: nat, m: Memory, m': Memory, lv: Levels)
    requires Tree(g, m, lv) && forall a | a in Buckets(lv) :: a in m' && m'[a].ptrs == m[a].ptrs
    ensures Tree(g, m', lv)
  {
    forall i, j | At(lv, i, j) ensures lv[i][j] in Buckets(lv) {}
    forall i, j ensures Link(g, m', lv, i, j) {
      assert Link(g, m, lv, i, j);
    }
  }

  /** The upper layers form a tree of their own. */
  lemma UpperTree(g: nat, m: Memory, lv: Levels, n: nat)
    requires Tree(g, m, lv) && 1 <= n <= |lv|
    ensures Tree(g, m, lv[..n])
  {
    forall i, j | At(lv[..n], i, j) ensures At(lv, i, j) {}
    forall i, j ensures Link(g, m, lv[..n], i, j) {
      assert Link(g, m, lv, i, j);
    }
  }

  /** A new bucket at the end of a layer, linked into its parent. */
  ghost function Added(lv: Levels, i: nat, a: Addr): Levels
    requires i < |lv|
  {
    lv[i := lv[i] + [a]]
  }

  lemma AddedAt(lv: Levels, i: nat, a: Addr, k: int, l: int)
    requires i < |lv| && At(Added(lv, i, a), k, l)
    ensures Added(lv, i, a)[k][l] == if k == i && l == |lv[i]| then a else lv[k][l]
    ensures !(k == i && l == |lv[i]|) ==> At(lv, k, l)
  {
  }

  lemma AddBucket(p: nat, g: nat, m: Memory, lv: Levels, i: nat, a: Addr, c: Bucket)
    requires Tree(g, m, lv) && Sized(p, g, m) && 1 <= i < |lv| && a !in m
    requires |c.items| == p && |c.ptrs| == g
    requires At(lv, i - 1, |lv[i]| / g)
    ensures Tree(g, SetPtr(m[a := c], lv[i-1][|lv[i]| / g], |lv[i]| % g, a), Added(lv, i, a))
    ensures Sized(p, g, SetPtr(m[a := c], lv[i-1][|lv[i]| / g], |lv[i]| % g, a))
  {
    var n := |lv[i]|;
    var parent := lv[i-1][n / g];
    var m' := SetPtr(m[a := c], parent, n % g, a);
    var lv' := Added(lv, i, a);
    forall k, l | At(lv', k, l) ensures lv'[k][l] in m' {
      AddedAt(lv, i, a, k, l);
    }
    forall k, l ensures Link(g, m', lv', k, l) {
      if At(lv', k, l) && k > 0 { AddedLink(p, g, m, lv, i, a, c, k, l); }
    }
    forall k, l, k', l' | At(lv', k, l) && At(lv', k', l') && lv'[k][l] == lv'[k'][l'] ensures k == k' && l == l' {
      AddedAt(lv, i, a, k, l);
      AddedAt(lv, i, a, k', l');
    }
  }

  lemma AddedLink(p: nat, g: nat, m: Memory, lv: Levels, i: nat, a: Addr, c: Bucket, k: nat, l: nat)
    requires Tree(g, m, lv) && Sized(p, g, m) && 1 <= i < |lv| && a !in m
    requires |c.items| == p && |c.ptrs| == g
    requires At(lv, i - 1, |lv[i]| / g)
    requires At(Added(lv, i, a), k, l) && k > 0
    ensures Link(g, SetPtr(m[a := c], lv[i-1][|lv[i]| / g], |lv[i]| % g, a), Added(lv, i, a), k, l)
  {
    var n := |lv[i]|;
    AddedAt(lv, i, a, k, l);
    if k == i && l == n {
      AddedAt(lv, i, a, i - 1, n / g);
    } else {
      assert Link(g, m, lv, k, l);
      AddedAt(lv, i, a, k - 1, l / g);
      if lv[k-1][l / g] == lv[i-1][n / g] && l % g == n % g {
        SlotUnique(l, n, g);
        assert false;
      }
    }
  }

  /** A tree hung below the only slot of the last layer of another one. */
  lemma JoinTrees(p: nat, g: nat, m: Memory, top: Levels, lv: Levels)
    requires Tree(g, m, top) && Tree(g, m, lv) && Sized(p, g, m) && Buckets(top) !! Buckets(lv)
    requires |top[|top| - 1]| >= 1
    ensures top[|top| - 1][0] in m && |m[top[|top| - 1][0]].ptrs| == g
    ensures Tree(g, SetPtr(m, top[|top| - 1][0], 0, lv[0][0]), top + lv)
  {
    var n := |top|;
    assert At(top, n - 1, 0);
    var m' := SetPtr(m, top[n-1][0], 0, lv[0][0]);
    var all := top + lv;
    forall k, l | At(all, k, l)
      ensures all[k][l] in m' && (k < n ==> At(top, k, l) && all[k][l] in Buckets(top))
      ensures k >= n ==> At(lv, k - n, l) && all[k][l] in Buckets(lv)
    {
      if k < n { assert At(top, k, l); } else { assert At(lv, k - n, l); }
    }
    forall k, l ensures Link(g, m', all, k, l) {
      if At(all, k, l) && k > 0 { JoinedLink(p, g, m, top, lv, k, l); }
    }
    forall k, l, k', l' | At(all, k, l) && At(all, k', l') && all[k][l] == all[k'][l'] ensures k == k' && l == l' {
      if k < n && k' < n {
        assert At(top, k, l) && At(top, k', l');
      } else if k >= n && k' >= n {
        assert At(lv, k - n, l) && At(lv, k' - n, l');
      }
    }
  }

  lemma JoinedLink(p: nat, g: nat, m: Memory, top: Levels, lv: Levels, k: nat, l: nat)
    requires Tree(g, m, top) && Tree(g, m, lv) && Sized(p, g, m) && Buckets(top) !! Buckets(lv)
    requires |top[|top| - 1]| >= 1 && At(top + lv, k, l) && k > 0
    requires top[|top| - 1][0] in m
    ensures Link(g, SetPtr(m, top[|top| - 1][0], 0, lv[0][0]), top + lv, k, l)
  {
    var n := |top|;
    assert At(top, n - 1, 0) && top[n-1][0] in Buckets(top);
    if k < n {
      assert Link(g, m, top, k, l);
    } else if k > n {
      assert Link(g, m, lv, k - n, l);
      assert lv[k-n-1][l / g] in Buckets(lv);
    } else {
      assert At(lv, 0, l) && l == 0;
    }
  }

  /** The tree that keeps the first `counts[i]` buckets of the layers from `d` on. */
  ghost function Kept(lv: Levels, counts: seq<nat>, d: nat): Levels
    requires d <= |lv| == |counts| && forall i | 0 <= i < |lv| :: counts[i] <= |lv[i]|
  {
    seq(|lv| - d, i requires 0 <= i < |lv| - d => lv[i+d][..counts[i+d]])
  }

  lemma PrunedLink(g: nat, m: Memory, lv: Levels, counts: seq<nat>, d: nat, i: nat, j: nat)
    requires Tree(g, m, lv) && d < |lv| == |counts| && forall i | 0 <= i < |lv| :: counts[i] <= |lv[i]|
    requires Stacked(g, counts, d) && At(Kept(lv, counts, d), i, j) && i > 0
    ensures Link(g, m, Kept(lv, counts, d), i, j)
  {
    assert Link(g, m, lv, i + d, j) && Over(g, counts, i + d);
    ParentBelow(j, counts[i+d], g);
  }

  lemma PruneTree(g: nat, m: Memory, m': Memory, lv: Levels, counts: seq<nat>, d: nat)
    requires Tree(g, m, lv) && d < |lv| == |counts| && forall i | 0 <= i < |lv| :: counts[i] <= |lv[i]|
    requires counts[d] == 1 && Stacked(g, counts, d)
    requires forall a | a in Buckets(Kept(lv, counts, d)) :: a in m' && m'[a] == m[a]
    ensures Tree(g, m', Kept(lv, counts, d))
  {
    var k := Kept(lv, counts, d);
    forall i, j | At(k, i, j) ensures At(lv, i + d, j) && k[i][j] == lv[i+d][j] && k[i][j] in Buckets(k) {}
    forall i, j ensures Link(g, m', k, i, j) {
      if At(k, i, j) && i > 0 { PrunedLink(g, m, lv, counts, d, i, j); }
    }
    forall i, j, i', j' | At(k, i, j) && At(k, i', j') && k[i][j] == k[i'][j'] ensures i == i' && j == j' {
      assert At(lv, i + d, j) && At(lv, i' + d, j');
    }
  }

  /** From `m` to `m'` only fresh buckets were added, all of them to the tree; items
      are untouched and so is everything outside the tree. */
  ghost predicate Extends(m: Memory, lv: Levels, m': Memory, lv': Levels) {
    && m.Keys <= m'.Keys
    && (forall a | a in m :: m'[a].items == m[a].items)
    && (forall a | a in m && a !in Buckets(lv) :: m'[a] == m[a])
    && Buckets(lv') == Buckets(lv) + (m'.Keys - m.Keys)
  }

  lemma ExtendsSelf(m: Memory, lv: Levels)
    ensures Extends(m, lv, m, lv)
  {
  }

  lemma ExtendsTwice(m1: Memory, lv1: Levels, m2: Memory, lv2: Levels, m3: Memory, lv3: Levels)
    requires Extends(m1, lv1, m2, lv2) && Extends(m2, lv2, m3, lv3)
    ensures Extends(m1, lv1, m3, lv3)
  {
  }

  lemma AddExtends(p: nat, g: nat, m: Memory, lv: Levels, i: nat, a: Addr, c: Bucket)
    requires Tree(g, m, lv) && Sized(p, g, m) && 1 <= i < |lv| && a !in m
    requires |c.items| == p && |c.ptrs| == g
    requires At(lv, i - 1, |lv[i]| / g)
    ensures Extends(m, lv, SetPtr(m[a := c], lv[i-1][|lv[i]| / g], |lv[i]| % g, a), Added(lv, i, a))
  {
    var lv' := Added(lv, i, a);
    assert lv[i-1][|lv[i]| / g] in Buckets(lv);
    forall x | x in Buckets(lv') ensures x in Buckets(lv) + {a} {
      var k, l :| At(lv', k, l) && x == lv'[k][l];
      AddedAt(lv, i, a, k, l);
    }
    forall x | x in Buckets(lv) + {a} ensures x in Buckets(lv') {
      if x == a {
        assert lv'[i][|lv[i]|] == a;
      } else {
        var k, l :| At(lv, k, l) && x == lv[k][l];
        assert lv'[k][l] == x;
      }
    }
  }

  /** An empty layer below a tree. */
  lemma EmptyLayer(g: nat, m: Memory, lv: Levels)
    requires Tree(g, m, lv)
    ensures Tree(g, m, lv + [[]]) && Buckets(lv + [[]]) == Buckets(lv)
  {
    var lv' := lv + [[]];
    forall i, j | At(lv', i, j) ensures At(lv, i, j) && lv'[i] == lv[i] {}
    forall a | a in Buckets(lv) ensures a in Buckets(lv') {
      var i, j :| At(lv, i, j) && a == lv[i][j];
      assert a == lv'[i][j];
    }
    forall i, j ensures Link(g, m, lv', i, j) {
      assert Link(g, m, lv, i, j);
    }
  }

  lemma BucketsJoin(top: Levels, lv: Levels)
    ensures Buckets(top + lv) == Buckets(top) + Buckets(lv)
  {
    var all := top + lv;
    forall a | a in Buckets(all) ensures a in Buckets(top) + Buckets(lv) {
      var i, j := Find(all, a);
      if i < |top| { Member(top, i, j); } else { Member(lv, i - |top|, j); }
    }
    forall a | a in Buckets(top) ensures a in Buckets(all) {
      var i, j := Find(top, a);
      Member(all, i, j);
    }
    forall a | a in Buckets(lv) ensures a in Buckets(all) {
      var i, j := Find(lv, a);
      Member(all, i + |top|, j);
    }
  }

  /** A tree with one bucket. */
  lemma SingleTree(g: nat, m: Memory, a: Addr)
    requires g > 0 && a in m
    ensures Tree(g, m, [[a]]) && Buckets([[a]]) == {a}
  {
    var lv := [[a]];
    Member(lv, 0, 0);
    forall i, j ensures Link(g, m, lv, i, j) {}
  }

  /** New upper layers over an old tree add fresh buckets only. */
  lemma JoinExtends(m: Memory, lv: Levels, a: Addr, c: Bucket, m': Memory, top: Levels, slot: Addr, b: Addr)
    requires a !in m && Buckets(lv) <= m.Keys
    requires Extends(m[a := c], [[a]], m', top) && Buckets([[a]]) == {a}
    requires slot in Buckets(top) && slot in m' && |m'[slot].ptrs| > 0
    ensures Extends(m, lv, SetPtr(m', slot, 0, b), top + lv)
    ensures Buckets(top) !! Buckets(lv) && forall x | x in m :: x in m' && m'[x] == m[x]
  {
    BucketsJoin(top, lv);
  }

  /** A new root with new layers below it takes over an old tree. */
  lemma PutOnTop(p: nat, g: nat, m: Memory, lv: Levels, a: Addr, c: Bucket, m': Memory, top: Levels)
    requires Tree(g, m, lv) && a !in m && Tree(g, m', top) && Sized(p, g, m') && |top[|top| - 1]| >= 1
    requires a in m' && Extends(m[a := c], [[a]], m', top)
    ensures top[|top| - 1][0] in m' && |m'[top[|top| - 1][0]].ptrs| == g
    ensures Tree(g, SetPtr(m', top[|top| - 1][0], 0, lv[0][0]), top + lv)
    ensures Extends(m, lv, SetPtr(m', top[|top| - 1][0], 0, lv[0][0]), top + lv)
  {
    assert At(top, |top| - 1, 0);
    Member(top, |top| - 1, 0);
    SingleTree(g, m', a);
    forall b | b in Buckets(lv) ensures b in m {
      var i, j := Find(lv, b);
    }
    JoinExtends(m, lv, a, c, m', top, top[|top| - 1][0], lv[0][0]);
    SameTree(g, m, m', lv);
    JoinTrees(p, g, m', top, lv);
  }

  /** The buckets released when layers are cut down to `counts`, bottom layer first,
      once all layers below `i` are done and layer `i` is done down to bucket `j`. */
  ghost function Dropped(lv: Levels, counts: seq<nat>, i: int, j: int): set<Addr>
    requires |lv| == |counts|
  {
    set k, l | 0 <= k < |lv| && 0 <= l < |lv[k]| && ((k > i && l >= counts[k]) || (k == i && l >= j)) :: lv[k][l]
  }

  /** The bucket at a position is among the dropped ones exactly when the position is cut. */
  lemma DroppedAt(lv: Levels, counts: seq<nat>, i: int, j: int, k: nat, l: nat)
    requires |lv| == |counts| && Apart(lv) && At(lv, k, l)
    ensures lv[k][l] in Dropped(lv, counts, i, j) <==> ((k > i && l >= counts[k]) || (k == i && l >= j))
  {
    if lv[k][l] in Dropped(lv, counts, i, j) {
      var k', l' :| At(lv, k', l') && ((k' > i && l' >= counts[k']) || (k' == i && l' >= j)) && lv[k'][l'] == lv[k][l];
    }
  }

  lemma DroppedWithin(lv: Levels, counts: seq<nat>, i: int, j: int)
    requires |lv| == |counts|
    ensures Dropped(lv, counts, i, j) <= Buckets(lv)
  {
  }

  /** Two sets of buckets of a tree are equal if they agree on every position. */
  lemma SameBuckets(lv: Levels, x: set<Addr>, y: set<Addr>)
    requires x <= Buckets(lv) && y <= Buckets(lv)
    requires forall k, l | At(lv, k, l) :: lv[k][l] in x <==> lv[k][l] in y
    ensures x == y
  {
    forall a | a in Buckets(lv) ensures a in x <==> a in y {
      var k, l := Find(lv, a);
    }
  }

  lemma DropNone(lv: Levels, counts: seq<nat>)
    requires |lv| == |counts| > 0
    ensures Dropped(lv, counts, |lv| - 1, |lv[|lv| - 1]|) == {}
  {
  }

  lemma DropOne(lv: Levels, counts: seq<nat>, i: nat, j: nat)
    requires |lv| == |counts| && At(lv, i, j) && Apart(lv)
    ensures Dropped(lv, counts, i, j) == Dropped(lv, counts, i, j + 1) + {lv[i][j]}
    ensures lv[i][j] !in Dropped(lv, counts, i, j + 1)
  {
    var d, d' := Dropped(lv, counts, i, j), Dropped(lv, counts, i, j + 1) + {lv[i][j]};
    DroppedWithin(lv, counts, i, j);
    DroppedWithin(lv, counts, i, j + 1);
    Member(lv, i, j);
    forall k, l | At(lv, k, l) ensures lv[k][l] in d <==> lv[k][l] in d' {
      DroppedAt(lv, counts, i, j, k, l);
      DroppedAt(lv, counts, i, j + 1, k, l);
    }
    SameBuckets(lv, d, d');
    DroppedAt(lv, counts, i, j + 1, i, j);
  }

  lemma DropLayer(lv: Levels, counts: seq<nat>, i: nat)
    requires |lv| == |counts| && 0 < i < |lv| && Apart(lv)
    ensures Dropped(lv, counts, i, counts[i]) == Dropped(lv, counts, i - 1, |lv[i-1]|)
  {
    var d, d' := Dropped(lv, counts, i, counts[i]), Dropped(lv, counts, i - 1, |lv[i-1]|);
    DroppedWithin(lv, counts, i, counts[i]);
    DroppedWithin(lv, counts, i - 1, |lv[i-1]|);
    forall k, l | At(lv, k, l) ensures lv[k][l] in d <==> lv[k][l] in d' {
      DroppedAt(lv, counts, i, counts[i], k, l);
      DroppedAt(lv, counts, i - 1, |lv[i-1]|, k, l);
    }
    SameBuckets(lv, d, d');
  }

  lemma KeptAt(lv: Levels, counts: seq<nat>, d: nat, k: nat, l: nat)
    requires Apart(lv) && d <= |lv| == |counts| && At(lv, k, l) && forall i | 0 <= i < |lv| :: counts[i] <= |lv[i]|
    ensures lv[k][l] in Buckets(Kept(lv, counts, d)) <==> k >= d && l < counts[k]
  {
    var kept := Kept(lv, counts, d);
    if k >= d && l < counts[k] {
      Member(kept, k - d, l);
    }
    if lv[k][l] in Buckets(kept) {
      var i, j := Find(kept, lv[k][l]);
      assert At(lv, i + d, j) && lv[i+d][j] == lv[k][l];
    }
  }

  lemma KeptWithin(lv: Levels, counts: seq<nat>, d: nat)
    requires d <= |lv| == |counts| && forall i | 0 <= i < |lv| :: counts[i] <= |lv[i]|
    ensures Buckets(Kept(lv, counts, d)) <= Buckets(lv)
  {
    var kept := Kept(lv, counts, d);
    forall a | a in Buckets(kept) ensures a in Buckets(lv) {
      var i, j := Find(kept, a);
      Member(lv, i + d, j);
    }
  }

  /** What is released bottom-up, and the old root if layers went away, is exactly
      what the smaller tree does not keep. */
  lemma DroppedRest(lv: Levels, counts: seq<nat>, d: nat)
    requires Apart(lv) && d < |lv| == |counts| && |lv[0]| == 1 && forall i | 0 <= i < |lv| :: counts[i] <= |lv[i]|
    requires counts[d] == 1 && forall i | 0 <= i < d :: counts[i] == 0
    ensures Dropped(lv, counts, 0, 1) + (if d > 0 then {lv[0][0]} else {}) == Buckets(lv) - Buckets(Kept(lv, counts, d))
    ensures lv[0][0] !in Dropped(lv, counts, 0, 1)
  {
    var rest := Buckets(lv) - Buckets(Kept(lv, counts, d));
    var drop := Dropped(lv, counts, 0, 1) + (if d > 0 then {lv[0][0]} else {});
    DroppedWithin(lv, counts, 0, 1);
    Member(lv, 0, 0);
    forall k, l | At(lv, k, l) ensures lv[k][l] in drop <==> lv[k][l] in rest {
      DroppedAt(lv, counts, 0, 1, k, l);
      KeptAt(lv, counts, d, k, l);
      Member(lv, k, l);
      assert At(lv, 0, 0);
    }
    SameBuckets(lv, drop, rest);
    DroppedAt(lv, counts, 0, 1, 0, 0);
  }

  /** Releasing those buckets leaves the smaller tree and everything else. */
  lemma CutTree(p: nat, g: nat, m: Memory, m': Memory, lv: Levels, counts: seq<nat>, d: nat)
    requires Tree(g, m, lv) && Sized(p, g, m) && d < |lv| == |counts|
    requires forall i | 0 <= i < |lv| :: counts[i] <= |lv[i]|
    requires counts[d] == 1 && Stacked(g, counts, d)
    requires forall i | 0 <= i < d :: counts[i] == 0
    requires m' == m - Dropped(lv, counts, 0, 1) - (if d > 0 then {lv[0][0]} else {})
    ensures Tree(g, m', Kept(lv, counts, d)) && Sized(p, g, m') && Buckets(Kept(lv, counts, d)) <= Buckets(lv)
    ensures m' == m - (Buckets(lv) - Buckets(Kept(lv, counts, d)))
  {
    DroppedRest(lv, counts, d);
    KeptWithin(lv, counts, d);
    forall a | a in Buckets(Kept(lv, counts, d)) ensures a in m' && m'[a] == m[a] {
      var i, j := Find(lv, a);
    }
    PruneTree(g, m, m', lv, counts, d);
  }
}
