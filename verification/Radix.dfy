/**
 The shape of a radix tree over buckets: how many buckets each layer has, and how
 many layers there are.
 */
module Radix {
  import opened Basics

  function CeilDiv(a: nat, b: nat): nat
    requires b > 0
  {
    (a + b - 1) / b
  }

  function Pow(g: nat, k: nat): nat {
    if k == 0 then 1 else g * Pow(g, k - 1)
  }

  /** The number of buckets `k` layers above `b` buckets. */
  function Above(g: nat, b: nat, k: nat): nat
    requires g > 1
  {
    if k == 0 then b else CeilDiv(Above(g, b, k - 1), g)
  }

  /** The number of layers over `b` buckets, counting their own. */
  function Depth(g: nat, b: nat): (d: nat)
    requires g > 1
    ensures d >= 1
    decreases b
  {
    if b <= 1 then 1 else CeilDivShrinks(b, g); 1 + Depth(g, CeilDiv(b, g))
  }

  /** The exact integer reading of ceil(log(n / p) / log(g)) + 1. */
  function Layers(p: nat, g: nat, n: nat): int
    requires p > 0 && g > 1 && n > 0
  {
    if n > p then LayersAbove(p, g, n) else LayersBelow(p, g, n)
  }

  function LayersAbove(p: nat, g: nat, n: nat): nat
    requires p > 0 && g > 1
    decreases n
  {
    if n <= p then 1 else CeilDivShrinks(n, g); 1 + LayersAbove(p, g, CeilDiv(n, g))
  }

  function LayersBelow(p: nat, g: nat, n: nat): int
    requires g > 1 && 0 < n
    decreases p - n
  {
    if n * g > p then 1 else MulGrows(n, g); LayersBelow(p, g, n * g) - 1
  }

  /** `k` is the ceiling of the base-`g` logarithm of `n / p`. */
  predicate IsCeilLog(p: nat, g: nat, n: nat, k: int) {
    if k >= 1 then p * Pow(g, k - 1) < n <= p * Pow(g, k)
    else n * Pow(g, -k) <= p < n * Pow(g, 1 - k)
  }

  lemma MulGrows(n: nat, g: nat)
    requires g > 1 && n > 0
    ensures n < n * g
  {
    assert n * g >= n * 2;
  }

  lemma CeilDivValue(a: nat, b: nat, q: nat)
    requires b > 0 && q == CeilDiv(a, b)
    ensures a <= q * b < a + b
  {
    assert a + b - 1 == b * q + (a + b - 1) % b;
  }

  lemma CeilDivBound(a: nat, b: nat, m: nat)
    requires b > 0
    ensures CeilDiv(a, b) <= m <==> a <= m * b
  {
    var q := CeilDiv(a, b);
    CeilDivValue(a, b, q);
    if q <= m { MulMono(q, m, b); } else { MulMono(m, q, b); }
  }

  lemma CeilDivShrinks(b: nat, g: nat)
    requires g > 1 && b > 1
    ensures CeilDiv(b, g) < b && CeilDiv(b, g) >= 1
  {
    CeilDivBound(b, g, b - 1);
    MulMono(2, g, b - 1);
    CeilDivBound(b, g, 0);
  }

  lemma CeilDivMono(a: nat, b: nat, g: nat)
    requires g > 0 && a <= b
    ensures CeilDiv(a, g) <= CeilDiv(b, g)
  {
    CeilDivBound(b, g, CeilDiv(b, g));
    CeilDivBound(a, g, CeilDiv(b, g));
  }

  lemma CeilDivSwap(n: nat, a: nat, b: nat)
    requires a > 0 && b > 0
    ensures CeilDiv(CeilDiv(n, a), b) == CeilDiv(CeilDiv(n, b), a)
  {
    CeilDivTwice(n, a, b, CeilDiv(CeilDiv(n, b), a));
    CeilDivTwice(n, b, a, CeilDiv(CeilDiv(n, b), a));
    CeilDivTwice(n, a, b, CeilDiv(CeilDiv(n, a), b));
    CeilDivTwice(n, b, a, CeilDiv(CeilDiv(n, a), b));
  }

  lemma CeilDivTwice(n: nat, a: nat, b: nat, m: nat)
    requires a > 0 && b > 0
    ensures CeilDiv(CeilDiv(n, a), b) <= m <==> n <= m * (a * b)
  {
    CeilDivBound(CeilDiv(n, a), b, m);
    CeilDivBound(n, a, m * b);
    assert m * b * a == m * (a * b);
  }

  lemma {:induction false} AboveInner(g: nat, b: nat, k: nat)
    requires g > 1
    ensures Above(g, b, k + 1) == Above(g, CeilDiv(b, g), k)
  {
    if k > 0 { AboveInner(g, b, k - 1); }
  }

  lemma {:induction false} AboveMono(g: nat, a: nat, b: nat, k: nat)
    requires g > 1 && a <= b
    ensures Above(g, a, k) <= Above(g, b, k)
  {
    if k > 0 {
      AboveMono(g, a, b, k - 1);
      CeilDivMono(Above(g, a, k - 1), Above(g, b, k - 1), g);
    }
  }

  lemma {:induction false} AbovePositive(g: nat, b: nat, k: nat)
    requires g > 1 && b >= 1
    ensures Above(g, b, k) >= 1
  {
    if k > 0 {
      AbovePositive(g, b, k - 1);
      CeilDivBound(Above(g, b, k - 1), g, 0);
    }
  }

  /** The top layer is a single bucket. */
  lemma {:induction false} DepthTop(g: nat, b: nat)
    requires g > 1 && b >= 1
    ensures Above(g, b, Depth(g, b) - 1) == 1
    decreases b
  {
    if b > 1 {
      CeilDivShrinks(b, g);
      DepthTop(g, CeilDiv(b, g));
      AboveInner(g, b, Depth(g, b) - 2);
    }
  }

  lemma {:induction false} DepthMono(g: nat, a: nat, b: nat)
    requires g > 1 && a <= b
    ensures Depth(g, a) <= Depth(g, b)
    decreases b
  {
    if a > 1 {
      CeilDivShrinks(b, g);
      CeilDivMono(a, b, g);
      DepthMono(g, CeilDiv(a, g), CeilDiv(b, g));
    }
  }

  lemma PowStep(x: nat, g: nat, k: nat)
    ensures x * Pow(g, k) * g == x * Pow(g, k + 1) == (x * g) * Pow(g, k)
    ensures x * Pow(g, 0) == x
  {
    assert Pow(g, k + 1) == g * Pow(g, k);
    assert x * Pow(g, k) * g == x * (g * Pow(g, k));
    assert (x * g) * Pow(g, k) == x * (g * Pow(g, k));
  }

  lemma LogOfQuotient(p: nat, g: nat, n: nat, k: nat)
    requires p > 0 && g > 1 && n > p && IsCeilLog(p, g, CeilDiv(n, g), k)
    ensures IsCeilLog(p, g, n, k + 1)
  {
    PowStep(p, g, k);
    if k >= 1 {
      PowStep(p, g, k - 1);
      CeilDivBound(n, g, p * Pow(g, k));
      CeilDivBound(n, g, p * Pow(g, k - 1));
    } else {
      PowStep(CeilDiv(n, g), g, 0);
      CeilDivBound(n, g, p);
    }
  }

  lemma {:induction false} LayersAboveIsLog(p: nat, g: nat, n: nat)
    requires p > 0 && g > 1 && n * g > p
    ensures IsCeilLog(p, g, n, LayersAbove(p, g, n) - 1)
    decreases n
  {
    if n > p {
      var m := CeilDiv(n, g);
      CeilDivShrinks(n, g);
      CeilDivValue(n, g, m);
      LayersAboveIsLog(p, g, m);
      LogOfQuotient(p, g, n, LayersAbove(p, g, m) - 1);
    } else {
      PowStep(n, g, 0);
    }
  }

  lemma {:induction false} LayersBelowIsLog(p: nat, g: nat, n: nat)
    requires p > 0 && g > 1 && 0 < n <= p
    ensures IsCeilLog(p, g, n, LayersBelow(p, g, n) - 1) && LayersBelow(p, g, n) <= 1
    decreases p - n
  {
    if n * g <= p {
      MulGrows(n, g);
      LayersBelowIsLog(p, g, n * g);
      var k := LayersBelow(p, g, n * g) - 1;
      PowStep(n, g, -k);
      PowStep(n, g, 1 - k);
    } else {
      PowStep(n, g, 0);
    }
  }

  /** `Layers` is one more than the rounded-up logarithm of the number of buckets. */
  lemma LayersIsLog(p: nat, g: nat, n: nat)
    requires p > 0 && g > 1 && n > 0
    ensures IsCeilLog(p, g, n, Layers(p, g, n) - 1)
  {
    if n > p {
      assert n * g >= n;
      LayersAboveIsLog(p, g, n);
    } else {
      LayersBelowIsLog(p, g, n);
    }
  }

  /** An array has a layer at all exactly when it is longer than a `g`-th of a bucket. */
  lemma LayersPositive(p: nat, g: nat, n: nat)
    requires p > 0 && g > 1 && n > 0
    ensures Layers(p, g, n) >= 1 <==> n * g > p
  {
    if n > p {
      assert n * g >= n;
    } else if n * g <= p {
      MulGrows(n, g);
      LayersBelowIsLog(p, g, n * g);
    }
  }

  /** Shrinking a one-bucket array of 128 items to one item asks for no layers. */
  lemma ShrinkTooFar()
    ensures Layers(128, 64, 1) == 0
  {
    assert LayersBelow(128, 64, 64) == 1;
  }

  lemma {:induction false} LayersAboveIsDepth(p: nat, g: nat, n: nat)
    requires p > 0 && g > 1 && n > 0
    ensures LayersAbove(p, g, n) == Depth(g, CeilDiv(n, p))
    decreases n
  {
    CeilDivBound(n, p, 1);
    if n > p {
      CeilDivShrinks(n, g);
      LayersAboveIsDepth(p, g, CeilDiv(n, g));
      CeilDivSwap(n, p, g);
    }
  }

  /** Outside that case `Layers` is the depth of the tree over the buckets. */
  lemma LayersIsDepth(p: nat, g: nat, n: nat)
    requires p > 0 && g > 1 && n * g > p
    ensures Layers(p, g, n) == Depth(g, CeilDiv(n, p))
  {
    LayersAboveIsDepth(p, g, n);
  }

  /** Two positions with the same parent and the same slot are the same. */
  lemma SlotUnique(i: nat, j: nat, g: nat)
    requires g > 0 && i / g == j / g && i % g == j % g
    ensures i == j
  {
    assert i == (i / g) * g + i % g && j == (j / g) * g + j % g;
  }

  /** The parent of a bucket below `n` lies below the rounded-up quotient. */
  lemma ParentBelow(j: nat, n: nat, g: nat)
    requires g > 0 && j < n
    ensures j / g < CeilDiv(n, g)
  {
    CeilDivBound(n, g, j / g);
    assert j == (j / g) * g + j % g;
  }
}
