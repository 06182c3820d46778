/**
 The 64-lane bitonic network of the router kernel: what one stride-m compare-exchange step does to
 the ranks held by the lanes, and why the phases sort and the merge keeps the best.

 A rank is an integer that grows as a (score, id) pair gets better; see `RouterLanes.Rank`.
 */
module Bitonic {
  import opened Arithmetic

  // ----- 0-1 reasoning: at every threshold t the lanes holding at least t form an arc -----

  /** The positions with x[k] >= t are exactly i .. j, or exactly the others. */
  ghost predicate ArcAt(x: seq<int>, t: int, i: nat, j: nat, others: bool) {
    && i <= j <= |x|
    && forall k :: 0 <= k < |x| ==> (x[k] >= t <==> ((i <= k < j) != others))
  }

  ghost predicate BitonicAt(x: seq<int>, t: int) {
    exists i: nat, j: nat, others :: ArcAt(x, t, i, j, others)
  }

  ghost predicate IsBitonic(x: seq<int>) {
    forall t :: BitonicAt(x, t)
  }


  /** lo and hi are the lane-wise minima and maxima of u and v. */
  ghost predicate Exchanged(u: seq<int>, v: seq<int>, lo: seq<int>, hi: seq<int>) {
    && |u| == |v| == |lo| == |hi|
    && forall k :: 0 <= k < |u| ==> lo[k] == Min(u[k], v[k]) && hi[k] == Max(u[k], v[k])
  }

  /** At one threshold both halves are arcs again, and the low one is empty or the high one full. */
  lemma HalfCleanAt(u: seq<int>, v: seq<int>, lo: seq<int>, hi: seq<int>, t: int)
    requires Exchanged(u, v, lo, hi)
    requires BitonicAt(u + v, t)
    ensures BitonicAt(lo, t) && BitonicAt(hi, t)
    ensures (forall k :: 0 <= k < |lo| ==> lo[k] < t) || (forall k :: 0 <= k < |hi| ==> hi[k] >= t)
  {
    var m := |u|;
    var i: nat, j: nat, others :| ArcAt(u + v, t, i, j, others);
    forall k | 0 <= k < m
      ensures u[k] >= t <==> ((i <= k < j) != others)
      ensures v[k] >= t <==> ((i <= m + k < j) != others)
    {
      assert (u + v)[k] == u[k] && (u + v)[m + k] == v[k];
    }
    // The lanes where some partner lies in i .. j, and those where both do.
    var some := if j <= m then (i, j, false) else if i >= m then (i - m, j - m, false)
                else if j - m >= i then (0, m, false) else (j - m, i, true);
    var both := if j <= m || i >= m || j - m < i then (0, 0, false) else (i, j - m, false);
    if others {
      assert ArcAt(lo, t, some.0, some.1, !some.2);
      assert ArcAt(hi, t, both.0, both.1, !both.2);
    } else {
      assert ArcAt(hi, t, some.0, some.1, some.2);
      assert ArcAt(lo, t, both.0, both.1, both.2);
    }
  }

  /** The half-cleaner: both halves stay bitonic and every low value is at most every high value. */
  lemma HalfClean(u: seq<int>, v: seq<int>, lo: seq<int>, hi: seq<int>)
    requires Exchanged(u, v, lo, hi)
    requires IsBitonic(u + v)
    ensures IsBitonic(lo) && IsBitonic(hi)
    ensures forall i, j :: 0 <= i < |lo| && 0 <= j < |hi| ==> lo[i] <= hi[j]
  {
    forall t
      ensures BitonicAt(lo, t) && BitonicAt(hi, t)
    {
      assert BitonicAt(u + v, t);
      HalfCleanAt(u, v, lo, hi, t);
    }
    forall i, j | 0 <= i < |lo| && 0 <= j < |hi|
      ensures lo[i] <= hi[j]
    {
      assert BitonicAt(u + v, lo[i]);
      HalfCleanAt(u, v, lo, hi, lo[i]);
    }
  }

  ghost predicate Monotone(x: seq<int>, rising: bool) {
    forall i, j :: 0 <= i < j < |x| ==> if rising then x[i] <= x[j] else x[i] >= x[j]
  }

  /** Rising then falling, or falling then rising, is bitonic. */
  lemma MonotonePairBitonic(u: seq<int>, v: seq<int>, rising: bool)
    requires Monotone(u, rising) && Monotone(v, !rising)
    ensures IsBitonic(u + v)
  {
    forall t
      ensures BitonicAt(u + v, t)
    {
      var p := Cut(u, t, rising);
      var q := Cut(v, t, !rising);
      assert ArcAt(u + v, t, p, |u| + q, !rising);
    }
  }

  /** A monotone stretch crosses a threshold at one place. */
  lemma Cut(x: seq<int>, t: int, rising: bool) returns (p: nat)
    requires Monotone(x, rising)
    ensures p <= |x|
    ensures forall k :: 0 <= k < |x| ==> (x[k] >= t <==> ((k >= p) == rising))
  {
    p := 0;
    while p < |x| && (x[p] >= t) != rising
      invariant p <= |x|
      invariant forall k :: 0 <= k < p ==> (x[k] >= t) != rising
    {
      p := p + 1;
    }
  }

  // ----- one compare-exchange step of stride m, over aligned blocks -----

  /** In a phase of width w, aligned w-blocks alternate between rising and falling. */
  predicate Rising(k: nat, w: nat) requires w > 0 { (k / w) % 2 == 0 }

  /** Partners m apart in block b .. b+2m are put in rising or falling order. */
  ghost predicate BlockExchanged(x: seq<int>, y: seq<int>, b: nat, m: nat, rising: bool)
    requires b + 2 * m <= |x| == |y|
  {
    if rising then Exchanged(x[b..b+m], x[b+m..b+2*m], y[b..b+m], y[b+m..b+2*m])
    else Exchanged(x[b..b+m], x[b+m..b+2*m], y[b+m..b+2*m], y[b..b+m])
  }

  ghost predicate IsStep(x: seq<int>, y: seq<int>, m: nat, w: nat)
    requires m > 0 && w > 0
  {
    && |x| == |y|
    && forall b: nat :: b + 2 * m <= |x| && b % (2 * m) == 0 ==> BlockExchanged(x, y, b, m, Rising(b, w))
  }

  /** Every aligned block of size m is bitonic. */
  ghost predicate BlocksBitonic(x: seq<int>, m: nat)
    requires m > 0
  {
    forall b: nat :: b + m <= |x| && b % m == 0 ==> IsBitonic(x[b..b+m])
  }

  /** Inside each w-block, different m-blocks are already in the order of the w-block. */
  ghost predicate BlocksOrdered(x: seq<int>, m: nat, w: nat)
    requires m > 0 && w > 0
  {
    forall i: nat, j: nat :: i < j < |x| && i / w == j / w && i / m != j / m ==>
      if Rising(i, w) then x[i] <= x[j] else x[i] >= x[j]
  }

  /** Facts about one aligned 2m-block after a step. */
  lemma BlockStep(x: seq<int>, y: seq<int>, b: nat, m: nat, rising: bool)
    requires b + 2 * m <= |x| == |y|
    requires BlockExchanged(x, y, b, m, rising)
    requires IsBitonic(x[b..b+2*m])
    ensures IsBitonic(y[b..b+m]) && IsBitonic(y[b+m..b+2*m])
    ensures forall i, j :: b <= i < b + m <= j < b + 2 * m ==> if rising then y[i] <= y[j] else y[i] >= y[j]
  {
    var u, v := x[b..b+m], x[b+m..b+2*m];
    var lo, hi := if rising then y[b..b+m] else y[b+m..b+2*m], if rising then y[b+m..b+2*m] else y[b..b+m];
    assert x[b..b+2*m] == u + v;
    HalfClean(u, v, lo, hi);
    assert forall i :: b <= i < b + m ==> y[i] == y[b..b+m][i - b];
    assert forall j :: b + m <= j < b + 2 * m ==> y[j] == y[b+m..b+2*m][j - b - m];
  }

  /** A lane's new value is an old value of its block. */
  lemma BlockSource(x: seq<int>, y: seq<int>, b: nat, m: nat, rising: bool, k: nat) returns (k': nat)
    requires b + 2 * m <= |x| == |y|
    requires BlockExchanged(x, y, b, m, rising)
    requires b <= k < b + 2 * m
    ensures b <= k' < b + 2 * m && y[k] == x[k']
  {
    var o := if k < b + m then k - b else k - b - m;
    assert x[b..b+m][o] == x[b + o] && x[b+m..b+2*m][o] == x[b + m + o];
    assert y[b..b+m][o] == y[b + o] && y[b+m..b+2*m][o] == y[b + m + o];
    k' := if y[k] == x[b + o] then b + o else b + m + o;
  }

  lemma LowerHalf(b: nat, m: nat, k: nat)
    requires m > 0 && b % (2 * m) == 0 && b <= k < b + m
    ensures b % m == 0 && k / m == b / m && (k / m) % 2 == 0
  {
    var c := b / (2 * m);
    assert b == (2 * m) * c == m * (2 * c);
    DivUnique(b, m, 2 * c, 0);
    DivUnique(k, m, 2 * c, k - b);
  }

  lemma SameHalf(b: nat, k: nat, m: nat)
    requires m > 0 && b % (2 * m) == 0 && b <= k < b + 2 * m
    ensures k / m == if k < b + m then b / m else b / m + 1
  {
    LowerHalf(b, m, b);
    var c := b / (2 * m);
    assert b == (2 * m) * c == m * (2 * c);
    if k < b + m {
      LowerHalf(b, m, k);
    } else {
      assert k == m * (2 * c + 1) + (k - b - m);
      DivUnique(k, m, 2 * c + 1, k - b - m);
      DivUnique(b, m, 2 * c, 0);
    }
  }

  /** The aligned 2m-block of a lane lies inside the vector and inside one w-block. */
  lemma BlockOf(i: nat, m: nat, w: nat, n: nat) returns (b: nat)
    requires m > 0 && w > 0 && i < n && n % (2 * m) == 0 && w % (2 * m) == 0
    ensures b % (2 * m) == 0 && b <= i < b + 2 * m <= n
    ensures forall k: nat :: b <= k < b + 2 * m <==> k / (2 * m) == i / (2 * m)
    ensures forall k :: b <= k < b + 2 * m ==> k / w == i / w
  {
    BlockStart(i, 2 * m);
    b := i - i % (2 * m);
    BlockFits(b, 2 * m, n);
    BlockInside(b, 2 * m, w);
    forall k: nat
      ensures b <= k < b + 2 * m <==> k / (2 * m) == i / (2 * m)
    {
      InBlock(b, k, 2 * m);
    }
  }

  /** A step of stride m takes ordered bitonic 2m-blocks to ordered bitonic m-blocks. */
  lemma StepRefines(x: seq<int>, y: seq<int>, m: nat, w: nat)
    requires m > 0 && w > 0 && |x| % (2 * m) == 0 && w % (2 * m) == 0
    requires IsStep(x, y, m, w)
    requires BlocksBitonic(x, 2 * m) && BlocksOrdered(x, 2 * m, w)
    ensures BlocksBitonic(y, m) && BlocksOrdered(y, m, w)
  {
    forall b: nat | b + m <= |y| && b % m == 0
      ensures IsBitonic(y[b..b+m])
    {
      HalfBlock(b, m);
      var c := if (b / m) % 2 == 0 then b else b - m;
      BlockFits(c, 2 * m, |x|);
      BlockStep(x, y, c, m, Rising(c, w));
    }
    forall i: nat, j: nat | i < j < |y| && i / w == j / w && i / m != j / m
      ensures if Rising(i, w) then y[i] <= y[j] else y[i] >= y[j]
    {
      StepOrders(x, y, m, w, i, j);
    }
  }

  lemma StepOrders(x: seq<int>, y: seq<int>, m: nat, w: nat, i: nat, j: nat)
    requires m > 0 && w > 0 && |x| % (2 * m) == 0 && w % (2 * m) == 0
    requires IsStep(x, y, m, w)
    requires BlocksBitonic(x, 2 * m) && BlocksOrdered(x, 2 * m, w)
    requires i < j < |y| && i / w == j / w && i / m != j / m
    ensures if Rising(i, w) then y[i] <= y[j] else y[i] >= y[j]
  {
    var bi := BlockOf(i, m, w, |x|);
    if i / (2 * m) == j / (2 * m) {
      SameHalf(bi, i, m);
      SameHalf(bi, j, m);
      BlockStep(x, y, bi, m, Rising(bi, w));
    } else {
      var bj := BlockOf(j, m, w, |x|);
      var i' := BlockSource(x, y, bi, m, Rising(bi, w), i);
      var j' := BlockSource(x, y, bj, m, Rising(bj, w), j);
      assert i' / (2 * m) == i / (2 * m) && j' / (2 * m) == j / (2 * m);
      assert i' < j';
    }
  }

  /** Once single lanes are ordered, every w-block is monotone and pairs of w-blocks are bitonic. */
  lemma PhaseDone(x: seq<int>, w: nat)
    requires w > 0
    requires BlocksOrdered(x, 1, w)
    ensures BlocksBitonic(x, 2 * w)
  {
    forall b: nat | b + 2 * w <= |x| && b % (2 * w) == 0
      ensures IsBitonic(x[b..b+2*w])
    {
      forall k | b <= k < b + 2 * w
        ensures k / 1 == k && k / w == (if k < b + w then b / w else b / w + 1)
        ensures Rising(k, w) == (k < b + w)
      {
        LowerHalf(b, w, b);
        SameHalf(b, k, w);
      }
      MonotonePairBitonic(x[b..b+w], x[b+w..b+2*w], true);
      assert x[b..b+2*w] == x[b..b+w] + x[b+w..b+2*w];
    }
  }
}
