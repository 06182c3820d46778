/** Division facts about aligned blocks, and reorderings of sequences; shared by several components. */
module Arithmetic {

  function Min(a: int, b: int): int { if a <= b then a else b }
  function Max(a: int, b: int): int { if a <= b then b else a }
  function MinNat(a: nat, b: nat): nat { if a <= b then a else b }

  function CeilDiv(a: nat, b: nat): nat requires b > 0 { (a + b - 1) / b }

  /** Multiplication by a natural number is monotone. */
  lemma {:induction false} MulLe(a: int, b: int, c: nat)
    requires a <= b
    ensures a * c <= b * c && (a + 1) * c == a * c + c
    decreases b - a
  {
    if a < b {
      MulLe(a, b - 1, c);
      assert b * c == (b - 1) * c + c;
    }
  }

  lemma DivUnique(x: int, d: int, q: int, r: int)
    requires d > 0 && x == d * q + r && 0 <= r < d
    ensures x / d == q && x % d == r
  {
    var e := x / d - q;
    assert d * e == d * (x / d) - d * q == r - x % d;
    assert e >= 1 ==> d * e >= d;
    assert e <= -1 ==> d * e <= -d;
  }

  /** n elements fill all but the last of their ceil(n / w) blocks of w. */
  lemma CeilDivBounds(n: nat, w: nat)
    requires w > 0
    ensures (CeilDiv(n, w) - 1) * w < n <= CeilDiv(n, w) * w || n == CeilDiv(n, w) == 0
  {
    var q := CeilDiv(n, w);
    assert n + w - 1 == w * q + (n + w - 1) % w;
    if n == 0 {
      DivUnique(w - 1, w, 0, w - 1);
    }
  }

  /** The m-block of an aligned start b is b .. b + m. */
  lemma InBlock(b: nat, k: nat, m: nat)
    requires m > 0 && b % m == 0
    ensures b <= k < b + m <==> k / m == b / m
  {
    assert b == m * (b / m);
    assert k == m * (k / m) + k % m;
    if b <= k < b + m {
      DivUnique(k, m, b / m, k - b);
    }
  }

  /** An aligned start of an m-block is either an aligned start of a 2m-block, or its middle. */
  lemma HalfBlock(b: nat, m: nat)
    requires m > 0 && b % m == 0
    ensures (b / m) % 2 == 0 ==> b % (2 * m) == 0 && b / (2 * m) * (2 * m) == b
    ensures (b / m) % 2 == 1 ==> b >= m && (b - m) % (2 * m) == 0 && (b - m) % m == 0 && (b - m) / m == b / m - 1
  {
    var a := b / m;
    assert b == m * a;
    if a % 2 == 0 {
      EvenMultiple(m, a / 2);
    } else {
      OddMultiple(m, a / 2);
    }
  }

  lemma EvenMultiple(m: nat, c: nat)
    requires m > 0
    ensures m * (2 * c) % (2 * m) == 0 && m * (2 * c) / (2 * m) * (2 * m) == m * (2 * c)
  {
    assert m * (2 * c) == (2 * m) * c;
    DivUnique(m * (2 * c), 2 * m, c, 0);
  }

  lemma OddMultiple(m: nat, c: nat)
    requires m > 0
    ensures var b := m * (2 * c + 1);
            b >= m && (b - m) % (2 * m) == 0 && (b - m) % m == 0 && (b - m) / m == 2 * c
  {
    var b := m * (2 * c + 1);
    assert b == m * (2 * c) + m;
    EvenMultiple(m, c);
    DivUnique(b - m, m, 2 * c, 0);
  }

  /** The start of the 2m-block of k is also the start of an m-block. */
  lemma BlockStart(k: nat, w: nat)
    requires w > 0
    ensures k - k % w >= 0 && (k - k % w) % w == 0 && (k - k % w) / w == k / w
  {
    assert k == w * (k / w) + k % w;
    assert w * (k / w) >= 0;
    DivUnique(k - k % w, w, k / w, 0);
  }

  /** An aligned block that starts below an aligned end stays below it. */
  lemma BlockFits(c: nat, w: nat, n: nat)
    requires w > 0 && c % w == 0 && n % w == 0 && c < n
    ensures c + w <= n
  {
    var e := n / w - c / w;
    assert n - c == w * (n / w) - w * (c / w) == w * e;
    assert e <= 0 ==> w * e <= 0;
    assert e >= 1 ==> w * e >= w;
  }

  lemma MultipleOfMultiple(s: nat, w: nat, d: nat)
    requires d > 0 && w > 0 && s % w == 0 && w % d == 0
    ensures s % d == 0
  {
    var a, e := s / w, w / d;
    assert s == (d * e) * a == d * (e * a);
    DivUnique(s, d, e * a, 0);
  }

  /** An aligned d-block lies in one w-block when d divides w. */
  lemma BlockInside(c: nat, d: nat, w: nat)
    requires d > 0 && w > 0 && c % d == 0 && w % d == 0
    ensures forall k :: c <= k < c + d ==> k / w == c / w
  {
    BlockStart(c, w);
    var s := c - c % w;
    MultipleOfMultiple(s, w, d);
    assert s == d * (s / d) && w == d * (w / d);
    assert s + w == d * (s / d + w / d);
    DivUnique(s + w, d, s / d + w / d, 0);
    BlockFits(c, d, s + w);
    forall k | c <= k < c + d
      ensures k / w == c / w
    {
      InBlock(s, k, w);
    }
  }

  /** Moving the last element into place j and dropping the end loses exactly x[j]. */
  lemma DropAt<T>(x: seq<T>, j: nat)
    requires j < |x|
    ensures multiset(x) == multiset(x[j := x[|x|-1]][..|x|-1]) + multiset{x[j]}
  {
    var n := |x|;
    var x' := x[j := x[n-1]][..n-1];
    if j == n - 1 {
      assert x == x' + [x[j]];
    } else {
      assert x == x[..j] + [x[j]] + x[j+1..n-1] + [x[n-1]];
      assert x' == x[..j] + [x[n-1]] + x[j+1..n-1];
    }
  }

  /** Reading a sequence through a permutation of its indices keeps its multiset. */
  lemma {:induction false} PermutedMultiset<T>(x: seq<T>, y: seq<T>, p: seq<nat>)
    requires |x| == |y| == |p|
    requires forall k :: 0 <= k < |p| ==> p[k] < |x| && y[k] == x[p[k]]
    requires forall i, j :: 0 <= i < j < |p| ==> p[i] != p[j]
    ensures multiset(x) == multiset(y)
    decreases |x|
  {
    var n := |x|;
    if n == 0 {
      assert x == y;
    } else {
      var j := p[n-1];
      var x' := x[j := x[n-1]][..n-1];
      var p' := seq(n - 1, k requires 0 <= k < n - 1 => if p[k] == n - 1 then j else p[k]);
      var y' := y[..n-1];
      assert forall k :: 0 <= k < n - 1 ==> p'[k] < n - 1 && y'[k] == x'[p'[k]];
      PermutedMultiset(x', y', p');
      DropAt(x, j);
      assert y == y' + [x[j]];
    }
  }

  /** The last element of a sits somewhere in b, and dropping both keeps the multisets equal. */
  lemma PairedWith<T>(a: seq<T>, b: seq<T>) returns (j: nat)
    requires multiset(a) == multiset(b) && a != []
    ensures j < |b| && b[j] == a[|a|-1] && multiset(a[..|a|-1]) == multiset(b[..j] + b[j+1..])
  {
    var n := |a| - 1;
    assert a[n] in multiset(b);
    j :| 0 <= j < |b| && b[j] == a[n];
    Without(a, n);
    Without(b, j);
    assert a[..n] + a[n+1..] == a[..n];
  }

  lemma Without<T>(b: seq<T>, j: nat)
    requires j < |b|
    ensures multiset(b[..j] + b[j+1..]) == multiset(b) - multiset{b[j]}
  {
    assert b == b[..j] + [b[j]] + b[j+1..];
  }

  /** Indices of the set flags, in order. */
  function Where(flags: seq<bool>): (w: seq<nat>)
    ensures forall i :: 0 <= i < |w| ==> w[i] < |flags| && flags[w[i]]
  {
    if flags == [] then []
    else
      var n := |flags| - 1;
      Where(flags[..n]) + if flags[n] then [n] else []
  }

  ghost predicate Ascending(s: seq<nat>) {
    forall i, j :: 0 <= i < j < |s| ==> s[i] < s[j]
  }

  lemma {:induction false} WhereAscends(flags: seq<bool>)
    ensures Ascending(Where(flags))
  {
    if flags != [] {
      WhereAscends(flags[..|flags|-1]);
    }
  }

  lemma {:induction false} WhereHas(flags: seq<bool>, p: nat) returns (k: nat)
    requires p < |flags| && flags[p]
    ensures k < |Where(flags)| && Where(flags)[k] == p
  {
    var n := |flags| - 1;
    if p < n {
      k := WhereHas(flags[..n], p);
    } else {
      k := |Where(flags[..n])|;
    }
  }

  function Negated(flags: seq<bool>): (r: seq<bool>)
    ensures |r| == |flags| && forall i :: 0 <= i < |r| ==> r[i] == !flags[i]
  {
    seq(|flags|, i requires 0 <= i < |flags| => !flags[i])
  }

  /** The set flags below d come first in the list. */
  lemma {:induction false} WhereBelow(flags: seq<bool>, d: nat, k: nat)
    requires d <= |flags| && k < |Where(flags)|
    ensures |Where(flags[..d])| <= |Where(flags)|
    ensures Where(flags)[k] < d <==> k < |Where(flags[..d])|
    decreases |flags|
  {
    var n := |flags| - 1;
    if d == |flags| {
      assert flags[..d] == flags;
    } else if k < |Where(flags[..n])| {
      WhereBelow(flags[..n], d, k);
      assert flags[..n][..d] == flags[..d];
    } else {
      WhereShorter(flags[..n], d);
      assert flags[..n][..d] == flags[..d];
    }
  }

  lemma {:induction false} WhereShorter(flags: seq<bool>, d: nat)
    requires d <= |flags|
    ensures |Where(flags[..d])| <= |Where(flags)|
    decreases |flags|
  {
    if d < |flags| {
      WhereShorter(flags[..|flags|-1], d);
      assert flags[..|flags|-1][..d] == flags[..d];
    } else {
      assert flags[..d] == flags;
    }
  }

  /** Every index is listed once, as set or as not set. */
  lemma {:induction false} WhereSplit(flags: seq<bool>)
    ensures |Where(flags)| + |Where(Negated(flags))| == |flags|
    decreases |flags|
  {
    if flags != [] {
      WhereSplit(flags[..|flags|-1]);
      assert Negated(flags)[..|flags|-1] == Negated(flags[..|flags|-1]);
    }
  }

  lemma SwapMultiset<T>(before: seq<T>, after: seq<T>, i: nat, j: nat)
    requires i < |before| == |after| && j < |before| && after == before[i := before[j]][j := before[i]]
    ensures multiset(after) == multiset(before)
  {
  }
}
