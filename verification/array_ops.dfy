/** Array operations of the host code (cumulative sums, repeats, ranges, masks), and where entries land in them. */
module ArrayOps {

  // ----- array operations -----

  function Sum(s: seq<int>): int { if s == [] then 0 else Sum(s[..|s|-1]) + s[|s|-1] }

  /** `cumsum`. */
  function Cumsum(s: seq<int>): (c: seq<int>)
    ensures |c| == |s|
  {
    if s == [] then [] else Cumsum(s[..|s|-1]) + [Sum(s)]
  }

  /** `repeat`: value i, counts[i] times. */
  function Repeat<T>(values: seq<T>, counts: seq<int>): seq<T>
    requires |values| == |counts|
  {
    if counts == [] then []
    else
      var n := |counts| - 1;
      Repeat(values[..n], counts[..n]) + seq(if counts[n] > 0 then counts[n] else 0, _ => values[n])
  }

  /** 0 .. counts[0], 0 .. counts[1], ... */
  function Aranges(counts: seq<int>): seq<int> {
    if counts == [] then []
    else
      var n := |counts| - 1;
      Aranges(counts[..n]) + seq(if counts[n] > 0 then counts[n] else 0, j => j)
  }

  function Plus(a: seq<int>, b: seq<int>): (c: seq<int>)
    requires |a| == |b|
    ensures |c| == |a|
  {
    seq(|a|, i requires 0 <= i < |a| => a[i] + b[i])
  }

  function Minus(a: seq<int>, b: seq<int>): (c: seq<int>)
    requires |a| == |b|
    ensures |c| == |a|
  {
    seq(|a|, i requires 0 <= i < |a| => a[i] - b[i])
  }

  /** Boolean indexing: the rows whose mask is set, in order. */
  function Compress<T>(rows: seq<T>, mask: seq<bool>): seq<T>
    requires |rows| == |mask|
  {
    if rows == [] then []
    else
      var n := |rows| - 1;
      Compress(rows[..n], mask[..n]) + if mask[n] then [rows[n]] else []
  }

  function Flatten<T>(rows: seq<seq<T>>): seq<T> {
    if rows == [] then [] else Flatten(rows[..|rows|-1]) + rows[|rows|-1]
  }

  // ----- where things land in them -----

  ghost predicate Counts(counts: seq<int>) {
    forall i :: 0 <= i < |counts| ==> counts[i] >= 0
  }

  lemma {:induction false} CumsumAt(s: seq<int>, i: nat)
    requires i < |s|
    ensures Cumsum(s)[i] == Sum(s[..i + 1]) == Sum(s[..i]) + s[i]
    decreases |s|
  {
    var n := |s| - 1;
    assert s[..i + 1][..i] == s[..i];
    if i < n {
      CumsumAt(s[..n], i);
      assert s[..n][..i + 1] == s[..i + 1] && s[..n][..i] == s[..i];
    } else {
      assert s[..n + 1] == s;
    }
  }

  lemma {:induction false} SumMonotone(s: seq<int>, i: nat, k: nat)
    requires Counts(s) && i <= k <= |s|
    ensures 0 <= Sum(s[..i]) <= Sum(s[..k])
    decreases k
  {
    if i < k {
      SumMonotone(s, i, k - 1);
      assert s[..k][..k - 1] == s[..k - 1];
    } else if i > 0 {
      SumMonotone(s, i - 1, i - 1);
      assert s[..i][..i - 1] == s[..i - 1];
    }
  }

  /** Entry j of block i of a repeat and of the ranges, and their length. */
  lemma {:induction false} BlockAt<T>(values: seq<T>, counts: seq<int>, i: nat, j: nat)
    requires Counts(counts) && |values| == |counts| && i < |counts| && j < counts[i]
    ensures 0 <= Sum(counts[..i]) && Sum(counts[..i]) + j < Sum(counts)
    ensures |Repeat(values, counts)| == |Aranges(counts)| == Sum(counts)
    ensures Repeat(values, counts)[Sum(counts[..i]) + j] == values[i] && Aranges(counts)[Sum(counts[..i]) + j] == j
    decreases |counts|
  {
    var n := |counts| - 1;
    BlockLength(values, counts);
    BlockLength(values[..n], counts[..n]);
    SumMonotone(counts, i, n);
    if i < n {
      BlockAt(values[..n], counts[..n], i, j);
      assert counts[..n][..i] == counts[..i];
    }
  }

  lemma {:induction false} BlockLength<T>(values: seq<T>, counts: seq<int>)
    requires Counts(counts) && |values| == |counts|
    ensures |Repeat(values, counts)| == |Aranges(counts)| == Sum(counts) >= 0
  {
    if counts != [] {
      BlockLength(values[..|counts|-1], counts[..|counts|-1]);
    }
  }

  lemma {:induction false} FlattenAt<T>(rows: seq<seq<T>>, lengths: seq<int>, r: nat, t: nat)
    requires |lengths| == |rows| && r < |rows| && t < |rows[r]|
    requires forall i :: 0 <= i < |rows| ==> |rows[i]| == lengths[i]
    ensures Sum(lengths[..r]) >= 0 && |Flatten(rows)| == Sum(lengths) > Sum(lengths[..r]) + t
    ensures Flatten(rows)[Sum(lengths[..r]) + t] == rows[r][t]
    decreases |rows|
  {
    var n := |rows| - 1;
    FlattenLength(rows, lengths);
    FlattenLength(rows[..n], lengths[..n]);
    SumMonotone(lengths, r, n);
    if r < n {
      FlattenAt(rows[..n], lengths[..n], r, t);
      assert lengths[..n][..r] == lengths[..r];
    }
  }

  lemma {:induction false} FlattenLength<T>(rows: seq<seq<T>>, lengths: seq<int>)
    requires |lengths| == |rows| && forall i :: 0 <= i < |rows| ==> |rows[i]| == lengths[i]
    ensures |Flatten(rows)| == Sum(lengths)
  {
    if rows != [] {
      FlattenLength(rows[..|rows|-1], lengths[..|rows|-1]);
    }
  }

  lemma {:induction false} SumOfEqual(s: seq<int>, v: int, n: nat)
    requires n <= |s| && forall i :: 0 <= i < n ==> s[i] == v
    ensures Sum(s[..n]) == n * v
  {
    if n > 0 {
      SumOfEqual(s, v, n - 1);
      assert s[..n][..n - 1] == s[..n - 1];
      assert n * v == (n - 1) * v + v;
    }
  }

  lemma {:induction false} CompressJoin<T>(a: seq<T>, b: seq<T>, m: seq<bool>, k: seq<bool>)
    requires |a| == |m| && |b| == |k|
    ensures Compress(a + b, m + k) == Compress(a, m) + Compress(b, k)
    decreases |b|
  {
    if b == [] {
      assert a + b == a && m + k == m;
    } else {
      var n := |b| - 1;
      CompressJoin(a, b[..n], m, k[..n]);
      assert (a + b)[..|a| + n] == a + b[..n] && (m + k)[..|a| + n] == m + k[..n];
    }
  }

  lemma {:induction false} CompressPrefix<T>(rows: seq<T>, mask: seq<bool>, n: nat)
    requires |mask| == |rows| && n <= |rows| && forall t :: 0 <= t < |rows| ==> mask[t] == (t < n)
    ensures Compress(rows, mask) == rows[..n]
    decreases |rows|
  {
    if rows != [] {
      var k := |rows| - 1;
      if n <= k {
        CompressPrefix(rows[..k], mask[..k], n);
      } else {
        CompressPrefix(rows[..k], mask[..k], k);
        assert rows == rows[..k] + [rows[k]];
      }
    }
  }
}
