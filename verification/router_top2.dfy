/**
 The group score of biased routing: the sum of the two largest selection scores of a span, computed by
 a scalar scan or by HVX lanes that are merged pairwise by rotation.
 */
module RouterTop2 {
  import opened Arithmetic
  import opened RouterLanes

  /** The most negative float: below every fp16 score and every sum of two of them. */
  const NEG_INF := -340282346638528859811704183484516925440

  // ----- specification -----

  function CountAtLeast(s: seq<int>, t: int): nat {
    if s == [] then 0 else CountAtLeast(s[..|s|-1], t) + if s[|s|-1] >= t then 1 else 0
  }

  function Reaches(a: int, t: int): nat { if a >= t then 1 else 0 }

  function UpToTwo(n: nat): nat { if n <= 2 then n else 2 }

  /** Above the floor, a >= b reach every threshold as often as the elements of s do, up to twice. */
  ghost predicate TopPairAbove(s: seq<int>, a: int, b: int, floor: int) {
    a >= b >= floor && forall t :: t > floor ==> UpToTwo(CountAtLeast(s, t)) == Reaches(a, t) + Reaches(b, t)
  }

  /** s[i] and s[j] are the two largest of s: no third element exceeds s[j]. */
  ghost predicate LargestAt(s: seq<int>, i: nat, j: nat) {
    i < |s| && j < |s| && i != j && s[i] >= s[j] && forall k :: 0 <= k < |s| && k != i && k != j ==> s[k] <= s[j]
  }

  /** The entries d and e of a span are two different ones, and no other entry of it exceeds either. */
  ghost predicate TwoLargest(scores: seq<int>, begin: nat, end: nat, d: nat, e: nat)
    requires end <= |scores|
  {
    begin <= d < end && begin <= e < end && d != e && forall f :: begin <= f < end && f != d && f != e ==> scores[f] <= scores[d] && scores[f] <= scores[e]
  }

  lemma TopPairUnique(s: seq<int>, a: int, b: int, c: int, d: int, floor: int)
    requires TopPairAbove(s, a, b, floor) && TopPairAbove(s, c, d, floor)
    ensures a == c && b == d
  {
    assert forall t :: t > floor ==> UpToTwo(CountAtLeast(s, t)) == Reaches(a, t) + Reaches(b, t) == Reaches(c, t) + Reaches(d, t);
    assert a > floor ==> Reaches(c, a) + Reaches(d, a) == Reaches(a, a) + Reaches(b, a) >= 1;
    assert c > floor ==> Reaches(a, c) + Reaches(b, c) == Reaches(c, c) + Reaches(d, c) >= 1;
    assert b > floor ==> Reaches(c, b) + Reaches(d, b) == Reaches(a, b) + Reaches(b, b) == 2;
    assert d > floor ==> Reaches(a, d) + Reaches(b, d) == Reaches(c, d) + Reaches(d, d) == 2;
  }

  lemma {:induction false} CountSplit(a: seq<int>, b: seq<int>, t: int)
    ensures CountAtLeast(a + b, t) == CountAtLeast(a, t) + CountAtLeast(b, t)
    decreases |b|
  {
    if b == [] {
      assert a + b == a;
    } else {
      assert (a + b)[..|a + b| - 1] == a + b[..|b|-1];
      CountSplit(a, b[..|b|-1], t);
    }
  }

  lemma {:induction false} CountNone(s: seq<int>, t: int)
    requires forall k :: 0 <= k < |s| ==> s[k] < t
    ensures CountAtLeast(s, t) == 0
    decreases |s|
  {
    if s != [] {
      CountNone(s[..|s|-1], t);
    }
  }

  lemma CountThirds(s: seq<int>, i: nat, j: nat, t: int)
    requires LargestAt(s, i, j)
    ensures UpToTwo(CountAtLeast(s, t)) == Reaches(s[i], t) + Reaches(s[j], t)
  {
    var p, q := if i < j then i else j, if i < j then j else i;
    var u, v, w := s[..p], s[p+1..q], s[q+1..];
    CountAround(s, p, q, t);
    if t > s[j] {
      CountNone(u, t);
      CountNone(v, t);
      CountNone(w, t);
    }
  }

  lemma CountAround(s: seq<int>, p: nat, q: nat, t: int)
    requires p < q < |s|
    ensures CountAtLeast(s, t)
         == CountAtLeast(s[..p], t) + Reaches(s[p], t) + CountAtLeast(s[p+1..q], t) + Reaches(s[q], t) + CountAtLeast(s[q+1..], t)
  {
    var u, v, w := s[..p], s[p+1..q], s[q+1..];
    assert s == ((u + [s[p]]) + v) + ([s[q]] + w);
    CountSplit((u + [s[p]]) + v, [s[q]] + w, t);
    CountSplit(u + [s[p]], v, t);
    CountSplit(u, [s[p]], t);
    CountSplit([s[q]], w, t);
    CountOne(s[p], t);
    CountOne(s[q], t);
  }

  lemma CountOne(x: int, t: int)
    ensures CountAtLeast([x], t) == Reaches(x, t)
  {
    assert [x][..0] == [];
  }

  /** Two elements at least everything else form the top pair. */
  lemma LargestIsTopPair(s: seq<int>, i: nat, j: nat, floor: int)
    requires LargestAt(s, i, j) && s[j] >= floor
    ensures TopPairAbove(s, s[i], s[j], floor)
  {
    forall t | t > floor
      ensures UpToTwo(CountAtLeast(s, t)) == Reaches(s[i], t) + Reaches(s[j], t)
    {
      CountThirds(s, i, j, t);
    }
  }

  lemma {:induction false} LargestExist(s: seq<int>)
    requires |s| > 1
    ensures exists i: nat, j: nat :: LargestAt(s, i, j)
    decreases |s|
  {
    var n := |s| - 1;
    if n == 1 {
      assert if s[0] >= s[1] then LargestAt(s, 0, 1) else LargestAt(s, 1, 0);
    } else {
      LargestExist(s[..n]);
      var i: nat, j: nat :| LargestAt(s[..n], i, j);
      assert forall k :: 0 <= k < n ==> s[k] == s[..n][k];
      assert if s[n] > s[i] then LargestAt(s, n, i) else if s[n] > s[j] then LargestAt(s, i, n) else LargestAt(s, i, j);
    }
  }

  /** The sum of the two largest elements of a span; a single element counts twice. */
  ghost function Top2Sum(s: seq<int>): (sum: int)
    requires |s| > 0
    ensures |s| == 1 ==> sum == s[0] + s[0]
    ensures |s| > 1 ==> exists i: nat, j: nat :: LargestAt(s, i, j) && sum == s[i] + s[j]
  {
    if |s| == 1 then s[0] + s[0]
    else
      LargestExist(s);
      var i: nat, j: nat :| LargestAt(s, i, j);
      s[i] + s[j]
  }

  /** Any top pair over the floor sums to Top2Sum. */
  lemma TopPairSum(s: seq<int>, a: int, b: int, floor: int)
    requires |s| > 1 && TopPairAbove(s, a, b, floor)
    requires forall k :: 0 <= k < |s| ==> s[k] >= floor
    ensures a + b == Top2Sum(s)
  {
    var sum := Top2Sum(s);
    var i: nat, j: nat :| LargestAt(s, i, j) && sum == s[i] + s[j];
    LargestIsTopPair(s, i, j, floor);
    TopPairUnique(s, a, b, s[i], s[j], floor);
  }

  // ----- scalar scan -----

  predicate BetterPair(value: int, index: int, bestValue: int, bestIndex: int) {
    value > bestValue || (value == bestValue && index < bestIndex)
  }

  /** `top2_sum_score_hf`. */
  method Top2SumScalar(scores: array<int>, begin: nat, end: nat) returns (sum: int)
    requires end <= scores.Length
    requires forall k :: begin <= k < end ==> scores[k] > NEG_INF
    ensures begin < end ==> sum == Top2Sum(scores[begin..end])
    ensures begin >= end ==> sum == NEG_INF
  {
    if end <= begin {
      return NEG_INF;
    }
    var best1, best2 := NEG_INF, NEG_INF;
    var best1Id, best2Id := begin, begin;
    var expert := begin;
    while expert < end
      invariant begin <= expert <= end
      invariant expert == begin ==> best1 == best2 == NEG_INF && best1Id == begin
      invariant expert > begin ==> begin <= best1Id < expert && best1 == scores[best1Id]
      invariant expert == begin + 1 ==> best2 == NEG_INF
      invariant expert >= begin + 2 ==> begin <= best2Id < expert && best1Id != best2Id && best1 >= best2 == scores[best2Id]
      invariant forall k :: begin <= k < expert && k != best1Id && k != best2Id ==> scores[k] <= best2
    {
      var value := scores[expert];
      if BetterPair(value, expert, best1, best1Id) {
        best2, best2Id := best1, best1Id;
        best1, best1Id := value, expert;
      } else if BetterPair(value, expert, best2, best2Id) {
        best2, best2Id := value, expert;
      }
      expert := expert + 1;
    }
    if end - begin <= 1 {
      return best1 + best1;
    }
    ghost var span := scores[begin..end];
    assert forall k :: 0 <= k < |span| ==> span[k] == scores[begin + k] > NEG_INF;
    assert LargestAt(span, best1Id - begin, best2Id - begin);
    LargestIsTopPair(span, best1Id - begin, best2Id - begin, NEG_INF);
    TopPairSum(span, best1, best2, NEG_INF);
    return best1 + best2;
  }

  // ----- HVX lanes -----


  /** One lane of `merge_top2_vectors_hf`. */
  function MergeLane(c1: int, c2: int, b1: int, b2: int): (int, int) {
    (Max(b1, c1), Max(Max(b2, c2), Min(b1, c1)))
  }

  /** The merged pair is the top pair of both lanes' elements together. */
  lemma MergeLaneTop(x: seq<int>, y: seq<int>, b1: int, b2: int, c1: int, c2: int, floor: int)
    requires TopPairAbove(x, b1, b2, floor) && TopPairAbove(y, c1, c2, floor)
    ensures var (m1, m2) := MergeLane(c1, c2, b1, b2); TopPairAbove(x + y, m1, m2, floor)
  {
    var (m1, m2) := MergeLane(c1, c2, b1, b2);
    forall t | t > floor
      ensures UpToTwo(CountAtLeast(x + y, t)) == Reaches(m1, t) + Reaches(m2, t)
    {
      CountSplit(x, y, t);
      assert UpToTwo(CountAtLeast(x, t)) == Reaches(b1, t) + Reaches(b2, t);
      assert UpToTwo(CountAtLeast(y, t)) == Reaches(c1, t) + Reaches(c2, t);
    }
  }

  /** The elements at least t held by the first n lanes together. */
  ghost function LaneTotal(bags: seq<seq<int>>, n: nat, t: int): nat
    requires n <= |bags|
  {
    if n == 0 then 0 else LaneTotal(bags, n - 1, t) + CountAtLeast(bags[n - 1], t)
  }

  ghost predicate LanesTop(bags: seq<seq<int>>, best1: seq<int>, best2: seq<int>) {
    && |bags| == |best1| == |best2| == LANES
    && forall k :: 0 <= k < LANES ==> TopPairAbove(bags[k], best1[k], best2[k], NEG_MAX)
  }

  ghost function MergedBags(bags: seq<seq<int>>, others: seq<seq<int>>): (m: seq<seq<int>>)
    requires |bags| == |others|
    ensures |m| == |bags| && forall k :: 0 <= k < |m| ==> m[k] == bags[k] + others[k]
  {
    seq(|bags|, k requires 0 <= k < |bags| => bags[k] + others[k])
  }

  /** `merge_top2_vectors_hf` on whole vectors; the bags say which elements a lane stands for. */
  method MergeTop2(ghost bags: seq<seq<int>>, ghost others: seq<seq<int>>, c1: seq<int>, c2: seq<int>, b1: seq<int>, b2: seq<int>)
    returns (r1: seq<int>, r2: seq<int>)
    requires LanesTop(bags, b1, b2) && LanesTop(others, c1, c2)
    ensures LanesTop(MergedBags(bags, others), r1, r2)
  {
    ghost var merged := MergedBags(bags, others);
    r1 := seq(LANES, k requires 0 <= k < LANES => MergeLane(c1[k], c2[k], b1[k], b2[k]).0);
    r2 := seq(LANES, k requires 0 <= k < LANES => MergeLane(c1[k], c2[k], b1[k], b2[k]).1);
    forall k | 0 <= k < LANES
      ensures TopPairAbove(merged[k], r1[k], r2[k], NEG_MAX)
    {
      MergeLaneTop(bags[k], others[k], b1[k], b2[k], c1[k], c2[k], NEG_MAX);
    }
  }

  /** The elements of one loaded chunk, lane by lane; padded lanes stand for nothing. */
  ghost function ChunkBags(s: seq<int>): (bags: seq<seq<int>>)
    requires |s| <= LANES
    ensures |bags| == LANES
  {
    seq(LANES, k requires 0 <= k < LANES => if k < |s| then [s[k]] else [])
  }

  lemma ChunkLanesTop(s: seq<int>, values: seq<int>, neg: seq<int>)
    requires |s| <= LANES && |values| == |neg| == LANES
    requires forall k :: 0 <= k < LANES ==> neg[k] == NEG_MAX && values[k] == if k < |s| then s[k] else NEG_MAX
    requires forall k :: 0 <= k < |s| ==> s[k] >= NEG_MAX
    ensures LanesTop(ChunkBags(s), values, neg)
  {
    var bags := ChunkBags(s);
    forall k | 0 <= k < LANES
      ensures TopPairAbove(bags[k], values[k], neg[k], NEG_MAX)
    {
      forall t | t > NEG_MAX
        ensures UpToTwo(CountAtLeast(bags[k], t)) == Reaches(values[k], t) + Reaches(neg[k], t)
      {
        if k < |s| {
          CountOne(s[k], t);
        }
      }
    }
  }

  lemma {:induction false} MergedTotal(bags: seq<seq<int>>, s: seq<int>, n: nat, t: int)
    requires |bags| == LANES && |s| <= LANES && n <= LANES
    ensures LaneTotal(seq(LANES, k requires 0 <= k < LANES => bags[k] + ChunkBags(s)[k]), n, t)
         == LaneTotal(bags, n, t) + CountAtLeast(s[..if n <= |s| then n else |s|], t)
    decreases n
  {
    var merged := seq(LANES, k requires 0 <= k < LANES => bags[k] + ChunkBags(s)[k]);
    if n > 0 {
      MergedTotal(bags, s, n - 1, t);
      CountSplit(bags[n - 1], ChunkBags(s)[n - 1], t);
      if n <= |s| {
        assert s[..n][..n-1] == s[..n-1];
        CountOne(s[n - 1], t);
      }
    }
  }

  /** Merging lane k with lane k + shift halves the number of lanes that carry the total. */
  lemma {:induction false} RotatedTotal(bags: seq<seq<int>>, merged: seq<seq<int>>, shift: nat, n: nat, t: int)
    requires |bags| == |merged| == LANES && n <= shift && 2 * shift <= LANES
    requires forall k :: 0 <= k < shift ==> merged[k] == bags[k] + bags[k + shift]
    ensures LaneTotal(merged, n, t) + LaneTotal(bags, shift, t) == LaneTotal(bags, n, t) + LaneTotal(bags, shift + n, t)
    decreases n
  {
    if n > 0 {
      RotatedTotal(bags, merged, shift, n - 1, t);
      CountSplit(bags[n - 1], bags[n - 1 + shift], t);
    }
  }

  function Rotate<T>(v: seq<T>, shift: nat): (r: seq<T>)
    requires |v| == LANES
    ensures |r| == LANES
  {
    seq(LANES, k requires 0 <= k < LANES => v[(k + shift) % LANES])
  }

  /** The first n lanes together hold exactly the elements of s. */
  ghost predicate Holds(bags: seq<seq<int>>, n: nat, s: seq<int>)
    requires n <= |bags|
  {
    forall t :: LaneTotal(bags, n, t) == CountAtLeast(s, t)
  }

  lemma RotationHolds(bags: seq<seq<int>>, merged: seq<seq<int>>, shift: nat, s: seq<int>)
    requires |bags| == LANES && 2 * shift <= LANES
    requires merged == seq(LANES, k requires 0 <= k < LANES => bags[k] + Rotate(bags, shift)[k])
    requires Holds(bags, 2 * shift, s)
    ensures Holds(merged, shift, s)
  {
    forall t
      ensures LaneTotal(merged, shift, t) == CountAtLeast(s, t)
    {
      forall k | 0 <= k < shift
        ensures merged[k] == bags[k] + bags[k + shift]
      {
        assert Rotate(bags, shift)[k] == bags[k + shift];
      }
      RotatedTotal(bags, merged, shift, shift, t);
      assert LaneTotal(bags, 2 * shift, t) == CountAtLeast(s, t);
    }
  }

  /** Rotation in halving steps leaves the top pair of all lanes in lane 0. */
  method ReduceTop2(ghost start: seq<seq<int>>, v1: seq<int>, v2: seq<int>, ghost s: seq<int>) returns (top1: int, top2: int)
    requires LanesTop(start, v1, v2) && Holds(start, LANES, s)
    ensures TopPairAbove(s, top1, top2, NEG_MAX)
  {
    ghost var bags := start;
    var best1, best2 := v1, v2;
    var shift := LANES / 2;
    while shift > 0
      invariant shift in {0, 1, 2, 4, 8, 16, 32}
      invariant LanesTop(bags, best1, best2)
      invariant Holds(bags, if shift == 0 then 1 else 2 * shift, s)
    {
      ghost var before := bags;
      ghost var merged := MergedBags(bags, Rotate(bags, shift));
      best1, best2 := MergeTop2(bags, Rotate(bags, shift), Rotate(best1, shift), Rotate(best2, shift), best1, best2);
      bags := merged;
      RotationHolds(before, bags, shift, s);
      shift := shift / 2;
    }
    forall t
      ensures CountAtLeast(bags[0], t) == CountAtLeast(s, t)
    {
      assert LaneTotal(bags, 1, t) == LaneTotal(bags, 0, t) + CountAtLeast(bags[0], t);
    }
    SameTopPair(bags[0], s, best1[0], best2[0]);
    return best1[0], best2[0];
  }

  lemma SameTopPair(x: seq<int>, s: seq<int>, a: int, b: int)
    requires TopPairAbove(x, a, b, NEG_MAX)
    requires forall t :: CountAtLeast(x, t) == CountAtLeast(s, t)
    ensures TopPairAbove(s, a, b, NEG_MAX)
  {
    forall t | t > NEG_MAX
      ensures UpToTwo(CountAtLeast(s, t)) == Reaches(a, t) + Reaches(b, t)
    {
      assert UpToTwo(CountAtLeast(x, t)) == Reaches(a, t) + Reaches(b, t);
    }
  }

  lemma ChunkHolds(bags: seq<seq<int>>, merged: seq<seq<int>>, seen: seq<int>, chunk: seq<int>)
    requires |bags| == LANES && |chunk| <= LANES
    requires merged == seq(LANES, k requires 0 <= k < LANES => bags[k] + ChunkBags(chunk)[k])
    requires Holds(bags, LANES, seen)
    ensures Holds(merged, LANES, seen + chunk)
  {
    forall t
      ensures LaneTotal(merged, LANES, t) == CountAtLeast(seen + chunk, t)
    {
      MergedTotal(bags, chunk, LANES, t);
      assert chunk[..|chunk|] == chunk;
      CountSplit(seen, chunk, t);
      assert LaneTotal(bags, LANES, t) == CountAtLeast(seen, t);
    }
  }

  /** `top2_sum_score_hvx_hf`: agrees with the scalar scan on every nonempty span of fp16 scores. */
  method Top2SumHvx(scores: array<int>, begin: nat, end: nat) returns (sum: int)
    requires end <= scores.Length
    requires forall k :: begin <= k < end ==> scores[k] >= NEG_MAX
    ensures begin < end ==> sum == Top2Sum(scores[begin..end])
    ensures begin >= end ==> sum == NEG_INF
  {
    if end <= begin {
      return NEG_INF;
    }
    var count := end - begin;
    var span := scores[begin..end];
    var neg := seq(LANES, _ => NEG_MAX);
    var best1, best2 := neg, neg;
    ghost var bags: seq<seq<int>> := seq(LANES, _ => []);
    EmptyLanes(bags, neg);
    var offset := 0;
    while offset < count
      invariant LanesTop(bags, best1, best2)
      invariant Holds(bags, LANES, span[..MinNat(offset, count)])
    {
      assert forall k :: 0 <= k < count ==> span[k] == scores[begin + k];
      ghost var seen := span[..offset];
      var chunk := span[offset..MinNat(offset + LANES, count)];
      var values := seq(LANES, k requires 0 <= k < LANES => if k < |chunk| then chunk[k] else NEG_MAX);
      ChunkLanesTop(chunk, values, neg);
      ghost var before := bags;
      ghost var merged := MergedBags(bags, ChunkBags(chunk));
      best1, best2 := MergeTop2(bags, ChunkBags(chunk), values, neg, best1, best2);
      bags := merged;
      ChunkHolds(before, bags, seen, chunk);
      offset := offset + LANES;
      assert span[..MinNat(offset, count)] == seen + chunk;
    }
    assert span[..count] == span;
    var top1, top2 := ReduceTop2(bags, best1, best2, span);
    SamePair(span, top1, top2);
    return top1 + if count <= 1 then top1 else top2;
  }

  lemma EmptyLanes(bags: seq<seq<int>>, neg: seq<int>)
    requires |bags| == |neg| == LANES
    requires forall k :: 0 <= k < LANES ==> bags[k] == [] && neg[k] == NEG_MAX
    ensures LanesTop(bags, neg, neg) && Holds(bags, LANES, [])
  {
    forall t
      ensures LaneTotal(bags, LANES, t) == 0
    {
      EmptyTotal(bags, LANES, t);
    }
  }

  lemma {:induction false} EmptyTotal(bags: seq<seq<int>>, n: nat, t: int)
    requires n <= |bags| && forall k :: 0 <= k < |bags| ==> bags[k] == []
    ensures LaneTotal(bags, n, t) == 0
  {
    if n > 0 {
      EmptyTotal(bags, n - 1, t);
    }
  }

  /** The reduced pair gives the group score: doubled for one element, the two largest otherwise. */
  lemma SamePair(span: seq<int>, top1: int, top2: int)
    requires |span| > 0 && forall k :: 0 <= k < |span| ==> span[k] >= NEG_MAX
    requires TopPairAbove(span, top1, top2, NEG_MAX)
    ensures top1 + (if |span| <= 1 then top1 else top2) == Top2Sum(span)
  {
    if |span| == 1 {
      assert span == [span[0]];
      forall t
        ensures CountAtLeast(span, t) == Reaches(span[0], t)
      {
        CountOne(span[0], t);
      }
      assert TopPairAbove(span, span[0], NEG_MAX, NEG_MAX);
      TopPairUnique(span, top1, top2, span[0], NEG_MAX, NEG_MAX);
    } else {
      TopPairSum(span, top1, top2, NEG_MAX);
    }
  }
}
