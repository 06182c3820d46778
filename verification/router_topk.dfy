/**
 Expert selection of the router kernel: what "the best k experts" means, and the bitonic, HVX and
 scalar selections, which all compute it.
 */
module RouterTopK {
  import opened Arithmetic
  import opened Bitonic
  import opened RouterLanes

  // ----- specification -----

  /** Expert a is preferred to expert b: higher selection score, then lower id. */
  predicate Preferred(scores: seq<int>, a: nat, b: nat)
    requires a < |scores| && b < |scores|
  {
    Better(Lane(scores[a], a), Lane(scores[b], b))
  }

  ghost predicate Experts(scores: seq<int>, candidates: set<nat>) {
    forall c :: c in candidates ==> c < |scores|
  }

  /** ids lists distinct candidates best first, and every other candidate is worse than all of them. */
  ghost predicate IsTop(scores: seq<int>, candidates: set<nat>, ids: seq<nat>)
    requires Experts(scores, candidates)
  {
    && (forall i :: 0 <= i < |ids| ==> ids[i] in candidates)
    && (forall i, j :: 0 <= i < j < |ids| ==> Preferred(scores, ids[i], ids[j]))
    && (forall i, c :: 0 <= i < |ids| && c in candidates && c !in ids ==> Preferred(scores, ids[i], c))
  }

  lemma TopUnique(scores: seq<int>, candidates: set<nat>, a: seq<nat>, b: seq<nat>)
    requires Experts(scores, candidates)
    requires IsTop(scores, candidates, a) && IsTop(scores, candidates, b) && |a| == |b|
    ensures a == b
  {
    forall i | 0 <= i < |a| && a[..i] == b[..i]
      ensures a[i] == b[i]
    {
      SameOrPreferred(scores, candidates, a, b, i);
      SameOrPreferred(scores, candidates, b, a, i);
    }
    FirstDifference(a, b);
  }

  lemma SameOrPreferred(scores: seq<int>, candidates: set<nat>, a: seq<nat>, b: seq<nat>, i: nat)
    requires Experts(scores, candidates)
    requires IsTop(scores, candidates, a) && IsTop(scores, candidates, b) && |a| == |b|
    requires i < |a| && a[..i] == b[..i]
    ensures a[i] < |scores| && b[i] < |scores| && (a[i] == b[i] || Preferred(scores, a[i], b[i]))
  {
    assert forall k :: 0 <= k < i ==> a[k] == a[..i][k] == b[..i][k] == b[k];
    assert forall k :: 0 <= k < i ==> Preferred(scores, b[k], b[i]);
    assert b[i] in candidates;
  }

  lemma FirstDifference<T>(a: seq<T>, b: seq<T>)
    requires |a| == |b|
    requires forall i :: 0 <= i < |a| && a[..i] == b[..i] ==> a[i] == b[i]
    ensures a == b
  {
    var n := 0;
    while n < |a|
      invariant n <= |a| && a[..n] == b[..n]
    {
      assert a[n] == b[n];
      assert a[..n+1] == a[..n] + [a[n]] && b[..n+1] == b[..n] + [b[n]];
      n := n + 1;
    }
    assert a == a[..n] && b == b[..n];
  }

  ghost predicate IsBest(scores: seq<int>, candidates: set<nat>, best: nat)
    requires Experts(scores, candidates)
  {
    best in candidates && forall c :: c in candidates && c != best ==> Preferred(scores, best, c)
  }

  lemma BestExists(scores: seq<int>, candidates: set<nat>)
    requires Experts(scores, candidates) && candidates != {}
    ensures exists best :: IsBest(scores, candidates, best)
    decreases |candidates|
  {
    var c :| c in candidates;
    var others := candidates - {c};
    assert forall x :: x in candidates ==> x == c || x in others;
    if others != {} {
      BestExists(scores, others);
      var b :| IsBest(scores, others, b);
      assert IsBest(scores, candidates, if Preferred(scores, b, c) then b else c);
    } else {
      assert IsBest(scores, candidates, c);
    }
  }

  /** The most preferred candidate. */
  ghost function Best(scores: seq<int>, candidates: set<nat>): (best: nat)
    requires Experts(scores, candidates) && candidates != {}
    ensures IsBest(scores, candidates, best)
  {
    BestExists(scores, candidates);
    var best :| IsBest(scores, candidates, best);
    best
  }

  /** The k best candidates, best first: the reference every selection is compared with. */
  ghost function TopK(scores: seq<int>, candidates: set<nat>, k: nat): (ids: seq<nat>)
    requires Experts(scores, candidates) && k <= |candidates|
    ensures |ids| == k && IsTop(scores, candidates, ids)
    decreases k
  {
    if k == 0 then []
    else
      var b := Best(scores, candidates);
      [b] + TopK(scores, candidates - {b}, k - 1)
  }

  // ----- bitonic selection -----

  /** Candidate lanes in list order. */
  function LanesOf(candidateScores: seq<int>, candidateIds: seq<nat>): (lanes: seq<Lane>)
    requires |candidateScores| == |candidateIds|
  {
    seq(|candidateIds|, i requires 0 <= i < |candidateIds| => Lane(candidateScores[i], candidateIds[i]))
  }

  /** Ids strictly ascend and stay below the padding id; scores are arbitrary. */
  ghost predicate Listed(lanes: seq<Lane>) {
    && (forall i :: 0 <= i < |lanes| ==> 0 <= lanes[i].id < INT_MAX)
    && (forall i, j :: 0 <= i < j < |lanes| ==> lanes[i].id < lanes[j].id)
  }

  /** Listed lanes whose scores are above the sentinel. */
  ghost predicate Candidates(lanes: seq<Lane>) {
    Listed(lanes) && forall i :: 0 <= i < |lanes| ==> lanes[i].score > NEG_MAX
  }

  /** The lanes above the sentinel, in order. */
  ghost function Real(lanes: seq<Lane>): (r: seq<Lane>)
    ensures forall l :: l in r <==> l in lanes && l.score > NEG_MAX
  {
    if lanes == [] then []
    else
      var n := |lanes| - 1;
      assert forall l :: l in lanes <==> l in lanes[..n] || l == lanes[n];
      if lanes[n].score > NEG_MAX then Real(lanes[..n]) + [lanes[n]] else Real(lanes[..n])
  }

  lemma {:induction false} RealCandidates(lanes: seq<Lane>)
    requires Listed(lanes)
    ensures Candidates(Real(lanes))
    decreases |lanes|
  {
    if lanes != [] {
      var n := |lanes| - 1;
      RealCandidates(lanes[..n]);
      assert forall l :: l in Real(lanes[..n]) ==> l in lanes[..n];
    }
  }

  lemma RealPush(a: seq<Lane>, l: Lane)
    ensures Real(a + [l]) == if l.score > NEG_MAX then Real(a) + [l] else Real(a)
  {
    assert (a + [l])[..|a|] == a;
  }

  lemma {:induction false} RealConcat(a: seq<Lane>, b: seq<Lane>)
    ensures Real(a + b) == Real(a) + Real(b)
    decreases |b|
  {
    if b == [] {
      assert a + b == a;
    } else {
      var n := |b| - 1;
      var c := b[..n];
      RealConcat(a, c);
      assert b == c + [b[n]] && a + b == (a + c) + [b[n]];
      assert Real(b) == if b[n].score > NEG_MAX then Real(c) + [b[n]] else Real(c) by { RealPush(c, b[n]); }
      assert Real(a + b) == if b[n].score > NEG_MAX then Real(a + c) + [b[n]] else Real(a + c) by { RealPush(a + c, b[n]); }
    }
  }

  lemma {:induction false} RealCount(lanes: seq<Lane>, l: Lane)
    ensures multiset(Real(lanes))[l] == if l.score > NEG_MAX then multiset(lanes)[l] else 0
    decreases |lanes|
  {
    if lanes != [] {
      var n := |lanes| - 1;
      RealCount(lanes[..n], l);
      assert lanes == lanes[..n] + [lanes[n]];
    }
  }

  lemma RealPermuted(a: seq<Lane>, b: seq<Lane>)
    requires multiset(a) == multiset(b)
    ensures multiset(Real(a)) == multiset(Real(b))
  {
    forall l: Lane
      ensures multiset(Real(a))[l] == multiset(Real(b))[l]
    {
      RealCount(a, l);
      RealCount(b, l);
    }
  }

  lemma {:induction false} RealOfPads(pads: seq<Lane>)
    requires AllPad(pads)
    ensures Real(pads) == []
    decreases |pads|
  {
    if pads != [] {
      var n := |pads| - 1;
      assert pads[n] in pads && forall l :: l in pads[..n] ==> l in pads;
      RealOfPads(pads[..n]);
    }
  }

  function SquashAll(v: seq<Lane>): (r: seq<Lane>) {
    seq(|v|, k requires 0 <= k < |v| => Squash(v[k]))
  }

  /** Squashing leaves the lanes above the sentinel and makes the others padding. */
  lemma {:induction false} SquashContents(v: seq<Lane>) returns (pads: seq<Lane>)
    ensures AllPad(pads)
    ensures multiset(SquashAll(v)) == multiset(Real(v)) + multiset(pads)
    decreases |v|
  {
    pads := [];
    if v != [] {
      var n := |v| - 1;
      pads := SquashContents(v[..n]);
      assert SquashAll(v) == SquashAll(v[..n]) + [Squash(v[n])];
      if v[n].score <= NEG_MAX {
        pads := pads + [PAD];
      }
    }
  }

  ghost predicate AllPad(pads: seq<Lane>) {
    forall l :: l in pads ==> l == PAD
  }

  /**
   best holds, best first, 64 lanes of the candidates seen so far and some padding; nothing among the
   rest is better than anything it holds.
   */
  ghost predicate HoldsBest(best: seq<Lane>, rest: seq<Lane>, seen: seq<Lane>, pads: seq<Lane>) {
    && AllPad(pads)
    && multiset(best) + multiset(rest) == multiset(seen) + multiset(pads)
    && Monotone(Keys(best, true), true)
    && forall i, j :: 0 <= i < |best| && 0 <= j < |rest| ==> Rank(best[i]) >= Rank(rest[j])
  }

  /** One chunk of at most 64 candidates, padded with the sentinel score and the largest id. */
  function LoadChunk(lanes: seq<Lane>, offset: nat): (v: Vector)
    requires offset <= |lanes| && Listed(lanes)
  {
    seq(LANES, k requires 0 <= k < LANES => if offset + k < |lanes| then lanes[offset + k] else PAD)
  }

  function ChunkEnd(n: nat, offset: nat): (e: nat)
    requires offset <= n
    ensures offset <= e <= n && e <= offset + LANES && (e == n || e == offset + LANES)
  {
    if n - offset < LANES then n else offset + LANES
  }

  lemma ChunkContents(lanes: seq<Lane>, offset: nat, chunk: Vector) returns (pads: seq<Lane>)
    requires offset <= |lanes| && Listed(lanes)
    requires multiset(chunk) == multiset(LoadChunk(lanes, offset))
    ensures AllPad(pads)
    ensures multiset(Squashed(chunk)) == multiset(Real(lanes[offset..ChunkEnd(|lanes|, offset)])) + multiset(pads)
  {
    var e := ChunkEnd(|lanes|, offset);
    var filling := seq(LANES - (e - offset), _ => PAD);
    assert LoadChunk(lanes, offset) == lanes[offset..e] + filling;
    RealConcat(lanes[offset..e], filling);
    RealOfPads(filling);
    RealPermuted(chunk, LoadChunk(lanes, offset));
    pads := SquashContents(chunk);
    assert Squashed(chunk) == SquashAll(chunk);
  }

  lemma FromMultisets<T>(v: seq<T>, a: seq<T>, b: seq<T>, l: T)
    requires multiset(v) <= multiset(a) + multiset(b)
    requires l in v
    ensures l in a || l in b
  {
    assert l in multiset(v);
  }

  /** Ties between the running best and a new chunk are padding, or the earlier and lower id wins. */
  lemma EarlierWinsTies(lanes: seq<Lane>, offset: nat, best: seq<Lane>, rest: seq<Lane>, pads: seq<Lane>, chunk: seq<Lane>,
                        morePads: seq<Lane>)
    requires offset <= |lanes| && Listed(lanes)
    requires HoldsBest(best, rest, Real(lanes[..offset]), pads) && AllPad(morePads)
    requires multiset(chunk) == multiset(Real(lanes[offset..ChunkEnd(|lanes|, offset)])) + multiset(morePads)
    ensures TiesFavour(best, chunk)
  {
    var seen, more := Real(lanes[..offset]), Real(lanes[offset..ChunkEnd(|lanes|, offset)]);
    forall i, j | 0 <= i < |best| && 0 <= j < |chunk| && best[i].score == chunk[j].score
      ensures best[i] == chunk[j] || best[i].id < chunk[j].id
    {
      FromMultisets(best, seen, pads, best[i]);
      FromMultisets(chunk, more, morePads, chunk[j]);
    }
  }

  lemma NeverBelowPadding(best: seq<Lane>, rest: seq<Lane>, lanes: seq<Lane>, pads: seq<Lane>)
    requires HoldsBest(best, rest, Real(lanes), pads)
    ensures forall l :: l in best ==> l.score >= NEG_MAX
  {
    forall l | l in best
      ensures l.score >= NEG_MAX
    {
      FromMultisets(best, Real(lanes), pads, l);
    }
  }

  lemma MergeHolds(best: Vector, rest: seq<Lane>, seen: seq<Lane>, pads: seq<Lane>, chunk: seq<Lane>, more: seq<Lane>,
                   morePads: seq<Lane>, newBest: Vector, dropped: Vector)
    requires HoldsBest(best, rest, seen, pads) && AllPad(morePads)
    requires multiset(chunk) == multiset(more) + multiset(morePads)
    requires multiset(newBest) + multiset(dropped) == multiset(best) + multiset(chunk)
    requires Monotone(Keys(newBest, true), true)
    requires forall i, j :: 0 <= i < LANES && 0 <= j < LANES ==> Rank(newBest[i]) >= Rank(dropped[j])
    requires forall i :: 0 <= i < LANES ==> Rank(newBest[i]) >= Rank(best[LANES - 1])
    ensures HoldsBest(newBest, rest + dropped, seen + more, pads + morePads)
  {
    Regroup(newBest, dropped, best, chunk, rest, seen, pads, more, morePads);
    forall i, j | 0 <= i < LANES && 0 <= j < |rest + dropped|
      ensures Rank(newBest[i]) >= Rank((rest + dropped)[j])
    {
      if j < |rest| {
        assert Rank(best[LANES - 1]) >= Rank(rest[j]);
      }
    }
  }

  lemma Regroup<T>(v: seq<T>, dropped: seq<T>, best: seq<T>, chunk: seq<T>, rest: seq<T>,
                   seen: seq<T>, pads: seq<T>, more: seq<T>, morePads: seq<T>)
    requires multiset(best) + multiset(rest) == multiset(seen) + multiset(pads)
    requires multiset(chunk) == multiset(more) + multiset(morePads)
    requires multiset(v) + multiset(dropped) == multiset(best) + multiset(chunk)
    ensures multiset(v) + multiset(rest + dropped) == multiset(seen + more) + multiset(pads + morePads)
  {
    calc {
      multiset(v) + multiset(rest + dropped);
      (multiset(v) + multiset(dropped)) + multiset(rest);
      (multiset(best) + multiset(rest)) + multiset(chunk);
      multiset(seen + more) + multiset(pads + morePads);
    }
  }

  // What the running best holds once every candidate has been seen.

  lemma KeptOrRest<T>(v: seq<T>, rest: seq<T>, all: seq<T>, pads: seq<T>, l: T)
    requires multiset(v) + multiset(rest) == multiset(all) + multiset(pads)
    requires l in all
    ensures l in v || l in rest
  {
    assert l in multiset(all);
    assert (multiset(v) + multiset(rest))[l] > 0;
  }

  lemma DistinctCount<T>(s: seq<T>, i: nat, j: nat)
    requires i < j < |s| && s[i] == s[j]
    ensures multiset(s)[s[i]] >= 2
  {
    assert s == s[..j] + [s[j]] + s[j+1..];
    assert s[..j][i] == s[i];
    assert multiset(s[..j])[s[i]] >= 1;
  }

  lemma OnlyOnce(lanes: seq<Lane>, l: Lane)
    requires Candidates(lanes)
    ensures multiset(lanes)[l] <= 1
  {
    if l in lanes {
      var k :| 0 <= k < |lanes| && lanes[k] == l;
      assert lanes == lanes[..k] + [l] + lanes[k+1..];
      assert l !in lanes[..k] && l !in lanes[k+1..];
      assert multiset(lanes[..k])[l] == 0 && multiset(lanes[k+1..])[l] == 0;
    } else {
      assert l !in multiset(lanes);
    }
  }

  lemma SetOfSeqSize<T>(s: seq<T>)
    ensures |set l | l in s| <= |s|
  {
    if s != [] {
      var n := |s| - 1;
      SetOfSeqSize(s[..n]);
      assert (set l | l in s) == (set l | l in s[..n]) + {s[n]};
    }
  }

  lemma DistinctSetSize(lanes: seq<Lane>)
    requires Candidates(lanes)
    ensures |set l | l in lanes| == |lanes|
  {
    assert forall i, j :: 0 <= i < j < |lanes| ==> lanes[i].id < lanes[j].id;
    DistinctLanes(lanes);
  }

  /** Rank r of the best vector is a candidate, not padding, as long as there are more than r of them. */
  lemma RankIsCandidate(best: Vector, rest: seq<Lane>, lanes: seq<Lane>, pads: seq<Lane>, r: nat)
    requires HoldsBest(best, rest, lanes, pads) && Candidates(lanes)
    requires r < LANES && r < |lanes|
    ensures best[r] in lanes
  {
    FromMultisets(best, lanes, pads, best[r]);
    if best[r] == PAD {
      forall l | l in lanes
        ensures l in best[..r]
      {
        KeptOrRest(best, rest, lanes, pads, l);
        assert Rank(l) > Rank(PAD);
        assert forall j :: 0 <= j < |rest| ==> Rank(best[r]) >= Rank(rest[j]);
        var i :| 0 <= i < LANES && best[i] == l;
        assert Keys(best, true)[i] == -Rank(l) && Keys(best, true)[r] == -Rank(PAD);
        assert i < r;
        assert best[..r][i] == l;
      }
      DistinctSetSize(lanes);
      SetOfSeqSize(best[..r]);
      assert (set l | l in lanes) <= (set l | l in best[..r]);
      SubsetSize(set l | l in lanes, set l | l in best[..r]);
    }
  }

  lemma SubsetSize<T>(a: set<T>, b: set<T>)
    requires a <= b
    ensures |a| <= |b|
  {
    assert b == a + (b - a);
  }

  lemma BestIsStrict(best: Vector, rest: seq<Lane>, lanes: seq<Lane>, pads: seq<Lane>, i: nat, j: nat)
    requires HoldsBest(best, rest, lanes, pads) && Candidates(lanes)
    requires i < j < LANES && best[i] in lanes
    ensures Rank(best[i]) > Rank(best[j])
  {
    assert Keys(best, true)[i] <= Keys(best, true)[j];
    OnlyOnce(lanes, best[i]);
    assert best[i] !in pads;
    assert multiset(pads)[best[i]] == 0;
    assert multiset(best)[best[i]] <= (multiset(best) + multiset(rest))[best[i]] <= 1;
    if best[i] == best[j] {
      DistinctCount(best, i, j);
    }
    RankIsOrder(best[i], best[j]);
  }

  /** v lists the best min(64, n) of the lanes: distinct ones, best first, all others worse; padding follows. */
  ghost predicate BestLanes(v: Vector, lanes: seq<Lane>) {
    && (forall i :: 0 <= i < LANES && i < |lanes| ==> v[i] in lanes)
    && (forall i, j :: 0 <= i < j < LANES && i < |lanes| ==> Better(v[i], v[j]))
    && (forall i, l :: 0 <= i < LANES && i < |lanes| && l in lanes && l !in v ==> Better(v[i], l))
    && forall i :: |lanes| <= i < LANES ==> v[i] == PAD
  }

  lemma HeldIsBest(best: Vector, rest: seq<Lane>, lanes: seq<Lane>, pads: seq<Lane>)
    requires HoldsBest(best, rest, lanes, pads) && Candidates(lanes)
    ensures BestLanes(best, lanes)
  {
    forall i | 0 <= i < LANES && i < |lanes|
      ensures best[i] in lanes
      ensures forall j :: i < j < LANES ==> Better(best[i], best[j])
      ensures forall l :: l in lanes && l !in best ==> Better(best[i], l)
    {
      RankIsCandidate(best, rest, lanes, pads, i);
      forall j | i < j < LANES
        ensures Better(best[i], best[j])
      {
        BestIsStrict(best, rest, lanes, pads, i, j);
        RankIsOrder(best[i], best[j]);
      }
      forall l | l in lanes && l !in best
        ensures Better(best[i], l)
      {
        KeptOrRest(best, rest, lanes, pads, l);
        LosesTo(best, rest, lanes, l, i);
      }
    }
    forall i | |lanes| <= i < LANES
      ensures best[i] == PAD
    {
      RankIsPadding(best, rest, lanes, pads, i);
    }
  }

  /** Once the candidates have run out, only padding follows. */
  lemma RankIsPadding(best: Vector, rest: seq<Lane>, lanes: seq<Lane>, pads: seq<Lane>, r: nat)
    requires HoldsBest(best, rest, lanes, pads) && Candidates(lanes)
    requires |lanes| <= r < LANES
    ensures best[r] == PAD
  {
    FromMultisets(best, lanes, pads, best[r]);
    if best[r] != PAD {
      forall i | 0 <= i <= r
        ensures best[i] in lanes
      {
        FromMultisets(best, lanes, pads, best[i]);
        assert Keys(best, true)[i] <= Keys(best, true)[r];
        RankIsOrder(best[r], PAD);
      }
      forall i, j | 0 <= i < j <= r
        ensures best[i] != best[j]
      {
        BestIsStrict(best, rest, lanes, pads, i, j);
      }
      var leading := best[..r + 1];
      DistinctLanes(leading);
      assert (set l | l in leading) <= (set l | l in lanes);
      SubsetSize(set l | l in leading, set l | l in lanes);
      SetOfSeqSize(lanes);
    }
  }

  lemma {:induction false} DistinctLanes(lanes: seq<Lane>)
    requires forall i, j :: 0 <= i < j < |lanes| ==> lanes[i] != lanes[j]
    ensures |set l | l in lanes| == |lanes|
    decreases |lanes|
  {
    if lanes != [] {
      var n := |lanes| - 1;
      DistinctLanes(lanes[..n]);
      assert (set l | l in lanes) == (set l | l in lanes[..n]) + {lanes[n]};
      assert lanes[n] !in lanes[..n];
    }
  }

  lemma LosesTo(best: Vector, rest: seq<Lane>, lanes: seq<Lane>, l: Lane, i: nat)
    requires Candidates(lanes) && l in lanes && l in rest && l !in best && i < LANES
    requires forall i, j :: 0 <= i < |best| && 0 <= j < |rest| ==> Rank(best[i]) >= Rank(rest[j])
    ensures Better(best[i], l)
  {
    assert best[i] in best;
    RankIsOrder(best[i], l);
  }

  /** The leading lanes of the best vector are the top candidates. */
  lemma HeldIsTop(best: Vector, rest: seq<Lane>, lanes: seq<Lane>, pads: seq<Lane>, scores: seq<int>, candidates: set<nat>, ids: seq<nat>)
    requires HoldsBest(best, rest, lanes, pads) && Candidates(lanes)
    requires |ids| <= LANES && |ids| <= |lanes|
    requires forall i :: 0 <= i < |ids| ==> ids[i] == best[i].id
    requires Experts(scores, candidates)
    requires forall l :: l in lanes ==> 0 <= l.id && l.id in candidates && scores[l.id] == l.score
    requires forall c :: c in candidates ==> Lane(scores[c], c) in lanes
    ensures IsTop(scores, candidates, ids)
  {
    forall i | 0 <= i < |ids|
      ensures best[i] in lanes && ids[i] in candidates && best[i] == Lane(scores[ids[i]], ids[i])
    {
      RankIsCandidate(best, rest, lanes, pads, i);
    }
    forall i, j | 0 <= i < j < |ids|
      ensures Preferred(scores, ids[i], ids[j])
    {
      BestIsStrict(best, rest, lanes, pads, i, j);
      RankIsOrder(best[i], best[j]);
    }
    forall i, c | 0 <= i < |ids| && c in candidates && c !in ids
      ensures Preferred(scores, ids[i], c)
    {
      var l := Lane(scores[c], c);
      assert l in lanes;
      KeptOrRest(best, rest, lanes, pads, l);
      assert forall j :: 0 <= j < |ids| ==> best[j].id != c;
      if l in best {
        var j :| 0 <= j < LANES && best[j] == l;
        BestIsStrict(best, rest, lanes, pads, i, j);
      } else {
        var j :| 0 <= j < |rest| && rest[j] == l;
        assert Rank(best[i]) >= Rank(rest[j]);
        assert best[i] != l;
      }
      RankIsOrder(best[i], l);
    }
  }

  function SetOf(ids: seq<nat>): (s: set<nat>) { set c | c in ids }

  lemma AscendingSetSize(ids: seq<nat>)
    requires Ascending(ids)
    ensures |SetOf(ids)| == |ids|
  {
    if ids != [] {
      var n := |ids| - 1;
      AscendingSetSize(ids[..n]);
      assert SetOf(ids) == SetOf(ids[..n]) + {ids[n]};
    }
  }

  /** Candidates whose score is above the sentinel. */
  ghost function Above(scores: seq<int>, candidates: set<nat>): (s: set<nat>)
    requires Experts(scores, candidates)
  {
    set c | c in candidates && scores[c] > NEG_MAX
  }

  /** The top of the candidates above the sentinel is the top of all of them. */
  lemma AboveTop(scores: seq<int>, candidates: set<nat>, ids: seq<nat>)
    requires Experts(scores, candidates) && IsTop(scores, Above(scores, candidates), ids)
    ensures IsTop(scores, candidates, ids)
  {
    forall i, c | 0 <= i < |ids| && c in candidates && c !in ids
      ensures Preferred(scores, ids[i], c)
    {
      assert ids[i] in Above(scores, candidates);
      assert c in Above(scores, candidates) || scores[c] <= NEG_MAX;
    }
  }

  /** The running best over all candidates, 64 at a time; those at the sentinel or below count as padding. */
  method BitonicBest(lanes: seq<Lane>) returns (best: Vector, ghost rest: seq<Lane>, ghost pads: seq<Lane>)
    requires Listed(lanes)
    ensures HoldsBest(best, rest, Real(lanes), pads) && BestLanes(best, Real(lanes))
  {
    best := seq(LANES, _ => PAD);
    rest, pads := [], best;
    var offset := 0;
    while offset < |lanes|
      invariant HoldsBest(best, rest, Real(lanes[..MinNat(offset, |lanes|)]), pads)
    {
      var chunk := SortWorstFirst(LoadChunk(lanes, offset));
      best, rest, pads := MergeChunk(lanes, offset, chunk, best, rest, pads);
      offset := offset + LANES;
    }
    assert lanes == lanes[..|lanes|];
    RealCandidates(lanes);
    HeldIsBest(best, rest, Real(lanes), pads);
  }

  /** One round: a sorted chunk is merged into the running best. */
  method MergeChunk(lanes: seq<Lane>, offset: nat, chunk: Vector, before: Vector, ghost restBefore: seq<Lane>, ghost padsBefore: seq<Lane>)
    returns (best: Vector, ghost rest: seq<Lane>, ghost pads: seq<Lane>)
    requires offset <= |lanes| && Listed(lanes)
    requires multiset(chunk) == multiset(LoadChunk(lanes, offset)) && Monotone(Keys(chunk, false), true)
    requires HoldsBest(before, restBefore, Real(lanes[..offset]), padsBefore)
    ensures HoldsBest(best, rest, Real(lanes[..ChunkEnd(|lanes|, offset)]), pads)
  {
    ghost var e := ChunkEnd(|lanes|, offset);
    ghost var morePads := ChunkContents(lanes, offset, chunk);
    EarlierWinsTies(lanes, offset, before, restBefore, padsBefore, Squashed(chunk), morePads);
    NeverBelowPadding(before, restBefore, lanes[..offset], padsBefore);
    ghost var dropped;
    best, dropped := MergeKeepFirst(before, chunk);
    MergeHolds(before, restBefore, Real(lanes[..offset]), padsBefore, Squashed(chunk), Real(lanes[offset..e]), morePads, best, dropped);
    assert lanes[..e] == lanes[..offset] + lanes[offset..e];
    RealConcat(lanes[..offset], lanes[offset..e]);
    rest, pads := restBefore + dropped, padsBefore + morePads;
  }

  /** The lanes above the sentinel are the lanes of the candidates above it. */
  lemma RealLanes(candidateScores: seq<int>, candidateIds: seq<nat>, scores: seq<int>)
    requires |candidateScores| == |candidateIds| && Ascending(candidateIds) && |scores| < INT_MAX
    requires forall i :: 0 <= i < |candidateIds| ==> candidateIds[i] < |scores| && scores[candidateIds[i]] == candidateScores[i]
    ensures Listed(LanesOf(candidateScores, candidateIds)) && Experts(scores, SetOf(candidateIds))
    ensures Candidates(Real(LanesOf(candidateScores, candidateIds)))
    ensures forall l :: l in Real(LanesOf(candidateScores, candidateIds)) ==>
      0 <= l.id && l.id in Above(scores, SetOf(candidateIds)) && scores[l.id] == l.score
    ensures forall c :: c in Above(scores, SetOf(candidateIds)) ==> Lane(scores[c], c) in Real(LanesOf(candidateScores, candidateIds))
  {
    var lanes := LanesOf(candidateScores, candidateIds);
    RealCandidates(lanes);
    forall c | c in Above(scores, SetOf(candidateIds))
      ensures Lane(scores[c], c) in Real(lanes)
    {
      var i :| 0 <= i < |candidateIds| && candidateIds[i] == c;
      assert lanes[i] == Lane(scores[c], c);
    }
  }

  lemma RealSize(lanes: seq<Lane>, scores: seq<int>, above: set<nat>)
    requires Candidates(lanes) && Experts(scores, above)
    requires forall l :: l in lanes ==> 0 <= l.id && l.id in above && scores[l.id] == l.score
    requires forall c :: c in above ==> Lane(scores[c], c) in lanes
    ensures |lanes| == |above|
  {
    var ids: seq<nat> := seq(|lanes|, i requires 0 <= i < |lanes| => lanes[i].id);
    forall c: nat
      ensures c in SetOf(ids) <==> c in above
    {
      if c in above {
        var i :| 0 <= i < |lanes| && lanes[i] == Lane(scores[c], c);
        assert ids[i] == c;
      }
    }
    assert SetOf(ids) == above;
    AscendingSetSize(ids);
  }

  /**
   `select_topk_candidates_bitonic_hf`, for any scores.  It returns the top k exactly when k candidates
   score above the sentinel.  Otherwise it meets a padding lane and reads `token_scores[INT32_MAX]`: ok is false.
   */
  method SelectTopKCandidatesBitonic(tokenScores: seq<real>, candidateScores: seq<int>, candidateIds: seq<nat>, selectedCount: nat,
                                     selectedWeights: array<real>, selectedIds: array<nat>, ghost scores: seq<int>) returns (ok: bool)
    requires |candidateScores| == |candidateIds| && |tokenScores| == |scores| < INT_MAX
    requires selectedCount <= LANES && selectedCount <= |candidateIds|
    requires selectedCount <= selectedWeights.Length && selectedCount <= selectedIds.Length
    requires Ascending(candidateIds)
    requires forall i :: 0 <= i < |candidateIds| ==> candidateIds[i] < |scores| && scores[candidateIds[i]] == candidateScores[i]
    modifies selectedWeights, selectedIds
    ensures |SetOf(candidateIds)| == |candidateIds|
    ensures ok <==> selectedCount <= |Above(scores, SetOf(candidateIds))|
    ensures ok ==> selectedIds[..selectedCount] == TopK(scores, SetOf(candidateIds), selectedCount)
    ensures ok ==> forall i :: 0 <= i < selectedCount ==> selectedWeights[i] == tokenScores[selectedIds[i]]
  {
    var lanes := LanesOf(candidateScores, candidateIds);
    RealLanes(candidateScores, candidateIds, scores);
    AscendingSetSize(candidateIds);
    var best, rest, pads := BitonicBest(lanes);
    ghost var above := Above(scores, SetOf(candidateIds));
    RealSize(Real(lanes), scores, above);
    assert forall r :: 0 <= r < selectedCount && r < |above| ==> best[r].id < |tokenScores|;
    ghost var ids := LeadingIds(best, rest, Real(lanes), pads, scores, SetOf(candidateIds), selectedCount);
    ok := StoreSelected(tokenScores, best, selectedCount, selectedWeights, selectedIds, |above|, ids);
  }

  /** As far as there are candidates above the sentinel, the leading lanes are the top ones. */
  lemma LeadingIds(best: Vector, rest: seq<Lane>, lanes: seq<Lane>, pads: seq<Lane>, scores: seq<int>, candidates: set<nat>, k: nat)
    returns (ids: seq<nat>)
    requires HoldsBest(best, rest, lanes, pads) && Candidates(lanes)
    requires k <= LANES && k <= |candidates| && Experts(scores, candidates) && |lanes| == |Above(scores, candidates)|
    requires forall l :: l in lanes ==> 0 <= l.id && l.id in Above(scores, candidates) && scores[l.id] == l.score
    requires forall c :: c in Above(scores, candidates) ==> Lane(scores[c], c) in lanes
    ensures |ids| == k && forall i :: 0 <= i < k ==> ids[i] == best[i].id
    ensures k <= |lanes| ==> ids == TopK(scores, candidates, k)
  {
    ids := seq(k, i requires 0 <= i < k => best[i].id);
    if k <= |lanes| {
      HeldIsTop(best, rest, lanes, pads, scores, Above(scores, candidates), ids);
      AboveTop(scores, candidates, ids);
      TopUnique(scores, candidates, ids, TopK(scores, candidates, k));
    }
  }

  /** Stores the leading lanes' experts with their weights, up to the first padding lane. */
  method StoreSelected(tokenScores: seq<real>, best: Vector, selectedCount: nat, selectedWeights: array<real>, selectedIds: array<nat>,
                       ghost left: nat, ghost ids: seq<nat>) returns (ok: bool)
    requires selectedCount <= LANES && selectedCount <= selectedWeights.Length && selectedCount <= selectedIds.Length
    requires |tokenScores| < INT_MAX
    requires |ids| == selectedCount && forall i :: 0 <= i < selectedCount ==> ids[i] == best[i].id
    requires forall i :: 0 <= i < selectedCount && i < left ==> best[i].id < |tokenScores|
    requires forall i :: left <= i < LANES ==> best[i] == PAD
    modifies selectedWeights, selectedIds
    ensures ok <==> selectedCount <= left
    ensures ok ==> selectedIds[..selectedCount] == ids
    ensures ok ==> forall i :: 0 <= i < selectedCount ==> selectedWeights[i] == tokenScores[selectedIds[i]]
  {
    var rank := 0;
    while rank < selectedCount
      invariant rank <= selectedCount && rank <= left
      invariant forall i :: 0 <= i < rank ==> selectedIds[i] == ids[i]
      invariant forall i :: 0 <= i < rank ==> selectedWeights[i] == tokenScores[ids[i]]
    {
      var expert := best[rank].id;
      selectedIds[rank] := expert;
      if expert >= |tokenScores| {
        return false;
      }
      selectedWeights[rank] := tokenScores[expert];
      rank := rank + 1;
    }
    assert selectedIds[..selectedCount] == ids;
    ok := true;
  }
}
