/**
 What a routed token is, in terms of the scores alone: which score a group has, which groups are routed, which
 experts are chosen, and how their weights are scaled.
 */
module RouterResult {
  import opened Arithmetic
  import opened Wrappers
  import opened RouterLanes
  import opened RouterTopK
  import opened RouterTop2
  import opened RouterSelect
  import opened RouterSentinel
  import opened RouterRoute

  // ----- groups -----

  /**
   v is the score of group g, whose experts are g * size and the size - 1 that follow: its largest selection score,
   or with a bias the sum of its two largest, a single expert counting twice.
   */
  ghost predicate ScoresGroup(scores: seq<int>, size: nat, useBias: bool, g: nat, v: int)
    requires size > 0 && g * size + size <= |scores|
  {
    var begin: nat := g * size;
    if useBias && size >= 2 then
      exists d: nat, e: nat :: TwoLargest(scores, begin, begin + size, d, e) && v == scores[d] + scores[e]
    else if useBias then v == scores[begin] + scores[begin]
    else
      && (exists e :: begin <= e < begin + size && scores[e] == v)
      && forall f :: begin <= f < begin + size ==> scores[f] <= v
  }

  lemma GroupHasScore(scores: seq<int>, numGroups: nat, size: nat, useBias: bool, g: nat)
    requires size > 0 && numGroups * size == |scores| && g < numGroups
    ensures g * size + size <= |scores|
    ensures ScoresGroup(scores, size, useBias, g, GroupScores(scores, numGroups, size, useBias)[g])
  {
    GroupInRange(g, numGroups, size);
    var begin: nat := g * size;
    var v := GroupScores(scores, numGroups, size, useBias)[g];
    GroupScoreAt(scores, numGroups, size, useBias, g);
    if useBias {
      SpanTop(scores, begin, size, v);
    } else {
      var span := scores[begin..begin+size];
      var k :| 0 <= k < |span| && span[k] == v;
      assert scores[begin + k] == v;
      forall f | begin <= f < begin + size
        ensures scores[f] <= v
      {
        assert span[f - begin] == scores[f];
      }
    }
  }

  lemma ScoreUnique(scores: seq<int>, size: nat, useBias: bool, g: nat, v: int, w: int)
    requires size > 0 && g * size + size <= |scores|
    requires ScoresGroup(scores, size, useBias, g, v) && ScoresGroup(scores, size, useBias, g, w)
    ensures v == w
  {
  }

  /** No group that is left out scores more than a routed one, and of two with the same score the lower is routed. */
  lemma RoutedGroupsAreBest(scores: seq<int>, numGroups: nat, size: nat, topkGroup: nat, useBias: bool, g: nat, h: nat, v: int, w: int)
    requires size > 0 && numGroups * size == |scores| && g < numGroups && h < numGroups
    requires g * size + size <= |scores| && h * size + size <= |scores|
    requires ScoresGroup(scores, size, useBias, g, v) && ScoresGroup(scores, size, useBias, h, w)
    requires g in RoutedGroups(scores, numGroups, size, topkGroup, useBias) && h !in RoutedGroups(scores, numGroups, size, topkGroup, useBias)
    ensures w < v || (w == v && g < h)
  {
    SpanSize(0, numGroups);
    var groupScores := GroupScores(scores, numGroups, size, useBias);
    GroupHasScore(scores, numGroups, size, useBias, g);
    GroupHasScore(scores, numGroups, size, useBias, h);
    ScoreUnique(scores, size, useBias, g, v, groupScores[g]);
    ScoreUnique(scores, size, useBias, h, w, groupScores[h]);
    var groups := RoutedGroups(scores, numGroups, size, topkGroup, useBias);
    var i :| 0 <= i < |groups| && groups[i] == g;
    assert h in Span(0, numGroups);
    assert Preferred(groupScores, groups[i], h);
  }

  // ----- experts -----

  /** e comes before f: a higher score, or the same and a lower number. */
  ghost predicate Before(scores: seq<int>, e: nat, f: nat)
    requires e < |scores| && f < |scores|
  {
    scores[e] > scores[f] || (scores[e] == scores[f] && e < f)
  }

  /** ids are the best k of the experts whose group is among groups, best first. */
  ghost predicate BestOfGroups(scores: seq<int>, size: nat, groups: seq<nat>, ids: seq<nat>)
    requires size > 0
  {
    && (forall i :: 0 <= i < |ids| ==> ids[i] < |scores| && ids[i] / size in groups)
    && (forall i, j :: 0 <= i < j < |ids| ==> Before(scores, ids[i], ids[j]))
    && forall i, f: nat :: 0 <= i < |ids| && f < |scores| && f / size in groups && f !in ids ==> Before(scores, ids[i], f)
  }

  lemma TopIsBest(scores: seq<int>, size: nat, groups: seq<nat>, ids: seq<nat>)
    requires size > 0 && ValidGroups(groups, size, |scores|)
    requires Experts(scores, GroupExperts(groups, size)) && IsTop(scores, GroupExperts(groups, size), ids)
    ensures BestOfGroups(scores, size, groups, ids)
  {
    forall i | 0 <= i < |ids|
      ensures ids[i] < |scores| && ids[i] / size in groups
    {
      InGroupExperts(groups, size, ids[i]);
    }
    forall i, j | 0 <= i < j < |ids|
      ensures Before(scores, ids[i], ids[j])
    {
      assert Preferred(scores, ids[i], ids[j]);
    }
    forall i, f: nat | 0 <= i < |ids| && f < |scores| && f / size in groups && f !in ids
      ensures Before(scores, ids[i], f)
    {
      InGroupExperts(groups, size, f);
      assert Preferred(scores, ids[i], f);
    }
  }

  /**
   With all selection scores above -65504, grouped routing takes min(topkGroup, numGroups) distinct groups, none of
   which is beaten by one left out, and of their experts the best min(topk, all of them), best first.
   */
  lemma GroupedResult(scores: seq<int>, numGroups: nat, size: nat, topkGroup: nat, topk: nat, useBias: bool) returns (groups: seq<nat>)
    requires size > 0 && numGroups * size == |scores| && forall e :: 0 <= e < |scores| ==> scores[e] > -65504
    ensures |groups| == (if topkGroup < numGroups then topkGroup else numGroups)
    ensures forall i :: 0 <= i < |groups| ==> groups[i] < numGroups && groups[i] * size + size <= |scores|
    ensures forall i, j :: 0 <= i < j < |groups| ==> groups[i] != groups[j]
    ensures forall g, h: nat, v, w ::
      (g in groups && h < numGroups && h !in groups && h * size + size <= |scores| &&
       ScoresGroup(scores, size, useBias, g, v) && ScoresGroup(scores, size, useBias, h, w)) ==> w < v || (w == v && g < h)
    ensures var outcome := RoutedOutcome(scores, numGroups, size, topkGroup, topk, useBias);
            && outcome.Some? && BestOfGroups(scores, size, groups, outcome.value)
            && |outcome.value| == if topk < |groups| * size then topk else |groups| * size
  {
    groups := RoutedGroups(scores, numGroups, size, topkGroup, useBias);
    AllAboveRouted(scores, numGroups, size, topkGroup, topk, useBias);
    GroupsListed(scores, numGroups, size, topkGroup, useBias);
    forall g, h: nat, v, w |
      g in groups && h < numGroups && h !in groups && h * size + size <= |scores| &&
      ScoresGroup(scores, size, useBias, g, v) && ScoresGroup(scores, size, useBias, h, w)
      ensures w < v || (w == v && g < h)
    {
      RoutedGroupsAreBest(scores, numGroups, size, topkGroup, useBias, g, h, v, w);
    }
    ReferenceIsBest(scores, numGroups, size, topkGroup, topk, useBias);
  }

  lemma GroupsListed(scores: seq<int>, numGroups: nat, size: nat, topkGroup: nat, useBias: bool)
    requires size > 0 && numGroups * size == |scores|
    ensures forall g :: g in RoutedGroups(scores, numGroups, size, topkGroup, useBias) ==> g < numGroups && g * size + size <= |scores|
  {
    SpanSize(0, numGroups);
    forall g | g in RoutedGroups(scores, numGroups, size, topkGroup, useBias)
      ensures g < numGroups && g * size + size <= |scores|
    {
      assert g in Span(0, numGroups);
      GroupInRange(g, numGroups, size);
    }
  }

  lemma ReferenceIsBest(scores: seq<int>, numGroups: nat, size: nat, topkGroup: nat, topk: nat, useBias: bool)
    requires size > 0 && numGroups * size == |scores|
    ensures var groups := RoutedGroups(scores, numGroups, size, topkGroup, useBias);
            var ids := RoutedExperts(scores, numGroups, size, topkGroup, topk, useBias);
            BestOfGroups(scores, size, groups, ids) && |ids| == if topk < |groups| * size then topk else |groups| * size
  {
    var groups := RoutedGroups(scores, numGroups, size, topkGroup, useBias);
    GroupExpertsInRange(groups, size, scores);
    GroupExpertsSize(groups, size);
    TopIsBest(scores, size, groups, RoutedExperts(scores, numGroups, size, topkGroup, topk, useBias));
  }

  /** With all selection scores above -65504, regular routing takes the best min(topk, n) of all experts, best first. */
  lemma RegularResult(scores: seq<int>, topk: nat)
    requires forall e :: 0 <= e < |scores| ==> scores[e] > -65504
    ensures |Span(0, |scores|)| == |scores|
    ensures var outcome := Selected(scores, Span(0, |scores|), MinNat(topk, |scores|));
            && outcome.Some? && |outcome.value| == (if topk < |scores| then topk else |scores|)
            && BestOfAll(scores, outcome.value)
  {
    var n := |scores|;
    SpanSize(0, n);
    var k := MinNat(topk, n);
    assert Above(scores, Span(0, n)) == Span(0, n);
    if k > 0 {
      AlgorithmsAgreeIff(scores, Span(0, n), k);
    }
    TopOfAll(scores, TopK(scores, Span(0, n), k));
  }

  /** ids are distinct experts, best first, and every expert left out comes after all of them. */
  ghost predicate BestOfAll(scores: seq<int>, ids: seq<nat>) {
    && (forall i :: 0 <= i < |ids| ==> ids[i] < |scores|)
    && (forall i, j :: 0 <= i < j < |ids| ==> Before(scores, ids[i], ids[j]))
    && forall i, f: nat :: 0 <= i < |ids| && f < |scores| && f !in ids ==> Before(scores, ids[i], f)
  }

  lemma TopOfAll(scores: seq<int>, ids: seq<nat>)
    requires IsTop(scores, Span(0, |scores|), ids)
    ensures BestOfAll(scores, ids)
  {
    forall i, j | 0 <= i < j < |ids|
      ensures Before(scores, ids[i], ids[j])
    {
      assert Preferred(scores, ids[i], ids[j]);
    }
    forall i, f: nat | 0 <= i < |ids| && f < |scores| && f !in ids
      ensures Before(scores, ids[i], f)
    {
      assert f in Span(0, |scores|) && Preferred(scores, ids[i], f);
    }
  }

  // ----- weights -----

  /**
   Weights are the chosen experts' unmasked scores times one scale: the factor, or with renormalisation what makes the
   sum of these scores the factor, unless that sum is 0.  sums are their partial sums.
   */
  lemma WeightsResult(tokenScores: seq<real>, ids: seq<nat>, topk: nat, renormalize: bool, factor: real, outWeights: seq<real>, outIds: seq<nat>)
    returns (sums: seq<real>, scale: real)
    requires IsRouting(tokenScores, ids, topk, renormalize, factor, outWeights, outIds)
    ensures |outIds| == |outWeights| == topk && (forall i :: |ids| <= i < topk ==> outIds[i] == 0 && outWeights[i] == 0.0)
    ensures forall i :: 0 <= i < |ids| ==> outIds[i] == ids[i] < |tokenScores| && outWeights[i] == tokenScores[ids[i]] * scale
    ensures |sums| == |ids| + 1 && sums[0] == 0.0 && forall i :: 0 <= i < |ids| ==> sums[i + 1] == sums[i] + tokenScores[ids[i]]
    ensures if renormalize && sums[|ids|] != 0.0 then scale * sums[|ids|] == factor else scale == factor
  {
    sums := PartialSums(tokenScores, ids);
    scale := Scale(tokenScores, ids, renormalize, factor);
  }

  lemma PartialSums(tokenScores: seq<real>, ids: seq<nat>) returns (sums: seq<real>)
    requires forall i :: 0 <= i < |ids| ==> ids[i] < |tokenScores|
    ensures |sums| == |ids| + 1 && sums[0] == 0.0 && forall i :: 0 <= i < |ids| ==> sums[i + 1] == sums[i] + tokenScores[ids[i]]
    ensures sums[|ids|] == SumWeights(tokenScores, ids)
  {
    sums := seq(|ids| + 1, n requires 0 <= n <= |ids| => SumWeights(tokenScores, ids[..n]));
    forall i | 0 <= i < |ids|
      ensures sums[i + 1] == sums[i] + tokenScores[ids[i]]
    {
      assert ids[..i + 1][..i] == ids[..i];
    }
    assert ids[..|ids|] == ids;
  }

  // ----- shapes -----

  /** The shapes grouped routing accepts: groups of equal size, at least 2, and everything within the kernel's limits. */
  lemma GroupedShapes(numExperts: int, numGroups: int, topkGroup: int, topk: int)
    ensures GroupedShapeOk(numExperts, numGroups, topkGroup, topk)
       <==> && 1 <= numGroups <= 128 && 1 <= topkGroup <= 128 && 1 <= topk <= 64 && numExperts <= 1024
            && exists size: nat :: size >= 2 && numExperts == numGroups * size
  {
    if 1 <= numGroups {
      if GroupedShapeOk(numExperts, numGroups, topkGroup, topk) {
        var size := numExperts / numGroups;
        assert numExperts == numGroups * size;
        assert size >= 2 by {
          if size <= 1 {
            MulLe(size, 1, numGroups);
          }
        }
      }
      forall size: nat | size >= 2 && numExperts == numGroups * size
        ensures numExperts % numGroups == 0 && numExperts > numGroups
      {
        DivUnique(numExperts, numGroups, size, 0);
        MulLe(2, size, numGroups);
      }
    }
  }

  lemma RegularShapes(numExperts: int, topk: int)
    ensures RegularShapeOk(numExperts, topk) <==> 1 <= topk <= 64 && 1 <= numExperts <= 1024
  {
  }

  // ----- an example -----

  /** Two groups, scores 5, 0 and 4, 4: with a bias the second group wins by 8 to 5, without one the first by 5 to 4. */
  lemma BiasExample()
    ensures RoutedGroups([5, 0, 4, 4], 2, 2, 1, true) == [1] && RoutedGroups([5, 0, 4, 4], 2, 2, 1, false) == [0]
    ensures RoutedOutcome([5, 0, 4, 4], 2, 2, 1, 2, true) == Some([2, 3]) && RoutedOutcome([5, 0, 4, 4], 2, 2, 1, 2, false) == Some([0, 1])
  {
    BiasedGroups();
    BiasedExperts();
  }

  lemma BiasedGroups()
    ensures RoutedGroups([5, 0, 4, 4], 2, 2, 1, true) == [1] && RoutedGroups([5, 0, 4, 4], 2, 2, 1, false) == [0]
  {
    SumsOfTwo([5, 0, 4, 4]);
    Maxima([5, 0, 4, 4]);
    OnlyGroup([5, 0, 4, 4], true, 1, 0, 8, 5);
    OnlyGroup([5, 0, 4, 4], false, 0, 1, 5, 4);
  }

  lemma SumsOfTwo(s: seq<int>)
    requires s == [5, 0, 4, 4]
    ensures ScoresGroup(s, 2, true, 0, 5) && ScoresGroup(s, 2, true, 1, 8)
  {
    assert TwoLargest(s, 0, 2, 0, 1) && TwoLargest(s, 2, 4, 2, 3);
  }

  lemma Maxima(s: seq<int>)
    requires s == [5, 0, 4, 4]
    ensures ScoresGroup(s, 2, false, 0, 5) && ScoresGroup(s, 2, false, 1, 4)
  {
    assert s[0] == 5 && s[2] == 4;
  }

  lemma OnlyGroup(s: seq<int>, useBias: bool, g: nat, h: nat, v: int, w: int)
    requires |s| == 4 && g < 2 && h < 2 && g != h && w < v
    requires ScoresGroup(s, 2, useBias, g, v) && ScoresGroup(s, 2, useBias, h, w)
    ensures RoutedGroups(s, 2, 2, 1, useBias) == [g]
  {
    var groups := RoutedGroups(s, 2, 2, 1, useBias);
    GroupsListed(s, 2, 2, 1, useBias);
    assert groups[0] in groups && groups[0] < 2;
    if groups[0] == h {
      assert g !in groups;
      RoutedGroupsAreBest(s, 2, 2, 1, useBias, h, g, w, v);
    }
  }

  lemma BiasedExperts()
    requires RoutedGroups([5, 0, 4, 4], 2, 2, 1, true) == [1] && RoutedGroups([5, 0, 4, 4], 2, 2, 1, false) == [0]
    ensures RoutedOutcome([5, 0, 4, 4], 2, 2, 1, 2, true) == Some([2, 3]) && RoutedOutcome([5, 0, 4, 4], 2, 2, 1, 2, false) == Some([0, 1])
  {
    var s := [5, 0, 4, 4];
    AllAboveRouted(s, 2, 2, 1, 2, true);
    AllAboveRouted(s, 2, 2, 1, 2, false);
    ReferenceIsBest(s, 2, 2, 1, 2, true);
    ReferenceIsBest(s, 2, 2, 1, 2, false);
    BothOfGroup(s, 1, RoutedExperts(s, 2, 2, 1, 2, true));
    BothOfGroup(s, 0, RoutedExperts(s, 2, 2, 1, 2, false));
  }

  lemma BothOfGroup(s: seq<int>, g: nat, ids: seq<nat>)
    requires |s| == 4 && g < 2 && |ids| == 2 && BestOfGroups(s, 2, [g], ids) && s[2 * g] >= s[2 * g + 1]
    ensures ids == [2 * g, 2 * g + 1]
  {
    assert ids[0] / 2 in [g] && ids[1] / 2 in [g];
    assert Before(s, ids[0], ids[1]);
  }
}
