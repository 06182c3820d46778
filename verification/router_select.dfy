/**
 The scan-and-mask selections of the router kernel: top groups and top experts, scalar or with an HVX
 maximum.  A chosen entry is overwritten with a sentinel, so the next scan finds the next best.
 */
module RouterSelect {
  import opened RouterLanes
  import opened RouterSentinel
  import opened RouterTopK
  import opened RouterTop2

  /** The ids begin .. end. */
  function Span(begin: nat, end: nat): (s: set<nat>)
    ensures forall k: nat :: k in s <==> begin <= k < end
  {
    if begin >= end then {} else Span(begin, end - 1) + {end - 1}
  }

  /** (value, index) is the best of the entries in s, or still below all of them. */
  ghost predicate Leads(a: seq<int>, s: set<nat>, value: int, index: nat)
    requires Experts(a, s)
  {
    && (value > NEG_INF ==> index in s && a[index] == value)
    && forall c :: c in s ==>
         (c == index && a[c] == value) || BetterPair(value, index, a[c], c) || a[c] == value == NEG_INF
  }

  /** a is scores with the entries listed in ids overwritten by the mask. */
  ghost predicate Masked(a: seq<int>, scores: seq<int>, ids: seq<nat>, mask: int) {
    && |a| == |scores|
    && forall c :: 0 <= c < |a| ==> a[c] == if c in ids then mask else scores[c]
  }

  /** The leader over all candidates is the next best one, because masked entries cannot lead. */
  lemma LeaderIsNext(scores: seq<int>, candidates: set<nat>, ids: seq<nat>, a: seq<int>, mask: int, value: int, index: nat)
    requires Experts(scores, candidates) && IsTop(scores, candidates, ids) && |ids| < |candidates|
    requires Masked(a, scores, ids, mask) && mask >= NEG_INF
    requires forall c :: c in candidates ==> scores[c] > mask
    requires Leads(a, candidates, value, index)
    ensures index in candidates && IsTop(scores, candidates, ids + [index])
    ensures Masked(a[index := mask], scores, ids + [index], mask)
  {
    var c0 := NotAllChosen(candidates, ids);
    assert a[c0] == scores[c0];
    assert value > mask;
    assert index !in ids;
    var more := ids + [index];
    forall i, j | 0 <= i < j < |more|
      ensures Preferred(scores, more[i], more[j])
    {
    }
    forall i, c | 0 <= i < |more| && c in candidates && c !in more
      ensures Preferred(scores, more[i], c)
    {
      assert c !in ids && c != index;
    }
  }

  /** The leader of a scan is the best of what it has seen. */
  lemma LeaderIsBest(a: seq<int>, candidates: set<nat>, value: int, index: nat)
    requires Experts(a, candidates) && candidates != {} && Leads(a, candidates, value, index)
    requires forall c :: c in candidates ==> a[c] >= NEG_MAX
    ensures index in candidates && index == Best(a, candidates)
  {
    var c :| c in candidates;
    assert value >= a[c] > NEG_INF;
    assert IsBest(a, candidates, index);
    BestUnique(a, candidates, index, Best(a, candidates));
  }

  lemma MaskOneMore(scores: seq<int>, ids: seq<nat>, index: nat)
    requires index < |scores|
    ensures WithMask(scores, ids)[index := NEG_MAX] == WithMask(scores, ids + [index])
  {
  }

  /** Above the sentinel the rounds take the top k. */
  lemma AllAbove(scores: seq<int>, candidates: set<nat>, k: nat)
    requires Experts(scores, candidates) && k <= |candidates|
    ensures candidates != {} && (forall e :: 0 <= e < |scores| ==> scores[e] > NEG_MAX) ==>
              ScanSelect(scores, candidates, k) == TopK(scores, candidates, k)
  {
    if candidates != {} && forall e :: 0 <= e < |scores| ==> scores[e] > NEG_MAX {
      assert Above(scores, candidates) == candidates;
      ScanAbove(scores, candidates, k);
      TopUnique(scores, candidates, ScanSelect(scores, candidates, k), TopK(scores, candidates, k));
    }
  }

  /** The scalar scan shared by all selections. */
  method ScanForBest(a: array<int>, begin: nat, end: nat, value: int, index: nat, ghost seen: set<nat>)
    returns (bestValue: int, bestIndex: nat)
    requires begin <= end <= a.Length
    requires Experts(a[..], seen) && Leads(a[..], seen, value, index) && value >= NEG_INF
    requires forall k :: begin <= k < end ==> a[k] >= NEG_INF
    ensures Leads(a[..], seen + Span(begin, end), bestValue, bestIndex) && bestValue >= NEG_INF
  {
    bestValue, bestIndex := value, index;
    var k := begin;
    while k < end
      invariant begin <= k <= end
      invariant Leads(a[..], seen + Span(begin, k), bestValue, bestIndex) && bestValue >= NEG_INF
    {
      assert Span(begin, k + 1) == Span(begin, k) + {k};
      if BetterPair(a[k], k, bestValue, bestIndex) {
        bestValue, bestIndex := a[k], k;
      }
      k := k + 1;
    }
  }

  /** The HVX maximum of a span; the reducer intrinsic returns the largest element. */
  method MaxScore(a: array<int>, begin: nat, count: nat) returns (m: int)
    requires begin + count <= a.Length
    ensures count == 0 ==> m == NEG_INF
    ensures count > 0 ==> m in a[begin..begin+count]
    ensures forall k :: begin <= k < begin + count ==> a[k] <= m
  {
    if count == 0 {
      return NEG_INF;
    }
    m := a[begin];
    var k := begin + 1;
    while k < begin + count
      invariant begin < k <= begin + count
      invariant m in a[begin..k]
      invariant forall i :: begin <= i < k ==> a[i] <= m
    {
      assert a[begin..k+1] == a[begin..k] + [a[k]];
      if a[k] > m {
        m := a[k];
      }
      k := k + 1;
    }
  }

  /** `first_expert_with_score_hf`, and with begin 0 `first_group_with_score`. */
  method FirstWithScore(a: array<int>, begin: nat, end: nat, target: int) returns (index: nat)
    requires begin < end <= a.Length && target in a[begin..end]
    ensures begin <= index < end && a[index] == target
    ensures forall k :: begin <= k < index ==> a[k] != target
  {
    assert forall k :: 0 <= k < end - begin ==> a[begin..end][k] == a[begin + k];
    ghost var at: nat :| begin <= at < end && a[at] == target;
    index := begin;
    while index < end
      invariant begin <= index <= at
      invariant forall k :: begin <= k < index ==> a[k] != target
    {
      if a[index] == target {
        return;
      }
      index := index + 1;
    }
  }

  // ----- groups -----

  /** Stores the winning group of a round and masks it. */
  method StoreGroup(groupScores: array<int>, selectedGroups: array<nat>, rank: nat, bestValue: int, bestGroup: nat,
                    ghost scores: seq<int>, ghost candidates: set<nat>)
    requires rank < selectedGroups.Length && rank < |candidates| && Experts(scores, candidates) && |scores| == groupScores.Length
    requires forall g :: g in candidates ==> scores[g] > NEG_INF
    requires IsTop(scores, candidates, selectedGroups[..rank]) && Masked(groupScores[..], scores, selectedGroups[..rank], NEG_INF)
    requires Leads(groupScores[..], candidates, bestValue, bestGroup)
    modifies groupScores, selectedGroups
    ensures IsTop(scores, candidates, selectedGroups[..rank + 1])
    ensures Masked(groupScores[..], scores, selectedGroups[..rank + 1], NEG_INF)
  {
    ghost var ids := selectedGroups[..rank];
    LeaderIsNext(scores, candidates, ids, groupScores[..], NEG_INF, bestValue, bestGroup);
    ghost var masked := groupScores[..][bestGroup := NEG_INF];
    selectedGroups[rank] := bestGroup;
    groupScores[bestGroup] := NEG_INF;
    assert groupScores[..] == masked;
    assert selectedGroups[..rank + 1] == ids + [bestGroup];
  }

  /** `select_top_groups`. */
  method SelectTopGroups(groupScores: array<int>, numGroups: nat, topkGroup: nat, selectedGroups: array<nat>)
    requires topkGroup <= numGroups <= groupScores.Length && topkGroup <= selectedGroups.Length
    requires forall g :: 0 <= g < numGroups ==> groupScores[g] > NEG_INF
    modifies groupScores, selectedGroups
    ensures |Span(0, numGroups)| == numGroups
    ensures selectedGroups[..topkGroup] == TopK(old(groupScores[..]), Span(0, numGroups), topkGroup)
  {
    ghost var scores := groupScores[..];
    SpanSize(0, numGroups);
    var rank := 0;
    while rank < topkGroup
      invariant rank <= topkGroup
      invariant IsTop(scores, Span(0, numGroups), selectedGroups[..rank])
      invariant Masked(groupScores[..], scores, selectedGroups[..rank], NEG_INF)
    {
      var bestValue, bestGroup := ScanForBest(groupScores, 0, numGroups, NEG_INF, 0, {});
      assert {} + Span(0, numGroups) == Span(0, numGroups);
      StoreGroup(groupScores, selectedGroups, rank, bestValue, bestGroup, scores, Span(0, numGroups));
      rank := rank + 1;
    }
    TopUnique(scores, Span(0, numGroups), selectedGroups[..topkGroup], TopK(scores, Span(0, numGroups), topkGroup));
  }

  method LeadingGroupHvx(groupScores: array<int>, numGroups: nat) returns (bestValue: int, bestGroup: nat)
    requires 0 < numGroups <= groupScores.Length
    requires forall g :: 0 <= g < numGroups ==> groupScores[g] >= NEG_INF
    ensures Leads(groupScores[..], Span(0, numGroups), bestValue, bestGroup)
  {
    bestValue := MaxScore(groupScores, 0, numGroups);
    bestGroup := FirstWithScore(groupScores, 0, numGroups, bestValue);
  }

  /** The first groups have been chosen and masked. */
  ghost predicate GroupsChosen(scores: seq<int>, numGroups: nat, ids: seq<nat>, a: seq<int>)
    requires numGroups <= |scores|
  {
    IsTop(scores, Span(0, numGroups), ids) && Masked(a, scores, ids, NEG_INF)
  }

  lemma GroupFloor(scores: seq<int>, numGroups: nat, ids: seq<nat>, a: seq<int>)
    requires numGroups <= |scores| && GroupsChosen(scores, numGroups, ids, a) && forall g :: 0 <= g < numGroups ==> scores[g] > NEG_INF
    ensures forall g :: 0 <= g < numGroups ==> a[g] >= NEG_INF
  {
  }

  /** One round of `select_top_groups_hvx`. */
  method GroupRoundHvx(groupScores: array<int>, numGroups: nat, rank: nat, selectedGroups: array<nat>, ghost scores: seq<int>)
    requires rank < numGroups <= groupScores.Length == |scores| && rank < selectedGroups.Length
    requires forall g :: 0 <= g < numGroups ==> scores[g] > NEG_INF
    requires GroupsChosen(scores, numGroups, selectedGroups[..rank], groupScores[..])
    modifies groupScores, selectedGroups
    ensures GroupsChosen(scores, numGroups, selectedGroups[..rank + 1], groupScores[..])
  {
    SpanSize(0, numGroups);
    GroupFloor(scores, numGroups, selectedGroups[..rank], groupScores[..]);
    var bestValue, bestGroup := LeadingGroupHvx(groupScores, numGroups);
    StoreGroup(groupScores, selectedGroups, rank, bestValue, bestGroup, scores, Span(0, numGroups));
  }

  /** `select_top_groups_hvx`: the maximum, then the first group that has it. */
  method SelectTopGroupsHvx(groupScores: array<int>, numGroups: nat, topkGroup: nat, selectedGroups: array<nat>)
    requires topkGroup <= numGroups <= groupScores.Length && topkGroup <= selectedGroups.Length
    requires forall g :: 0 <= g < numGroups ==> groupScores[g] > NEG_INF
    modifies groupScores, selectedGroups
    ensures |Span(0, numGroups)| == numGroups
    ensures selectedGroups[..topkGroup] == TopK(old(groupScores[..]), Span(0, numGroups), topkGroup)
  {
    ghost var scores := groupScores[..];
    SpanSize(0, numGroups);
    var rank := 0;
    while rank < topkGroup
      invariant rank <= topkGroup
      invariant GroupsChosen(scores, numGroups, selectedGroups[..rank], groupScores[..])
    {
      GroupRoundHvx(groupScores, numGroups, rank, selectedGroups, scores);
      rank := rank + 1;
    }
    TopUnique(scores, Span(0, numGroups), selectedGroups[..topkGroup], TopK(scores, Span(0, numGroups), topkGroup));
  }

  lemma {:induction false} SpanSize(begin: nat, end: nat)
    requires begin <= end
    ensures |Span(begin, end)| == end - begin
    decreases end
  {
    if begin < end {
      SpanSize(begin, end - 1);
      assert Span(begin, end) == Span(begin, end - 1) + {end - 1};
    } else {
      assert Span(begin, end) == {};
    }
  }

  // ----- experts of groups -----

  /** The experts of the listed groups. */
  ghost function GroupExperts(groups: seq<nat>, size: nat): (s: set<nat>) {
    if groups == [] then {}
    else
      var g := groups[|groups|-1];
      GroupExperts(groups[..|groups|-1], size) + Span(g * size, g * size + size)
  }

  /** Groups are distinct and their experts exist. */
  ghost predicate ValidGroups(groups: seq<nat>, size: nat, n: nat) {
    && (forall i, j :: 0 <= i < j < |groups| ==> groups[i] != groups[j])
    && (forall i :: 0 <= i < |groups| ==> groups[i] * size + size <= n)
  }

  lemma {:induction false} GroupExpertsInRange(groups: seq<nat>, size: nat, scores: seq<int>)
    requires ValidGroups(groups, size, |scores|)
    ensures Experts(scores, GroupExperts(groups, size))
    decreases |groups|
  {
    if groups != [] {
      GroupExpertsInRange(groups[..|groups|-1], size, scores);
    }
  }

  /** After `rank` rounds: what was chosen, with its weights, and the masked scores. */
  ghost predicate Chosen(tokenScores: seq<real>, scores: seq<int>, candidates: set<nat>, rank: nat, ids: seq<nat>, weights: seq<real>, a: seq<int>)
    requires Experts(scores, candidates) && |tokenScores| == |scores|
  {
    && |ids| == |weights| == rank && a == WithMask(scores, ids)
    && (rank > 0 ==> candidates != {} && ids == ScanSelect(scores, candidates, rank))
    && forall i :: 0 <= i < rank ==> ids[i] < |tokenScores| && weights[i] == tokenScores[ids[i]]
  }

  lemma ChosenNext(tokenScores: seq<real>, scores: seq<int>, candidates: set<nat>, rank: nat, ids: seq<nat>,
                   weights: seq<real>, a: seq<int>, best: nat)
    requires Experts(scores, candidates) && |tokenScores| == |scores| && candidates != {}
    requires Chosen(tokenScores, scores, candidates, rank, ids, weights, a) && best == Best(a, candidates) && best < |scores|
    ensures Chosen(tokenScores, scores, candidates, rank + 1, ids + [best], weights + [tokenScores[best]], a[best := NEG_MAX])
  {
    MaskOneMore(scores, ids, best);
    assert ids == ScanSelect(scores, candidates, rank);
  }

  /** Above the sentinel the chosen experts are the top k. */
  lemma ChosenIsTopK(tokenScores: seq<real>, scores: seq<int>, candidates: set<nat>, k: nat, ids: seq<nat>, weights: seq<real>, a: seq<int>)
    requires Experts(scores, candidates) && |tokenScores| == |scores| && k <= |candidates|
    requires Chosen(tokenScores, scores, candidates, k, ids, weights, a) && forall e :: 0 <= e < |scores| ==> scores[e] > NEG_MAX
    ensures ids == TopK(scores, candidates, k)
  {
    AllAbove(scores, candidates, k);
  }

  lemma MaskedFloor(scores: seq<int>, ids: seq<nat>)
    requires forall e :: 0 <= e < |scores| ==> scores[e] >= NEG_MAX
    ensures forall e :: 0 <= e < |scores| ==> WithMask(scores, ids)[e] >= NEG_MAX
  {
  }

  /** Stores the winner of a round and masks it. */
  method StoreRound(tokenScores: seq<real>, selectionScores: array<int>, selectedWeights: array<real>, selectedIds: array<nat>, rank: nat,
                    best: nat, ghost scores: seq<int>, ghost candidates: set<nat>)
    requires Experts(scores, candidates) && |tokenScores| == |scores| == selectionScores.Length && candidates != {}
    requires rank < selectedWeights.Length && rank < selectedIds.Length && best < |scores|
    requires Chosen(tokenScores, scores, candidates, rank, selectedIds[..rank], selectedWeights[..rank], selectionScores[..])
    requires best == Best(selectionScores[..], candidates)
    modifies selectionScores, selectedWeights, selectedIds
    ensures Chosen(tokenScores, scores, candidates, rank + 1, selectedIds[..rank + 1], selectedWeights[..rank + 1], selectionScores[..])
  {
    ChosenNext(tokenScores, scores, candidates, rank, selectedIds[..rank], selectedWeights[..rank], selectionScores[..], best);
    selectedIds[rank] := best;
    selectedWeights[rank] := tokenScores[best];
    selectionScores[best] := NEG_MAX;
    assert selectedIds[..rank + 1] == old(selectedIds[..rank]) + [best];
    assert selectedWeights[..rank + 1] == old(selectedWeights[..rank]) + [tokenScores[best]];
    assert selectionScores[..] == old(selectionScores[..])[best := NEG_MAX];
  }

  /** `select_topk_from_groups_scalar_hf`; with one group of all experts, the regular scalar loop. */
  method SelectFromGroupsScalar(tokenScores: seq<real>, selectionScores: array<int>, groups: seq<nat>, size: nat,
                                selectedCount: nat, selectedWeights: array<real>, selectedIds: array<nat>)
    requires |tokenScores| == selectionScores.Length
    requires ValidGroups(groups, size, selectionScores.Length) && (selectedCount > 0 ==> GroupExperts(groups, size) != {})
    requires selectedCount <= selectedWeights.Length && selectedCount <= selectedIds.Length
    requires forall e :: 0 <= e < selectionScores.Length ==> selectionScores[e] >= NEG_MAX
    modifies selectionScores, selectedWeights, selectedIds
    ensures Experts(old(selectionScores[..]), GroupExperts(groups, size))
    ensures Chosen(tokenScores, old(selectionScores[..]), GroupExperts(groups, size), selectedCount, selectedIds[..selectedCount],
                   selectedWeights[..selectedCount], selectionScores[..])
  {
    ghost var scores := selectionScores[..];
    ghost var candidates := GroupExperts(groups, size);
    GroupExpertsInRange(groups, size, scores);
    assert WithMask(scores, []) == scores;
    var rank := 0;
    while rank < selectedCount
      invariant rank <= selectedCount
      invariant Chosen(tokenScores, scores, candidates, rank, selectedIds[..rank], selectedWeights[..rank], selectionScores[..])
    {
      MaskedFloor(scores, selectedIds[..rank]);
      var bestValue, bestExpert := ScanGroups(selectionScores, groups, size);
      LeaderIsBest(selectionScores[..], candidates, bestValue, bestExpert);
      StoreRound(tokenScores, selectionScores, selectedWeights, selectedIds, rank, bestExpert, scores, candidates);
      rank := rank + 1;
    }
  }

  method ScanGroups(selectionScores: array<int>, groups: seq<nat>, size: nat) returns (bestValue: int, bestExpert: nat)
    requires ValidGroups(groups, size, selectionScores.Length)
    requires forall e :: 0 <= e < selectionScores.Length ==> selectionScores[e] >= NEG_MAX
    ensures Experts(selectionScores[..], GroupExperts(groups, size))
    ensures Leads(selectionScores[..], GroupExperts(groups, size), bestValue, bestExpert)
  {
    bestValue, bestExpert := NEG_INF, 0;
    var groupRank := 0;
    while groupRank < |groups|
      invariant groupRank <= |groups|
      invariant Experts(selectionScores[..], GroupExperts(groups[..groupRank], size))
      invariant Leads(selectionScores[..], GroupExperts(groups[..groupRank], size), bestValue, bestExpert)
      invariant bestValue >= NEG_INF
    {
      assert groups[..groupRank + 1][..groupRank] == groups[..groupRank];
      var begin := groups[groupRank] * size;
      bestValue, bestExpert := ScanForBest(selectionScores, begin, begin + size, bestValue, bestExpert, GroupExperts(groups[..groupRank], size));
      groupRank := groupRank + 1;
    }
    assert groups[..|groups|] == groups;
  }

  /** `select_topk_from_groups_hvx_hf`: a group whose maximum is lower is skipped. */
  method SelectFromGroupsHvx(tokenScores: seq<real>, selectionScores: array<int>, groups: seq<nat>, size: nat,
                                selectedCount: nat, selectedWeights: array<real>, selectedIds: array<nat>)
    requires |tokenScores| == selectionScores.Length && size > 0
    requires ValidGroups(groups, size, selectionScores.Length) && (selectedCount > 0 ==> GroupExperts(groups, size) != {})
    requires selectedCount <= selectedWeights.Length && selectedCount <= selectedIds.Length
    requires forall e :: 0 <= e < selectionScores.Length ==> selectionScores[e] >= NEG_MAX
    modifies selectionScores, selectedWeights, selectedIds
    ensures Experts(old(selectionScores[..]), GroupExperts(groups, size))
    ensures Chosen(tokenScores, old(selectionScores[..]), GroupExperts(groups, size), selectedCount, selectedIds[..selectedCount],
                   selectedWeights[..selectedCount], selectionScores[..])
  {
    ghost var scores := selectionScores[..];
    ghost var candidates := GroupExperts(groups, size);
    GroupExpertsInRange(groups, size, scores);
    assert WithMask(scores, []) == scores;
    var rank := 0;
    while rank < selectedCount
      invariant rank <= selectedCount
      invariant Chosen(tokenScores, scores, candidates, rank, selectedIds[..rank], selectedWeights[..rank], selectionScores[..])
    {
      MaskedFloor(scores, selectedIds[..rank]);
      var bestValue, bestExpert := ScanGroupsHvx(selectionScores, groups, size);
      LeaderIsBest(selectionScores[..], candidates, bestValue, bestExpert);
      StoreRound(tokenScores, selectionScores, selectedWeights, selectedIds, rank, bestExpert, scores, candidates);
      rank := rank + 1;
    }
  }

  /** One group of the HVX scan: the same leader as the scalar scan of that group. */
  method ScanForBestHvx(a: array<int>, begin: nat, size: nat, value: int, index: nat, ghost seen: set<nat>)
    returns (bestValue: int, bestIndex: nat)
    requires begin + size <= a.Length && size > 0
    requires Experts(a[..], seen) && Leads(a[..], seen, value, index) && value >= NEG_INF
    requires forall k :: begin <= k < begin + size ==> a[k] >= NEG_INF
    ensures Leads(a[..], seen + Span(begin, begin + size), bestValue, bestIndex) && bestValue >= NEG_INF
  {
    bestValue, bestIndex := value, index;
    var groupBest := MaxScore(a, begin, size);
    if groupBest < bestValue {
      return;
    }
    var groupExpert := FirstWithScore(a, begin, begin + size, groupBest);
    if BetterPair(groupBest, groupExpert, bestValue, bestIndex) {
      bestValue, bestIndex := groupBest, groupExpert;
    }
  }

  method ScanGroupsHvx(selectionScores: array<int>, groups: seq<nat>, size: nat) returns (bestValue: int, bestExpert: nat)
    requires ValidGroups(groups, size, selectionScores.Length) && size > 0
    requires forall e :: 0 <= e < selectionScores.Length ==> selectionScores[e] >= NEG_MAX
    ensures Experts(selectionScores[..], GroupExperts(groups, size))
    ensures Leads(selectionScores[..], GroupExperts(groups, size), bestValue, bestExpert)
  {
    bestValue, bestExpert := NEG_INF, 0;
    var groupRank := 0;
    while groupRank < |groups|
      invariant groupRank <= |groups|
      invariant Experts(selectionScores[..], GroupExperts(groups[..groupRank], size))
      invariant Leads(selectionScores[..], GroupExperts(groups[..groupRank], size), bestValue, bestExpert)
      invariant bestValue >= NEG_INF
    {
      assert groups[..groupRank + 1][..groupRank] == groups[..groupRank];
      var begin := groups[groupRank] * size;
      bestValue, bestExpert := ScanForBestHvx(selectionScores, begin, size, bestValue, bestExpert, GroupExperts(groups[..groupRank], size));
      groupRank := groupRank + 1;
    }
    assert groups[..|groups|] == groups;
  }
}
