/**
 Routing one token: group scores, top groups, top experts, normalised weights.  Sizes decide which
 algorithm runs; the result is the same function of the scores for all of them as long as enough experts
 score above the sentinel, and exactly then for the selection of experts.
 */
module RouterRoute {
  import opened Arithmetic
  import opened Wrappers
  import opened RouterLanes
  import opened RouterTopK
  import opened RouterTop2
  import opened RouterSentinel
  import opened RouterSelect

  const MAX_GROUPS := 128
  const MAX_TOPK := 64
  const MAX_EXPERTS := 1024

  // ----- experts of a set of groups -----

  lemma {:induction false} InGroupExperts(groups: seq<nat>, size: nat, e: nat)
    requires size > 0
    ensures e in GroupExperts(groups, size) <==> e / size in groups
    decreases |groups|
  {
    if groups != [] {
      var n := |groups| - 1;
      InGroupExperts(groups[..n], size, e);
      var g := groups[n];
      assert e == size * (e / size) + e % size;
      if g * size <= e < g * size + size {
        DivUnique(e, size, g, e - g * size);
      }
      assert groups == groups[..n] + [g];
    }
  }

  lemma {:induction false} GroupExpertsSize(groups: seq<nat>, size: nat)
    requires size > 0
    requires forall i, j :: 0 <= i < j < |groups| ==> groups[i] != groups[j]
    ensures |GroupExperts(groups, size)| == |groups| * size
    decreases |groups|
  {
    if groups != [] {
      var n := |groups| - 1;
      GroupExpertsSize(groups[..n], size);
      assert groups[n] !in groups[..n];
      OneMoreGroup(groups[..n], groups[n], size);
      Product(n, size);
      assert groups[..n] + [groups[n]] == groups;
    }
  }

  lemma OneMoreGroup(groups: seq<nat>, g: nat, size: nat)
    requires size > 0 && g !in groups
    ensures |GroupExperts(groups + [g], size)| == |GroupExperts(groups, size)| + size
  {
    var begin: nat := g * size;
    GroupJoins(groups, g, size, begin);
    AddSpan(GroupExperts(groups, size), begin, size);
  }

  lemma GroupJoins(groups: seq<nat>, g: nat, size: nat, begin: nat)
    requires size > 0 && g !in groups && begin == g * size
    ensures GroupExperts(groups + [g], size) == GroupExperts(groups, size) + Span(begin, begin + size)
    ensures GroupExperts(groups, size) !! Span(begin, begin + size)
  {
    assert (groups + [g])[..|groups|] == groups;
    OtherGroups(groups, g, size);
  }

  lemma AddSpan(s: set<nat>, begin: nat, size: nat)
    requires s !! Span(begin, begin + size)
    ensures |s + Span(begin, begin + size)| == |s| + size
  {
    assert |Span(begin, begin + size)| == size by { SpanSize(begin, begin + size); }
    UnionSize(s, Span(begin, begin + size));
  }

  lemma UnionSize<T>(a: set<T>, b: set<T>)
    requires a !! b
    ensures |a + b| == |a| + |b|
  {
  }

  lemma Product(n: nat, size: nat)
    ensures (n + 1) * size == n * size + size
  {
  }

  lemma OtherGroups(groups: seq<nat>, g: nat, size: nat)
    requires size > 0 && g !in groups
    ensures GroupExperts(groups, size) !! Span(g * size, g * size + size)
  {
    forall e | e in GroupExperts(groups, size)
      ensures e !in Span(g * size, g * size + size)
    {
      InGroupExperts(groups, size, e);
      if g * size <= e < g * size + size {
        DivUnique(e, size, g, e - g * size);
      }
    }
  }

  lemma SameMembers<T>(a: seq<T>, b: seq<T>, x: T)
    requires multiset(a) == multiset(b)
    ensures x in a <==> x in b
  {
    assert x in a <==> x in multiset(a);
    assert x in b <==> x in multiset(b);
  }

  lemma SameExperts(a: seq<nat>, b: seq<nat>, size: nat)
    requires size > 0 && multiset(a) == multiset(b)
    ensures GroupExperts(a, size) == GroupExperts(b, size)
  {
    forall e: nat
      ensures e in GroupExperts(a, size) <==> e in GroupExperts(b, size)
    {
      InGroupExperts(a, size, e);
      InGroupExperts(b, size, e);
      SameMembers(a, b, e / size);
    }
  }

  // ----- bitonic path -----

  ghost predicate Sorted(s: seq<nat>) {
    forall p, q :: 0 <= p < q < |s| ==> s[p] <= s[q]
  }

  /** The insertion sort of the selected groups. */
  method InsertionSort(a: array<nat>)
    modifies a
    ensures Sorted(a[..])
    ensures multiset(a[..]) == multiset(old(a[..]))
  {
    var i := 1;
    while i < a.Length
      invariant a.Length == 0 || 1 <= i <= a.Length
      invariant Sorted(a[..MinNat(i, a.Length)])
      invariant multiset(a[..]) == multiset(old(a[..]))
    {
      InsertGroup(a, i);
      i := i + 1;
    }
    assert a[..a.Length] == a[..];
  }

  method InsertGroup(a: array<nat>, i: nat)
    requires i < a.Length && Sorted(a[..i])
    modifies a
    ensures Sorted(a[..i+1])
    ensures multiset(a[..]) == multiset(old(a[..]))
  {
    var group := a[i];
    ghost var whole := a[..];
    var j := i - 1;
    while j >= 0 && a[j] > group
      invariant -1 <= j < i
      invariant forall p :: 0 <= p <= j || i < p < a.Length ==> a[p] == whole[p]
      invariant forall p :: j + 2 <= p <= i ==> a[p] == whole[p - 1]
      invariant forall p :: j + 1 <= p < i ==> whole[p] > group
    {
      a[j + 1] := a[j];
      j := j - 1;
    }
    a[j + 1] := group;
    Inserted(whole, a[..], j + 1, i);
  }

  /** r is s with the element of place i moved down to `at` and those between moved up by one. */
  ghost predicate MovedDown(s: seq<nat>, r: seq<nat>, at: nat, i: nat) {
    && at <= i < |s| == |r|
    && (forall p :: 0 <= p < at || i < p < |s| ==> r[p] == s[p])
    && r[at] == s[i]
    && (forall p :: at < p <= i ==> r[p] == s[p - 1])
  }

  lemma MovedMultiset(s: seq<nat>, r: seq<nat>, at: nat, i: nat)
    requires MovedDown(s, r, at, i)
    ensures multiset(r) == multiset(s)
  {
    assert r == s[..at] + [s[i]] + s[at..i] + s[i+1..];
    assert s == s[..at] + s[at..i] + [s[i]] + s[i+1..];
  }

  lemma Inserted(s: seq<nat>, r: seq<nat>, at: nat, i: nat)
    requires MovedDown(s, r, at, i) && Sorted(s[..i])
    requires forall p :: at <= p < i ==> s[p] > s[i]
    requires at > 0 ==> s[at-1] <= s[i]
    ensures Sorted(r[..i+1]) && multiset(r) == multiset(s)
  {
    MovedMultiset(s, r, at, i);
    assert forall p, q :: 0 <= p < q < i ==> s[p] == s[..i][p] <= s[..i][q] == s[q];
    forall p, q | 0 <= p < q < i + 1
      ensures r[p] <= r[q]
    {
    }
  }

  /** Scores and ids of the sorted groups' experts, in ascending id order. */
  method BuildCandidates(selectionScores: array<int>, sortedGroups: seq<nat>, size: nat)
    returns (candidateScores: seq<int>, candidateIds: seq<nat>)
    requires forall i, j :: 0 <= i < j < |sortedGroups| ==> sortedGroups[i] < sortedGroups[j]
    requires ValidGroups(sortedGroups, size, selectionScores.Length)
    ensures |candidateScores| == |candidateIds| == |sortedGroups| * size
    ensures Ascending(candidateIds) && SetOf(candidateIds) == GroupExperts(sortedGroups, size)
    ensures forall i :: 0 <= i < |candidateIds| ==>
      candidateIds[i] < selectionScores.Length && candidateScores[i] == selectionScores[candidateIds[i]]
  {
    candidateScores, candidateIds := [], [];
    var groupRank := 0;
    while groupRank < |sortedGroups|
      invariant groupRank <= |sortedGroups|
      invariant |candidateScores| == |candidateIds| == groupRank * size
      invariant Ascending(candidateIds) && SetOf(candidateIds) == GroupExperts(sortedGroups[..groupRank], size)
      invariant forall i :: 0 <= i < |candidateIds| ==>
        candidateIds[i] < selectionScores.Length && candidateScores[i] == selectionScores[candidateIds[i]]
      invariant groupRank < |sortedGroups| ==> forall i :: 0 <= i < |candidateIds| ==> candidateIds[i] < sortedGroups[groupRank] * size
    {
      candidateScores, candidateIds := AppendGroup(selectionScores, sortedGroups[groupRank] * size, size, candidateScores, candidateIds);
      assert sortedGroups[..groupRank + 1][..groupRank] == sortedGroups[..groupRank];
      if groupRank + 1 < |sortedGroups| {
        NextGroupAbove(sortedGroups[groupRank], sortedGroups[groupRank + 1], size);
      }
      groupRank := groupRank + 1;
      assert groupRank * size == (groupRank - 1) * size + size;
    }
    assert sortedGroups[..|sortedGroups|] == sortedGroups;
  }

  method AppendGroup(selectionScores: array<int>, begin: nat, size: nat, scores: seq<int>, ids: seq<nat>)
    returns (candidateScores: seq<int>, candidateIds: seq<nat>)
    requires begin + size <= selectionScores.Length && |scores| == |ids|
    requires Ascending(ids) && forall i :: 0 <= i < |ids| ==> ids[i] < begin && scores[i] == selectionScores[ids[i]]
    ensures |candidateScores| == |candidateIds| == |ids| + size
    ensures Ascending(candidateIds) && SetOf(candidateIds) == SetOf(ids) + Span(begin, begin + size)
    ensures forall i :: 0 <= i < |candidateIds| ==>
      candidateIds[i] < begin + size && candidateScores[i] == selectionScores[candidateIds[i]]
  {
    candidateScores, candidateIds := scores, ids;
    var expert := begin;
    while expert < begin + size
      invariant begin <= expert <= begin + size
      invariant |candidateScores| == |candidateIds| == |ids| + (expert - begin)
      invariant Ascending(candidateIds) && SetOf(candidateIds) == SetOf(ids) + Span(begin, expert)
      invariant forall i :: 0 <= i < |candidateIds| ==>
        candidateIds[i] < expert && candidateScores[i] == selectionScores[candidateIds[i]]
    {
      assert SetOf(candidateIds + [expert]) == SetOf(candidateIds) + {expert};
      candidateScores := candidateScores + [selectionScores[expert]];
      candidateIds := candidateIds + [expert];
      expert := expert + 1;
    }
  }

  lemma NextGroupAbove(g: nat, h: nat, size: nat)
    requires g < h
    ensures g * size + size <= h * size
  {
    MulLe(g + 1, h, size);
    MulLe(g, g, size);
  }

  /** `select_topk_from_groups_bitonic_hf`: leaves the selection scores, which are arbitrary, as they are. */
  method SelectFromGroupsBitonic(tokenScores: seq<real>, selectionScores: array<int>, groups: seq<nat>, size: nat,
                                 selectedCount: nat, selectedWeights: array<real>, selectedIds: array<nat>) returns (ok: bool)
    requires |tokenScores| == selectionScores.Length <= MAX_EXPERTS && size > 0
    requires ValidGroups(groups, size, selectionScores.Length) && |groups| <= MAX_GROUPS
    requires selectedCount <= LANES && selectedCount <= |GroupExperts(groups, size)|
    requires selectedCount <= selectedWeights.Length && selectedCount <= selectedIds.Length
    modifies selectedWeights, selectedIds
    ensures Experts(selectionScores[..], GroupExperts(groups, size))
    ensures Stored(tokenScores, BitonicSelect(selectionScores[..], GroupExperts(groups, size), selectedCount), selectedCount, ok,
                   selectedIds[..], selectedWeights[..])
  {
    ghost var scores := selectionScores[..];
    GroupExpertsInRange(groups, size, scores);
    var sorted := SortedGroups(groups);
    SameExperts(sorted, groups, size);
    SortedValid(groups, sorted, size, selectionScores.Length);
    var candidateScores, candidateIds := BuildCandidates(selectionScores, sorted, size);
    AscendingSetSize(candidateIds);
    ok := SelectTopKCandidatesBitonic(tokenScores, candidateScores, candidateIds, selectedCount, selectedWeights, selectedIds, scores);
    BitonicStored(tokenScores, scores, SetOf(candidateIds), selectedCount, ok, selectedIds[..], selectedWeights[..]);
  }

  /** ok says whether there is an outcome; then ids and weights start with it. */
  ghost predicate Stored(tokenScores: seq<real>, outcome: Option<seq<nat>>, k: nat, ok: bool, ids: seq<nat>, weights: seq<real>) {
    && k <= |ids| && k <= |weights| && ok == outcome.Some?
    && (ok ==> ids[..k] == outcome.value && forall i :: 0 <= i < k ==> ids[i] < |tokenScores| && weights[i] == tokenScores[ids[i]])
  }

  lemma BitonicStored(tokenScores: seq<real>, scores: seq<int>, candidates: set<nat>, k: nat, ok: bool, ids: seq<nat>, weights: seq<real>)
    requires Experts(scores, candidates) && |tokenScores| == |scores| && k <= |candidates| && k <= |ids| && k <= |weights|
    requires ok <==> k <= |Above(scores, candidates)|
    requires ok ==> ids[..k] == TopK(scores, candidates, k)
    requires ok ==> forall i :: 0 <= i < k && ids[i] < |tokenScores| ==> weights[i] == tokenScores[ids[i]]
    ensures Stored(tokenScores, BitonicSelect(scores, candidates, k), k, ok, ids, weights)
  {
    if ok {
      forall i | 0 <= i < k
        ensures ids[i] < |tokenScores|
      {
        assert ids[..k][i] in candidates;
      }
    }
  }

  lemma ScanStored(tokenScores: seq<real>, scores: seq<int>, candidates: set<nat>, k: nat, ids: seq<nat>, weights: seq<real>, a: seq<int>)
    requires Experts(scores, candidates) && |tokenScores| == |scores| && k <= |candidates| && k <= |ids| && k <= |weights|
    requires Chosen(tokenScores, scores, candidates, k, ids[..k], weights[..k], a) && !TakesBitonic(|candidates|, k)
    ensures Stored(tokenScores, Selected(scores, candidates, k), k, true, ids, weights)
  {
    forall i | 0 <= i < k
      ensures ids[i] < |tokenScores| && weights[i] == tokenScores[ids[i]]
    {
      assert ids[..k][i] == ids[i] && weights[..k][i] == weights[i];
    }
  }

  method SortedGroups(groups: seq<nat>) returns (sorted: seq<nat>)
    requires forall i, j :: 0 <= i < j < |groups| ==> groups[i] != groups[j]
    ensures multiset(sorted) == multiset(groups)
    ensures forall i, j :: 0 <= i < j < |sorted| ==> sorted[i] < sorted[j]
  {
    var a := new nat[|groups|](i requires 0 <= i < |groups| => groups[i]);
    assert a[..] == groups;
    InsertionSort(a);
    sorted := a[..];
    StrictlySorted(groups, sorted);
  }

  lemma StrictlySorted(groups: seq<nat>, sorted: seq<nat>)
    requires forall i, j :: 0 <= i < j < |groups| ==> groups[i] != groups[j]
    requires multiset(sorted) == multiset(groups)
    requires forall i, j :: 0 <= i < j < |sorted| ==> sorted[i] <= sorted[j]
    ensures forall i, j :: 0 <= i < j < |sorted| ==> sorted[i] < sorted[j]
  {
    forall i, j | 0 <= i < j < |sorted|
      ensures sorted[i] < sorted[j]
    {
      OccursOnce(groups, sorted[i]);
      if sorted[i] == sorted[j] {
        DistinctCount(sorted, i, j);
      }
    }
  }

  lemma {:induction false} OccursOnce(s: seq<nat>, x: nat)
    requires forall i, j :: 0 <= i < j < |s| ==> s[i] != s[j]
    ensures multiset(s)[x] <= 1
    decreases |s|
  {
    if s != [] {
      var n := |s| - 1;
      OccursOnce(s[..n], x);
      assert s == s[..n] + [s[n]];
      assert s[n] !in s[..n];
      assert multiset(s[..n])[s[n]] == 0;
    }
  }

  lemma SortedValid(groups: seq<nat>, sorted: seq<nat>, size: nat, n: nat)
    requires ValidGroups(groups, size, n) && multiset(sorted) == multiset(groups)
    requires forall i, j :: 0 <= i < j < |sorted| ==> sorted[i] < sorted[j]
    ensures ValidGroups(sorted, size, n) && |sorted| == |groups|
  {
    assert |multiset(sorted)| == |sorted| && |multiset(groups)| == |groups|;
    forall i | 0 <= i < |sorted|
      ensures sorted[i] * size + size <= n
    {
      assert sorted[i] in multiset(sorted);
      assert sorted[i] in groups;
    }
  }

  // ----- what a routed token is -----

  ghost function MaxOf(s: seq<int>): (m: int)
    requires |s| > 0
    ensures m in s && forall k :: 0 <= k < |s| ==> s[k] <= m
  {
    if |s| == 1 then s[0]
    else
      var m := MaxOf(s[..|s|-1]);
      assert forall k :: 0 <= k < |s| - 1 ==> s[k] == s[..|s|-1][k];
      if s[|s|-1] > m then s[|s|-1] else m
  }

  /** With a bias a group scores its two best experts, without one its best. */
  ghost function GroupScore(span: seq<int>, useBias: bool): int
    requires |span| > 0
  {
    if useBias then Top2Sum(span) else MaxOf(span)
  }

  lemma GroupInRange(g: nat, numGroups: nat, size: nat)
    requires g < numGroups
    ensures g * size + size <= numGroups * size
  {
    MulLe(g + 1, numGroups, size);
    MulLe(g, g, size);
  }

  ghost function GroupScores(scores: seq<int>, numGroups: nat, size: nat, useBias: bool): (r: seq<int>)
    requires size > 0 && numGroups * size == |scores|
    ensures |r| == numGroups
  {
    seq(numGroups, g requires 0 <= g < numGroups =>
      GroupInRange(g, numGroups, size); GroupScore(scores[g * size..g * size + size], useBias))
  }

  /** The groups a token is routed to: the best ones by group score. */
  ghost function RoutedGroups(scores: seq<int>, numGroups: nat, size: nat, topkGroup: nat, useBias: bool): (groups: seq<nat>)
    requires size > 0 && numGroups * size == |scores|
    ensures |groups| == MinNat(topkGroup, numGroups) && ValidGroups(groups, size, |scores|)
  {
    SpanSize(0, numGroups);
    var groups := TopK(GroupScores(scores, numGroups, size, useBias), Span(0, numGroups), MinNat(topkGroup, numGroups));
    TopGroupsValid(GroupScores(scores, numGroups, size, useBias), groups, numGroups, size);
    groups
  }

  lemma TopGroupsValid(groupScores: seq<int>, groups: seq<nat>, numGroups: nat, size: nat)
    requires |groupScores| == numGroups
    requires IsTop(groupScores, Span(0, numGroups), groups)
    ensures ValidGroups(groups, size, numGroups * size)
  {
    forall i, j | 0 <= i < j < |groups|
      ensures groups[i] != groups[j]
    {
      assert Preferred(groupScores, groups[i], groups[j]);
    }
    forall i | 0 <= i < |groups|
      ensures groups[i] * size + size <= numGroups * size
    {
      GroupInRange(groups[i], numGroups, size);
    }
  }

  /** The experts a token is routed to, best first: the best experts of the best groups. */
  ghost function RoutedExperts(scores: seq<int>, numGroups: nat, size: nat, topkGroup: nat, topk: nat, useBias: bool): (ids: seq<nat>)
    requires size > 0 && numGroups * size == |scores|
    ensures forall i :: 0 <= i < |ids| ==> ids[i] < |scores|
    ensures forall i, j :: 0 <= i < j < |ids| ==> ids[i] != ids[j]
  {
    var groups := RoutedGroups(scores, numGroups, size, topkGroup, useBias);
    GroupExpertsInRange(groups, size, scores);
    GroupExpertsSize(groups, size);
    var ids := TopK(scores, GroupExperts(groups, size), MinNat(topk, |groups| * size));
    assert forall i, j :: 0 <= i < j < |ids| ==> Preferred(scores, ids[i], ids[j]);
    ids
  }

  /** What the kernel yields for the experts of a token, None for a failure. */
  ghost function RoutedOutcome(scores: seq<int>, numGroups: nat, size: nat, topkGroup: nat, topk: nat, useBias: bool): (r: Option<seq<nat>>)
    requires size > 0 && numGroups * size == |scores|
    ensures r.Some? ==> forall i :: 0 <= i < |r.value| ==> r.value[i] < |scores|
  {
    var groups := RoutedGroups(scores, numGroups, size, topkGroup, useBias);
    GroupExpertsInRange(groups, size, scores);
    GroupExpertsSize(groups, size);
    Selected(scores, GroupExperts(groups, size), MinNat(topk, |groups| * size))
  }

  ghost function RoutedCandidates(scores: seq<int>, numGroups: nat, size: nat, topkGroup: nat, useBias: bool): (s: set<nat>)
    requires size > 0 && numGroups * size == |scores|
    ensures Experts(scores, s)
  {
    var groups := RoutedGroups(scores, numGroups, size, topkGroup, useBias);
    GroupExpertsInRange(groups, size, scores);
    GroupExperts(groups, size)
  }

  /**
   A token gets its reference experts exactly when enough experts of its groups score above the sentinel, or
   when it is scanned, one is missing and the lowest-numbered expert of the groups has the sentinel score.
   */
  lemma RoutedRightIff(scores: seq<int>, numGroups: nat, size: nat, topkGroup: nat, topk: nat, useBias: bool, first: nat)
    requires size > 0 && numGroups * size == |scores| && (forall e :: 0 <= e < |scores| ==> scores[e] >= NEG_MAX)
    requires IsFirst(RoutedCandidates(scores, numGroups, size, topkGroup, useBias), first)
    ensures var candidates := RoutedCandidates(scores, numGroups, size, topkGroup, useBias);
            (RoutedOutcome(scores, numGroups, size, topkGroup, topk, useBias)
               == Some(RoutedExperts(scores, numGroups, size, topkGroup, topk, useBias))
             <==> EnoughAbove(scores, candidates, MinNat(topk, |candidates|), first))
  {
    var groups := RoutedGroups(scores, numGroups, size, topkGroup, useBias);
    GroupExpertsSize(groups, size);
    var candidates := RoutedCandidates(scores, numGroups, size, topkGroup, useBias);
    SelectedIsTopKIff(scores, candidates, MinNat(topk, |candidates|), first);
  }

  /** With all scores above the sentinel a token always gets its reference experts. */
  lemma AllAboveRouted(scores: seq<int>, numGroups: nat, size: nat, topkGroup: nat, topk: nat, useBias: bool)
    requires size > 0 && numGroups * size == |scores| && (forall e :: 0 <= e < |scores| ==> scores[e] > NEG_MAX)
    ensures RoutedOutcome(scores, numGroups, size, topkGroup, topk, useBias)
         == Some(RoutedExperts(scores, numGroups, size, topkGroup, topk, useBias))
  {
    var groups := RoutedGroups(scores, numGroups, size, topkGroup, useBias);
    GroupExpertsSize(groups, size);
    var candidates := RoutedCandidates(scores, numGroups, size, topkGroup, useBias);
    var k := MinNat(topk, |candidates|);
    assert Above(scores, candidates) == candidates;
    if k > 0 {
      AlgorithmsAgreeIff(scores, candidates, k);
    }
  }

  /** Three experts above the sentinel, the others at it. */
  function Few(n: nat): (scores: seq<int>)
    ensures |scores| == n
  {
    seq(n, e => if e < 3 then 1 else -65504)
  }

  lemma FewAbove(n: nat)
    requires n >= 3
    ensures Above(Few(n), Span(0, n)) == {0, 1, 2} && |Above(Few(n), Span(0, n))| == 3
  {
    assert Above(Few(n), Span(0, n)) == {0, 1, 2};
  }

  lemma FewTop(n: nat)
    requires n >= 3
    ensures IsTop(Few(n), Span(0, n), [0, 1, 2])
  {
  }

  lemma FewScanned(n: nat)
    requires n >= 3
    ensures ScanSelect(Few(n), Span(0, n), 4) == [0, 1, 2, 0]
  {
    FewAbove(n);
    var scores, candidates := Few(n), Span(0, n);
    var three := ScanSelect(scores, candidates, 3);
    assert three == [0, 1, 2] by {
      FewTop(n);
      ScanAbove(scores, candidates, 3);
      TopUnique(scores, candidates, three, [0, 1, 2]);
    }
    AllMasked(scores, candidates, three, 0);
  }

  /** One expert more or less, with three above the sentinel and four wanted, decides between a failure and a doubled choice. */
  lemma ThresholdExample()
    ensures |Span(0, 64)| == 64 && Selected(Few(64), Span(0, 64), 4) == None
    ensures |Span(0, 63)| == 63 && Selected(Few(63), Span(0, 63), 4) == Some([0, 1, 2, 0])
  {
    FewFails(64);
    FewDoubles(63);
  }

  lemma FewFails(n: nat)
    requires n >= 64
    ensures |Span(0, n)| == n && Selected(Few(n), Span(0, n), 4) == None
  {
    SpanSize(0, n);
    FewAbove(n);
  }

  lemma FewDoubles(n: nat)
    requires 4 <= n < 64
    ensures |Span(0, n)| == n && Selected(Few(n), Span(0, n), 4) == Some([0, 1, 2, 0])
  {
    SpanSize(0, n);
    FewScanned(n);
  }

  ghost function SumWeights(tokenScores: seq<real>, ids: seq<nat>): real
    requires forall i :: 0 <= i < |ids| ==> ids[i] < |tokenScores|
  {
    if ids == [] then 0.0 else SumWeights(tokenScores, ids[..|ids|-1]) + tokenScores[ids[|ids|-1]]
  }

  ghost function Scale(tokenScores: seq<real>, ids: seq<nat>, renormalize: bool, factor: real): real
    requires forall i :: 0 <= i < |ids| ==> ids[i] < |tokenScores|
  {
    var sum := SumWeights(tokenScores, ids);
    if renormalize && sum != 0.0 then factor / sum else factor
  }

  /** The outputs list ids with their scaled unmasked scores, then zeros up to topk. */
  ghost predicate IsRouting(tokenScores: seq<real>, ids: seq<nat>, topk: nat, renormalize: bool, factor: real,
                            outWeights: seq<real>, outIds: seq<nat>)
  {
    && (forall i :: 0 <= i < |ids| ==> ids[i] < |tokenScores|)
    && |outWeights| == |outIds| == topk >= |ids|
    && forall i :: 0 <= i < topk ==>
         if i < |ids| then outIds[i] == ids[i] && outWeights[i] == tokenScores[ids[i]] * Scale(tokenScores, ids, renormalize, factor)
         else outIds[i] == 0 && outWeights[i] == 0.0
  }

  ghost function SumReal(s: seq<real>): real {
    if s == [] then 0.0 else SumReal(s[..|s|-1]) + s[|s|-1]
  }

  /** Renormalised weights of a routed token add up to the routing factor. */
  lemma RenormalizedSum(tokenScores: seq<real>, ids: seq<nat>, topk: nat, factor: real, outWeights: seq<real>, outIds: seq<nat>)
    requires IsRouting(tokenScores, ids, topk, true, factor, outWeights, outIds)
    requires SumWeights(tokenScores, ids) != 0.0
    ensures SumReal(outWeights) == factor
  {
    var scale := Scale(tokenScores, ids, true, factor);
    ScaledSum(tokenScores, ids, scale, outWeights, |outWeights|);
    assert outWeights[..|outWeights|] == outWeights && ids[..|ids|] == ids;
    assert factor / SumWeights(tokenScores, ids) * SumWeights(tokenScores, ids) == factor;
  }

  lemma {:induction false} ScaledSum(tokenScores: seq<real>, ids: seq<nat>, scale: real, w: seq<real>, n: nat)
    requires forall i :: 0 <= i < |ids| ==> ids[i] < |tokenScores|
    requires n <= |w|
    requires forall i :: 0 <= i < |w| ==> w[i] == if i < |ids| then tokenScores[ids[i]] * scale else 0.0
    ensures SumReal(w[..n]) == SumWeights(tokenScores, ids[..MinNat(n, |ids|)]) * scale
    decreases n
  {
    if n > 0 {
      ScaledSum(tokenScores, ids, scale, w, n - 1);
      assert SumReal(w[..n]) == SumReal(w[..n-1]) + w[n-1] by {
        assert w[..n][..n-1] == w[..n-1];
      }
      if n <= |ids| {
        WeightsUpTo(tokenScores, ids, n, scale);
      }
    }
  }

  lemma WeightsUpTo(tokenScores: seq<real>, ids: seq<nat>, n: nat, scale: real)
    requires 0 < n <= |ids| && forall i :: 0 <= i < |ids| ==> ids[i] < |tokenScores|
    ensures SumWeights(tokenScores, ids[..n]) * scale == SumWeights(tokenScores, ids[..n-1]) * scale + tokenScores[ids[n-1]] * scale
  {
    assert ids[..n][..n-1] == ids[..n-1] && ids[..n][n-1] == ids[n-1];
    OneMoreWeight(tokenScores, ids[..n], scale);
  }

  lemma OneMoreWeight(tokenScores: seq<real>, ids: seq<nat>, scale: real)
    requires ids != [] && forall i :: 0 <= i < |ids| ==> ids[i] < |tokenScores|
    ensures SumWeights(tokenScores, ids) * scale
         == SumWeights(tokenScores, ids[..|ids|-1]) * scale + tokenScores[ids[|ids|-1]] * scale
  {
    Distribute(SumWeights(tokenScores, ids[..|ids|-1]), tokenScores[ids[|ids|-1]], scale);
  }

  lemma Distribute(a: real, b: real, c: real)
    ensures (a + b) * c == a * c + b * c
  {
  }

  // ----- the routing methods -----

  /** `normalize_and_store`. */
  method NormalizeAndStore(selectedWeights: array<real>, selectedIds: array<nat>, selectedCount: nat, outWeights: array<real>,
                           outIds: array<nat>, topk: nat, renormalize: bool, factor: real, ghost tokenScores: seq<real>)
    requires selectedCount <= selectedWeights.Length && selectedCount <= selectedIds.Length && selectedCount <= topk
    requires topk == outWeights.Length == outIds.Length
    requires outWeights != selectedWeights && outIds != selectedIds
    requires forall i :: 0 <= i < selectedCount ==> selectedIds[i] < |tokenScores| && selectedWeights[i] == tokenScores[selectedIds[i]]
    modifies outWeights, outIds
    ensures IsRouting(tokenScores, old(selectedIds[..selectedCount]), topk, renormalize, factor, outWeights[..], outIds[..])
  {
    ghost var ids := selectedIds[..selectedCount];
    var scale := Scaling(selectedWeights, selectedIds, selectedCount, renormalize, factor, tokenScores);
    ghost var weights := seq(topk, k requires 0 <= k < topk => if k < selectedCount then tokenScores[ids[k]] * scale else 0.0);
    var i := 0;
    while i < topk
      invariant i <= topk
      invariant forall k :: 0 <= k < i ==> outWeights[k] == weights[k] && outIds[k] == if k < selectedCount then ids[k] else 0
    {
      if i < selectedCount {
        assert selectedWeights[i] == tokenScores[ids[i]];
        var weight := selectedWeights[i] * scale;
        assert weight == weights[i];
        outIds[i] := selectedIds[i];
        outWeights[i] := weight;
      } else {
        outIds[i] := 0;
        outWeights[i] := 0.0;
      }
      i := i + 1;
    }
  }

  method Scaling(selectedWeights: array<real>, selectedIds: array<nat>, selectedCount: nat, renormalize: bool, factor: real,
                 ghost tokenScores: seq<real>) returns (scale: real)
    requires selectedCount <= selectedWeights.Length && selectedCount <= selectedIds.Length
    requires forall i :: 0 <= i < selectedCount ==> selectedIds[i] < |tokenScores| && selectedWeights[i] == tokenScores[selectedIds[i]]
    ensures scale == Scale(tokenScores, selectedIds[..selectedCount], renormalize, factor)
  {
    var denom := 0.0;
    if renormalize {
      ghost var ids := selectedIds[..selectedCount];
      var i := 0;
      while i < selectedCount
        invariant i <= selectedCount
        invariant denom == SumWeights(tokenScores, ids[..i])
      {
        assert ids[..i + 1][..i] == ids[..i];
        denom := denom + selectedWeights[i];
        i := i + 1;
      }
      assert ids[..selectedCount] == ids;
      if denom == 0.0 {
        denom := 1.0;
      }
    }
    scale := factor;
    if renormalize {
      scale := scale / denom;
    }
  }

  /** `zero_topk`. */
  method ZeroTopK(outWeights: array<real>, outIds: array<nat>)
    requires outWeights.Length == outIds.Length
    modifies outWeights, outIds
    ensures IsRouting([], [], outIds.Length, false, 0.0, outWeights[..], outIds[..])
  {
    var i := 0;
    while i < outIds.Length
      invariant i <= outIds.Length
      invariant forall k :: 0 <= k < i ==> outIds[k] == 0 && outWeights[k] == 0.0
    {
      outIds[i] := 0;
      outWeights[i] := 0.0;
      i := i + 1;
    }
  }

  predicate GroupedShapeOk(numExperts: int, numGroups: int, topkGroup: int, topk: int) {
    !(numGroups <= 0 || topkGroup <= 0 || topk <= 0 || numExperts <= numGroups || numExperts % numGroups != 0 ||
      numExperts > MAX_EXPERTS || numGroups > MAX_GROUPS || topkGroup > MAX_GROUPS || topk > MAX_TOPK)
  }

  /** The score of one group of the whole array. */
  method ScoreNext(selectionScores: array<int>, numGroups: nat, size: nat, useBias: bool, group: nat) returns (score: int)
    requires size > 0 && numGroups * size == selectionScores.Length && group < numGroups
    requires forall e :: 0 <= e < selectionScores.Length ==> selectionScores[e] >= NEG_MAX
    ensures score == GroupScores(selectionScores[..], numGroups, size, useBias)[group] && score > NEG_INF
  {
    GroupInRange(group, numGroups, size);
    score := ScoreGroup(selectionScores, group * size, size, useBias);
    GroupScoreAt(selectionScores[..], numGroups, size, useBias, group);
    assert selectionScores[..][group * size..group * size + size] == selectionScores[group * size..group * size + size];
  }

  /** The group scores, by the algorithm the group size asks for. */
  method ScoreGroups(selectionScores: array<int>, numGroups: nat, size: nat, useBias: bool) returns (groupScores: array<int>)
    requires size > 0 && numGroups * size == selectionScores.Length
    requires forall e :: 0 <= e < selectionScores.Length ==> selectionScores[e] >= NEG_MAX
    ensures fresh(groupScores)
    ensures groupScores[..] == GroupScores(selectionScores[..], numGroups, size, useBias)
    ensures forall g :: 0 <= g < numGroups ==> groupScores[g] > NEG_INF
  {
    groupScores := new int[numGroups];
    ghost var expected := GroupScores(selectionScores[..], numGroups, size, useBias);
    var group := 0;
    while group < numGroups
      invariant group <= numGroups
      invariant forall g :: 0 <= g < group ==> groupScores[g] == expected[g] && groupScores[g] > NEG_INF
    {
      groupScores[group] := ScoreNext(selectionScores, numGroups, size, useBias, group);
      group := group + 1;
    }
  }

  lemma GroupScoreAt(scores: seq<int>, numGroups: nat, size: nat, useBias: bool, g: nat)
    requires size > 0 && numGroups * size == |scores| && g < numGroups && g * size + size <= |scores|
    ensures GroupScores(scores, numGroups, size, useBias)[g] == GroupScore(scores[g * size..g * size + size], useBias)
  {
  }

  method ScoreGroup(selectionScores: array<int>, begin: nat, size: nat, useBias: bool) returns (score: int)
    requires size > 0 && begin + size <= selectionScores.Length
    requires forall e :: 0 <= e < selectionScores.Length ==> selectionScores[e] >= NEG_MAX
    ensures score == GroupScore(selectionScores[begin..begin+size], useBias)
    ensures !useBias ==> exists e :: begin <= e < begin + size && selectionScores[e] == score
    ensures !useBias ==> forall f :: begin <= f < begin + size ==> selectionScores[f] <= score
    ensures useBias && size == 1 ==> score == selectionScores[begin] + selectionScores[begin]
    ensures useBias && size >= 2 ==>
      exists d: nat, e: nat :: TwoLargest(selectionScores[..], begin, begin + size, d, e) && score == selectionScores[d] + selectionScores[e]
    ensures score > NEG_INF
  {
    if useBias {
      ghost var scores := selectionScores[..];
      SpanFloor(scores, begin, size);
      if size >= 16 {
        score := Top2SumHvx(selectionScores, begin, begin + size);
      } else {
        score := Top2SumScalar(selectionScores, begin, begin + size);
      }
      assert selectionScores[begin..begin+size] == scores[begin..begin+size];
      SpanTop(scores, begin, size, score);
    } else {
      score := LargestOfSpan(selectionScores, begin, size);
    }
  }

  method LargestOfSpan(selectionScores: array<int>, begin: nat, size: nat) returns (score: int)
    requires size > 0 && begin + size <= selectionScores.Length
    requires forall e :: 0 <= e < selectionScores.Length ==> selectionScores[e] >= NEG_MAX
    ensures score == MaxOf(selectionScores[begin..begin+size]) > NEG_INF
    ensures exists e :: begin <= e < begin + size && selectionScores[e] == score
    ensures forall f :: begin <= f < begin + size ==> selectionScores[f] <= score
  {
    ghost var span := selectionScores[begin..begin+size];
    score := MaxScore(selectionScores, begin, size);
    assert forall k :: 0 <= k < |span| ==> span[k] == selectionScores[begin + k];
    ghost var k :| 0 <= k < |span| && span[k] == score;
    assert selectionScores[begin + k] == score;
  }

  lemma SpanFloor(scores: seq<int>, begin: nat, size: nat)
    requires size > 0 && begin + size <= |scores| && forall e :: 0 <= e < |scores| ==> scores[e] >= NEG_MAX
    ensures Top2Sum(scores[begin..begin+size]) > NEG_INF
  {
    var span := scores[begin..begin+size];
    assert forall k :: 0 <= k < |span| ==> span[k] == scores[begin + k] >= NEG_MAX;
  }

  /** The two largest of a span, by their places in the whole sequence. */
  lemma SpanTop(scores: seq<int>, begin: nat, size: nat, sum: int)
    requires size > 0 && begin + size <= |scores| && sum == Top2Sum(scores[begin..begin+size])
    ensures size == 1 ==> sum == scores[begin] + scores[begin]
    ensures size >= 2 ==> exists d: nat, e: nat :: TwoLargest(scores, begin, begin + size, d, e) && sum == scores[d] + scores[e]
  {
    var span := scores[begin..begin+size];
    if size >= 2 {
      var i: nat, j: nat :| LargestAt(span, i, j) && sum == span[i] + span[j];
      LargestInSpan(scores, begin, size, i, j);
      assert sum == scores[begin + i] + scores[begin + j];
    }
  }

  lemma LargestInSpan(scores: seq<int>, begin: nat, size: nat, i: nat, j: nat)
    requires begin + size <= |scores| && LargestAt(scores[begin..begin+size], i, j)
    ensures TwoLargest(scores, begin, begin + size, begin + i, begin + j)
  {
    var span := scores[begin..begin+size];
    forall f | begin <= f < begin + size && f != begin + i && f != begin + j
      ensures scores[f] <= scores[begin + i] && scores[f] <= scores[begin + j]
    {
      assert span[f - begin] == scores[f];
    }
  }

  /** The selection of experts, by the algorithm the sizes ask for. */
  method SelectExperts(tokenScores: seq<real>, selectionScores: array<int>, groups: seq<nat>, size: nat,
                       selectedCount: nat, selectedWeights: array<real>, selectedIds: array<nat>) returns (ok: bool)
    requires |tokenScores| == selectionScores.Length <= MAX_EXPERTS && size > 0
    requires ValidGroups(groups, size, selectionScores.Length) && |groups| <= MAX_GROUPS
    requires selectedCount <= MAX_TOPK && selectedCount <= |GroupExperts(groups, size)|
    requires selectedCount <= selectedWeights.Length && selectedCount <= selectedIds.Length
    requires forall e :: 0 <= e < selectionScores.Length ==> selectionScores[e] >= NEG_MAX
    modifies selectionScores, selectedWeights, selectedIds
    ensures Experts(old(selectionScores[..]), GroupExperts(groups, size))
    ensures Stored(tokenScores, Selected(old(selectionScores[..]), GroupExperts(groups, size), selectedCount), selectedCount, ok,
                   selectedIds[..], selectedWeights[..])
  {
    GroupExpertsSize(groups, size);
    if |groups| * size >= 64 && selectedCount >= 4 {
      ok := SelectFromGroupsBitonic(tokenScores, selectionScores, groups, size, selectedCount, selectedWeights, selectedIds);
    } else {
      ghost var scores := selectionScores[..];
      ghost var candidates := GroupExperts(groups, size);
      GroupExpertsInRange(groups, size, scores);
      if size >= 16 {
        SelectFromGroupsHvx(tokenScores, selectionScores, groups, size, selectedCount, selectedWeights, selectedIds);
      } else {
        SelectFromGroupsScalar(tokenScores, selectionScores, groups, size, selectedCount, selectedWeights, selectedIds);
      }
      ScanStored(tokenScores, scores, candidates, selectedCount, selectedIds[..], selectedWeights[..], selectionScores[..]);
      ok := true;
    }
  }

  method SelectGroups(groupScores: array<int>, numGroups: nat, topkGroup: nat) returns (groups: seq<nat>)
    requires topkGroup <= numGroups == groupScores.Length
    requires forall g :: 0 <= g < numGroups ==> groupScores[g] > NEG_INF
    modifies groupScores
    ensures |Span(0, numGroups)| == numGroups
    ensures groups == TopK(old(groupScores[..]), Span(0, numGroups), topkGroup)
  {
    var selectedGroups := new nat[topkGroup](_ => 0);
    if numGroups >= 16 {
      SelectTopGroupsHvx(groupScores, numGroups, topkGroup, selectedGroups);
    } else {
      SelectTopGroups(groupScores, numGroups, topkGroup, selectedGroups);
    }
    groups := selectedGroups[..topkGroup];
  }

  /**
   `route_grouped_token_hf` from materialised scores on.  The token goes to RoutedOutcome, with weights from
   its unmasked scores; ok is false when the bitonic path runs out of experts above the sentinel.
   */
  method RouteGrouped(tokenScores: seq<real>, selectionScores: array<int>, outWeights: array<real>, outIds: array<nat>,
                      numExperts: int, numGroups: int, topkGroup: int, topk: int, renormalize: bool, factor: real, useBias: bool)
    returns (ok: bool)
    requires |tokenScores| == selectionScores.Length == numExperts
    requires outWeights.Length == outIds.Length == if topk < 0 then 0 else topk
    requires forall e :: 0 <= e < selectionScores.Length ==> selectionScores[e] >= NEG_MAX
    modifies selectionScores, outWeights, outIds
    ensures !GroupedShapeOk(numExperts, numGroups, topkGroup, topk) ==>
      ok && IsRouting([], [], outIds.Length, false, 0.0, outWeights[..], outIds[..])
    ensures GroupedShapeOk(numExperts, numGroups, topkGroup, topk) ==>
      var size := numExperts / numGroups;
      && size > 0 && numGroups * size == numExperts
      && var outcome := RoutedOutcome(old(selectionScores[..]), numGroups, size, topkGroup, topk, useBias);
         ok == outcome.Some? && (ok ==> IsRouting(tokenScores, outcome.value, topk, renormalize, factor, outWeights[..], outIds[..]))
  {
    if !GroupedShapeOk(numExperts, numGroups, topkGroup, topk) {
      ZeroTopK(outWeights, outIds);
      return true;
    }
    var size := numExperts / numGroups;
    assert numGroups * size == numExperts && size > 0;
    ok := RouteToGroups(tokenScores, selectionScores, outWeights, outIds, numGroups, size, topkGroup, topk, renormalize, factor, useBias);
  }

  method RouteToGroups(tokenScores: seq<real>, selectionScores: array<int>, outWeights: array<real>, outIds: array<nat>,
                       numGroups: nat, size: nat, topkGroup: nat, topk: nat, renormalize: bool, factor: real, useBias: bool)
    returns (ok: bool)
    requires |tokenScores| == selectionScores.Length == numGroups * size <= MAX_EXPERTS && size > 0
    requires numGroups <= MAX_GROUPS && topk <= MAX_TOPK
    requires outWeights.Length == outIds.Length == topk
    requires forall e :: 0 <= e < selectionScores.Length ==> selectionScores[e] >= NEG_MAX
    modifies selectionScores, outWeights, outIds
    ensures var outcome := RoutedOutcome(old(selectionScores[..]), numGroups, size, topkGroup, topk, useBias);
            ok == outcome.Some? && (ok ==> IsRouting(tokenScores, outcome.value, topk, renormalize, factor, outWeights[..], outIds[..]))
  {
    ghost var scores := selectionScores[..];
    var groupScores := ScoreGroups(selectionScores, numGroups, size, useBias);
    var groupCount := if topkGroup > numGroups then numGroups else topkGroup;
    var groups := SelectGroups(groupScores, numGroups, groupCount);
    assert groups == RoutedGroups(scores, numGroups, size, topkGroup, useBias);
    GroupExpertsSize(groups, size);
    var selectedCount := if topk > groupCount * size then groupCount * size else topk;
    var selectedWeights, selectedIds := new real[MAX_TOPK](_ => 0.0), new nat[MAX_TOPK](_ => 0);
    assert selectionScores[..] == scores;
    ok := SelectExperts(tokenScores, selectionScores, groups, size, selectedCount, selectedWeights, selectedIds);
    if ok {
      NormalizeAndStore(selectedWeights, selectedIds, selectedCount, outWeights, outIds, topk, renormalize, factor, tokenScores);
    }
  }

  // ----- regular routing -----

  lemma OneGroup(n: nat)
    ensures GroupExperts([0], n) == Span(0, n)
  {
    assert [0][..0] == [];
  }

  /** `select_topk_regular_bitonic_hf`. */
  method SelectRegularBitonic(tokenScores: seq<real>, selectionScores: array<int>, selectedCount: nat,
                              selectedWeights: array<real>, selectedIds: array<nat>) returns (ok: bool)
    requires |tokenScores| == selectionScores.Length <= MAX_EXPERTS
    requires selectedCount <= LANES && selectedCount <= selectionScores.Length
    requires selectedCount <= selectedWeights.Length && selectedCount <= selectedIds.Length
    modifies selectedWeights, selectedIds
    ensures |Span(0, selectionScores.Length)| == selectionScores.Length
    ensures Stored(tokenScores, BitonicSelect(selectionScores[..], Span(0, selectionScores.Length), selectedCount), selectedCount, ok,
                   selectedIds[..], selectedWeights[..])
  {
    var candidateIds := AllExperts(selectionScores.Length);
    var scores := selectionScores[..];
    ok := SelectTopKCandidatesBitonic(tokenScores, scores, candidateIds, selectedCount, selectedWeights, selectedIds, scores);
    BitonicStored(tokenScores, scores, Span(0, selectionScores.Length), selectedCount, ok, selectedIds[..], selectedWeights[..]);
  }

  /** The plain loop over all experts is the grouped scan of a single group. */
  method SelectRegularScalar(tokenScores: seq<real>, selectionScores: array<int>, selectedCount: nat,
                             selectedWeights: array<real>, selectedIds: array<nat>)
    requires 0 < |tokenScores| == selectionScores.Length <= MAX_EXPERTS
    requires selectedCount <= MAX_TOPK && selectedCount <= selectionScores.Length
    requires selectedCount <= selectedWeights.Length && selectedCount <= selectedIds.Length
    requires forall e :: 0 <= e < selectionScores.Length ==> selectionScores[e] >= NEG_MAX
    modifies selectionScores, selectedWeights, selectedIds
    ensures Chosen(tokenScores, old(selectionScores[..]), Span(0, selectionScores.Length), selectedCount, selectedIds[..selectedCount],
                   selectedWeights[..selectedCount], selectionScores[..])
  {
    OneGroup(selectionScores.Length);
    SelectFromGroupsScalar(tokenScores, selectionScores, [0], selectionScores.Length, selectedCount, selectedWeights, selectedIds);
  }

  method AllExperts(numExperts: nat) returns (candidateIds: seq<nat>)
    ensures |candidateIds| == numExperts == |Span(0, numExperts)|
    ensures forall i :: 0 <= i < numExperts ==> candidateIds[i] == i
    ensures Ascending(candidateIds) && SetOf(candidateIds) == Span(0, numExperts)
  {
    candidateIds := [];
    var expert := 0;
    while expert < numExperts
      invariant expert <= numExperts
      invariant |candidateIds| == expert && forall i :: 0 <= i < expert ==> candidateIds[i] == i
    {
      candidateIds := candidateIds + [expert];
      expert := expert + 1;
    }
    SpanSize(0, numExperts);
    assert forall k :: k in Span(0, numExperts) ==> candidateIds[k] == k;
  }

  predicate RegularShapeOk(numExperts: int, topk: int) {
    !(topk <= 0 || topk > MAX_TOPK || numExperts <= 0 || numExperts > MAX_EXPERTS)
  }

  /** `route_regular_token_hf` from materialised scores on: the whole expert range is the only group. */
  method RouteRegular(tokenScores: seq<real>, selectionScores: array<int>, outWeights: array<real>, outIds: array<nat>,
                      numExperts: int, topk: int, renormalize: bool, factor: real) returns (ok: bool)
    requires |tokenScores| == selectionScores.Length == numExperts
    requires outWeights.Length == outIds.Length == if topk < 0 then 0 else topk
    requires forall e :: 0 <= e < selectionScores.Length ==> selectionScores[e] >= NEG_MAX
    modifies selectionScores, outWeights, outIds
    ensures !RegularShapeOk(numExperts, topk) ==> ok && IsRouting([], [], outIds.Length, false, 0.0, outWeights[..], outIds[..])
    ensures RegularShapeOk(numExperts, topk) ==>
      && |Span(0, numExperts)| == numExperts
      && var outcome := Selected(old(selectionScores[..]), Span(0, numExperts), MinNat(topk, numExperts));
         ok == outcome.Some? && (ok ==> IsRouting(tokenScores, outcome.value, topk, renormalize, factor, outWeights[..], outIds[..]))
  {
    if !RegularShapeOk(numExperts, topk) {
      ZeroTopK(outWeights, outIds);
      return true;
    }
    SpanSize(0, numExperts);
    ghost var scores := selectionScores[..];
    var selectedCount := if topk > numExperts then numExperts else topk;
    var selectedWeights, selectedIds := new real[MAX_TOPK](_ => 0.0), new nat[MAX_TOPK](_ => 0);
    if numExperts >= 64 && selectedCount >= 4 {
      ok := SelectRegularBitonic(tokenScores, selectionScores, selectedCount, selectedWeights, selectedIds);
    } else {
      SelectRegularScalar(tokenScores, selectionScores, selectedCount, selectedWeights, selectedIds);
      ScanStored(tokenScores, scores, Span(0, numExperts), selectedCount, selectedIds[..], selectedWeights[..], selectionScores[..]);
      ok := true;
    }
    if ok {
      NormalizeAndStore(selectedWeights, selectedIds, selectedCount, outWeights, outIds, topk, renormalize, factor, tokenScores);
    }
  }

  // ----- tokens of a worker -----

  function TokenBegin(worker: nat, workers: nat, numTokens: nat): nat requires workers > 0 {
    worker * CeilDiv(numTokens, workers)
  }

  function TokenEnd(worker: nat, workers: nat, numTokens: nat): nat requires workers > 0 {
    MinNat(TokenBegin(worker, workers, numTokens) + CeilDiv(numTokens, workers), numTokens)
  }

  /** Every token is routed by exactly one worker (core and thread). */
  lemma TokenHasOneWorker(token: nat, workers: nat, numTokens: nat)
    requires workers > 0 && token < numTokens
    ensures exists w: nat :: w < workers && TokenBegin(w, workers, numTokens) <= token < TokenEnd(w, workers, numTokens)
    ensures forall v: nat, w: nat ::
      (TokenBegin(v, workers, numTokens) <= token < TokenEnd(v, workers, numTokens) &&
       TokenBegin(w, workers, numTokens) <= token < TokenEnd(w, workers, numTokens)) ==> v == w
  {
    SomeWorker(token, workers, numTokens);
    var share := CeilDiv(numTokens, workers);
    forall v: nat | TokenBegin(v, workers, numTokens) <= token < TokenEnd(v, workers, numTokens)
      ensures v == token / share
    {
      DivUnique(token, share, v, token - v * share);
    }
  }

  lemma SomeWorker(token: nat, workers: nat, numTokens: nat)
    requires workers > 0 && token < numTokens
    ensures CeilDiv(numTokens, workers) > 0
    ensures var w := token / CeilDiv(numTokens, workers);
            w < workers && TokenBegin(w, workers, numTokens) <= token < TokenEnd(w, workers, numTokens)
  {
    var share := CeilDiv(numTokens, workers);
    CeilDivBounds(numTokens, workers);
    assert share > 0;
    var w := token / share;
    assert token == w * share + token % share;
    assert share * workers == workers * share;
    if w >= workers {
      MulLe(workers, w, share);
    }
  }
}
