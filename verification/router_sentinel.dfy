/**
 The selections as functions of the scores.  The scans overwrite a chosen expert's score with the sentinel
 -65504, so experts that really have that score cannot be told from chosen ones; the bitonic selection cannot
 tell them from padding.  This says exactly when each selection is still the true top k.
 */
module RouterSentinel {
  import opened Wrappers
  import opened RouterLanes
  import opened RouterTopK

  function WithMask(scores: seq<int>, ids: seq<nat>): (a: seq<int>)
    ensures |a| == |scores|
  {
    seq(|scores|, c requires 0 <= c < |scores| => if c in ids then NEG_MAX else scores[c])
  }

  /** What k rounds of "take the best, then mask it" choose. */
  ghost function ScanSelect(scores: seq<int>, candidates: set<nat>, k: nat): (ids: seq<nat>)
    requires Experts(scores, candidates) && candidates != {}
    ensures |ids| == k && forall i :: 0 <= i < k ==> ids[i] in candidates
  {
    if k == 0 then []
    else
      var before := ScanSelect(scores, candidates, k - 1);
      before + [Best(WithMask(scores, before), candidates)]
  }

  ghost predicate AtLeastSentinel(scores: seq<int>, candidates: set<nat>)
    requires Experts(scores, candidates)
  {
    forall c :: c in candidates ==> scores[c] >= NEG_MAX
  }

  ghost predicate IsFirst(candidates: set<nat>, first: nat) {
    first in candidates && forall c :: c in candidates ==> first <= c
  }

  lemma BestUnique(scores: seq<int>, candidates: set<nat>, a: nat, b: nat)
    requires Experts(scores, candidates) && IsBest(scores, candidates, a) && IsBest(scores, candidates, b)
    ensures a == b
  {
  }

  lemma NotAllChosen(s: set<nat>, ids: seq<nat>) returns (c: nat)
    requires |ids| < |s|
    ensures c in s && c !in ids
  {
    SetOfSeqSize(ids);
    if s <= set x | x in ids {
      SubsetSize(s, set x | x in ids);
    }
    c :| c in s && c !in ids;
  }

  /** While candidates above the sentinel are left, a round takes the best of them. */
  lemma RoundAbove(scores: seq<int>, candidates: set<nat>, ids: seq<nat>, next: nat)
    requires Experts(scores, candidates) && candidates != {} && IsTop(scores, candidates, ids)
    requires |ids| < |Above(scores, candidates)|
    requires next == Best(WithMask(scores, ids), candidates)
    ensures scores[next] > NEG_MAX && IsTop(scores, candidates, ids + [next])
  {
    var a := WithMask(scores, ids);
    var c0 := NotAllChosen(Above(scores, candidates), ids);
    assert a[c0] == scores[c0] > NEG_MAX;
    assert next == c0 || Preferred(a, next, c0);
    assert next !in ids && a[next] == scores[next];
    var more := ids + [next];
    forall i, c | 0 <= i < |more| && c in candidates && c !in more
      ensures Preferred(scores, more[i], c)
    {
      assert c !in ids && c != next;
      assert a[c] == scores[c] && Preferred(a, next, c);
    }
    forall i, j | 0 <= i < j < |more|
      ensures Preferred(scores, more[i], more[j])
    {
    }
  }

  lemma {:induction false} ScanAbove(scores: seq<int>, candidates: set<nat>, k: nat)
    requires Experts(scores, candidates) && candidates != {} && k <= |Above(scores, candidates)|
    ensures IsTop(scores, candidates, ScanSelect(scores, candidates, k))
    ensures forall i :: 0 <= i < k ==> ScanSelect(scores, candidates, k)[i] in Above(scores, candidates)
  {
    if k > 0 {
      ScanAbove(scores, candidates, k - 1);
      var before := ScanSelect(scores, candidates, k - 1);
      var next := Best(WithMask(scores, before), candidates);
      assert ScanSelect(scores, candidates, k) == before + [next];
      assert scores[next] > NEG_MAX && IsTop(scores, candidates, before + [next]) by { RoundAbove(scores, candidates, before, next); }
    }
  }

  lemma AllChosen(s: set<nat>, ids: seq<nat>)
    requires |ids| == |s| && (forall i :: 0 <= i < |ids| ==> ids[i] in s)
    requires forall i, j :: 0 <= i < j < |ids| ==> ids[i] != ids[j]
    ensures forall c :: c in s ==> c in ids
  {
    DistinctSize(ids);
    assert SetOf(ids) <= s;
    forall c | c in s
      ensures c in ids
    {
      if c !in ids {
        SubsetSize(SetOf(ids), s - {c});
      }
    }
  }

  lemma {:induction false} DistinctSize(ids: seq<nat>)
    requires forall i, j :: 0 <= i < j < |ids| ==> ids[i] != ids[j]
    ensures |SetOf(ids)| == |ids|
    decreases |ids|
  {
    if ids != [] {
      var n := |ids| - 1;
      DistinctSize(ids[..n]);
      assert ids[n] !in SetOf(ids[..n]);
      assert SetOf(ids) == SetOf(ids[..n]) + {ids[n]};
    }
  }

  /** From then on every round takes the candidate with the lowest id, chosen before or not. */
  lemma {:induction false} ScanStuck(scores: seq<int>, candidates: set<nat>, k: nat, first: nat)
    requires Experts(scores, candidates) && AtLeastSentinel(scores, candidates) && IsFirst(candidates, first)
    requires k >= |Above(scores, candidates)|
    ensures forall c :: c in Above(scores, candidates) ==> c in ScanSelect(scores, candidates, k)
    ensures k > |Above(scores, candidates)| ==> ScanSelect(scores, candidates, k)[k - 1] == first
    decreases k
  {
    var above := Above(scores, candidates);
    if k == |above| {
      ScanAbove(scores, candidates, k);
      AllChosen(above, ScanSelect(scores, candidates, k));
    } else {
      ScanStuck(scores, candidates, k - 1, first);
      var before := ScanSelect(scores, candidates, k - 1);
      AllMasked(scores, candidates, before, first);
    }
  }

  lemma AllMasked(scores: seq<int>, candidates: set<nat>, ids: seq<nat>, first: nat)
    requires Experts(scores, candidates) && AtLeastSentinel(scores, candidates) && IsFirst(candidates, first)
    requires forall c :: c in Above(scores, candidates) ==> c in ids
    ensures Best(WithMask(scores, ids), candidates) == first
  {
    var a := WithMask(scores, ids);
    assert forall c :: c in candidates ==> a[c] == NEG_MAX by {
      forall c | c in candidates
        ensures a[c] == NEG_MAX
      {
        assert c in Above(scores, candidates) || scores[c] == NEG_MAX;
      }
    }
    assert IsBest(a, candidates, first);
    BestUnique(a, candidates, first, Best(a, candidates));
  }

  /**
   The scans choose the true top k exactly when enough candidates score above the sentinel, or when just one
   more is needed and the candidate with the lowest id itself has the sentinel score.
   */
  lemma ScanIsTopKIff(scores: seq<int>, candidates: set<nat>, k: nat, first: nat)
    requires Experts(scores, candidates) && AtLeastSentinel(scores, candidates) && IsFirst(candidates, first) && k <= |candidates|
    ensures ScanSelect(scores, candidates, k) == TopK(scores, candidates, k)
       <==> k <= |Above(scores, candidates)| || (k == |Above(scores, candidates)| + 1 && scores[first] == NEG_MAX)
  {
    var above, ids := Above(scores, candidates), ScanSelect(scores, candidates, k);
    if k <= |above| {
      ScanAbove(scores, candidates, k);
      TopUnique(scores, candidates, ids, TopK(scores, candidates, k));
    } else if k == |above| + 1 {
      OneTooMany(scores, candidates, k, first);
    } else {
      ScanStuck(scores, candidates, k, first);
      ScanStuck(scores, candidates, k - 1, first);
      assert ids[k - 2] == ScanSelect(scores, candidates, k - 1)[k - 2] == first && ids[k - 1] == first;
      var top := TopK(scores, candidates, k);
      assert Preferred(scores, top[k - 2], top[k - 1]);
    }
  }

  lemma OneTooMany(scores: seq<int>, candidates: set<nat>, k: nat, first: nat)
    requires Experts(scores, candidates) && AtLeastSentinel(scores, candidates) && IsFirst(candidates, first)
    requires k == |Above(scores, candidates)| + 1 <= |candidates|
    ensures ScanSelect(scores, candidates, k) == TopK(scores, candidates, k) <==> scores[first] == NEG_MAX
  {
    var ids, before := ScanSelect(scores, candidates, k), ScanSelect(scores, candidates, k - 1);
    ScanAbove(scores, candidates, k - 1);
    ScanStuck(scores, candidates, k, first);
    ScanStuck(scores, candidates, k - 1, first);
    assert ids == before + [first];
    if scores[first] == NEG_MAX {
      LastIsFirst(scores, candidates, before, first);
      TopUnique(scores, candidates, ids, TopK(scores, candidates, k));
    } else {
      assert first in Above(scores, candidates);
      var i :| 0 <= i < k - 1 && before[i] == first;
      var top := TopK(scores, candidates, k);
      assert Preferred(scores, top[i], top[k - 1]);
      assert ids[i] == ids[k - 1];
    }
  }

  lemma LastIsFirst(scores: seq<int>, candidates: set<nat>, before: seq<nat>, first: nat)
    requires Experts(scores, candidates) && AtLeastSentinel(scores, candidates) && IsFirst(candidates, first)
    requires IsTop(scores, candidates, before) && scores[first] == NEG_MAX
    requires forall i :: 0 <= i < |before| ==> before[i] in Above(scores, candidates)
    requires forall c :: c in Above(scores, candidates) ==> c in before
    ensures IsTop(scores, candidates, before + [first])
  {
    var more := before + [first];
    assert first !in before;
    forall i, j | 0 <= i < j < |more|
      ensures Preferred(scores, more[i], more[j])
    {
      if j == |before| {
        assert scores[more[i]] > NEG_MAX;
      }
    }
    forall i, c | 0 <= i < |more| && c in candidates && c !in more
      ensures Preferred(scores, more[i], c)
    {
      assert c !in Above(scores, candidates);
      assert scores[c] == NEG_MAX;
      if i < |before| {
        assert scores[more[i]] > NEG_MAX;
      }
    }
  }

  // ----- the choice between the algorithms -----

  /** From these sizes on the kernel sorts instead of scanning. */
  predicate TakesBitonic(candidateCount: nat, k: nat) { candidateCount >= 64 && k >= 4 }

  /** What the bitonic selection yields; None is the read of a padding lane's weight. */
  ghost function BitonicSelect(scores: seq<int>, candidates: set<nat>, k: nat): Option<seq<nat>>
    requires Experts(scores, candidates) && k <= |candidates|
  {
    if k <= |Above(scores, candidates)| then Some(TopK(scores, candidates, k)) else None
  }

  /** What the kernel yields, by the algorithm the sizes pick. */
  ghost function Selected(scores: seq<int>, candidates: set<nat>, k: nat): (r: Option<seq<nat>>)
    requires Experts(scores, candidates) && k <= |candidates|
    ensures r.Some? ==> |r.value| == k && forall i :: 0 <= i < k ==> r.value[i] in candidates
  {
    if TakesBitonic(|candidates|, k) then BitonicSelect(scores, candidates, k)
    else if k == 0 then Some([])
    else Some(ScanSelect(scores, candidates, k))
  }

  /** Which algorithm runs makes no difference exactly when k candidates score above the sentinel. */
  lemma AlgorithmsAgreeIff(scores: seq<int>, candidates: set<nat>, k: nat)
    requires Experts(scores, candidates) && candidates != {} && k <= |candidates|
    ensures BitonicSelect(scores, candidates, k) == Some(ScanSelect(scores, candidates, k)) <==> k <= |Above(scores, candidates)|
  {
    if k <= |Above(scores, candidates)| {
      ScanAbove(scores, candidates, k);
      TopUnique(scores, candidates, ScanSelect(scores, candidates, k), TopK(scores, candidates, k));
    }
  }

  /** k candidates score above the sentinel, or a scan needs one more and the lowest id, which it takes, is at the sentinel. */
  ghost predicate EnoughAbove(scores: seq<int>, candidates: set<nat>, k: nat, first: nat)
    requires Experts(scores, candidates) && first < |scores|
  {
    var above := |Above(scores, candidates)|;
    k <= above || ((|candidates| < 64 || k < 4) && k == above + 1 && scores[first] == -65504)
  }

  /**
   The kernel selects the true top k exactly when k candidates score above the sentinel, or, on the scan
   paths only, when k - 1 do and the candidate with the lowest id has the sentinel score.
   */
  lemma SelectedIsTopKIff(scores: seq<int>, candidates: set<nat>, k: nat, first: nat)
    requires Experts(scores, candidates) && AtLeastSentinel(scores, candidates) && IsFirst(candidates, first) && k <= |candidates|
    ensures Selected(scores, candidates, k) == Some(TopK(scores, candidates, k)) <==> EnoughAbove(scores, candidates, k, first)
  {
    ScanIsTopKIff(scores, candidates, k, first);
  }

  /** The smallest failure: scores 5 and -65504, two experts wanted, expert 0 chosen twice. */
  lemma SentinelExample()
    ensures Experts([5, -65504], {0, 1}) && ScanSelect([5, -65504], {0, 1}, 2) == [0, 0]
  {
    var scores, candidates := [5, NEG_MAX], {0, 1};
    assert Above(scores, candidates) == {0};
    ScanStuck(scores, candidates, 2, 0);
    ScanAbove(scores, candidates, 1);
    var one := ScanSelect(scores, candidates, 1);
    assert ScanSelect(scores, candidates, 2) == one + [0] && one[0] in {0};
  }
}
