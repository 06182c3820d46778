/**
 One HVX candidate vector of the router kernel, 64 lanes of (fp16 score, int32 id), with the bitonic
 step, sort and keep-first merge that work on it.  Scores are integers and never NaN.  The shuffle
 intrinsics are trusted: `vdeal` with one stride bit gives every lane the lower and the upper member
 of its pair, `vshuff` of a mask with itself repeats each of its 2-lane words twice.
 */
module RouterLanes {
  import opened Arithmetic
  import opened Bitonic

  const NEG_MAX := -65504
  const INT_MAX := 0x7fff_ffff
  const LANES := 64

  datatype Lane = Lane(score: int, id: int)

  const PAD := Lane(NEG_MAX, INT_MAX)

  type Vector = v: seq<Lane> | |v| == LANES && forall l :: l in v ==> 0 <= l.id <= INT_MAX
    witness seq(64, _ => Lane(-65504, 0x7fff_ffff))

  /** Higher score first; the lower id breaks ties. */
  predicate Better(a: Lane, b: Lane) {
    a.score > b.score || (a.score == b.score && a.id < b.id)
  }

  /** A rank grows as a lane gets better; ids are below 2^31, so a rank determines its lane. */
  function Rank(l: Lane): int { l.score * 0x8000_0000 - l.id }

  lemma RankIsOrder(a: Lane, b: Lane)
    requires 0 <= a.id <= INT_MAX && 0 <= b.id <= INT_MAX
    ensures Rank(a) > Rank(b) <==> Better(a, b)
    ensures Rank(a) == Rank(b) <==> a == b
  {
  }

  function Key(l: Lane, bestFirst: bool): int { if bestFirst then -Rank(l) else Rank(l) }

  ghost function Keys(v: seq<Lane>, bestFirst: bool): seq<int> {
    seq(|v|, i requires 0 <= i < |v| => Key(v[i], bestFirst))
  }

  function Stride(step: nat): nat
    requires step <= 6
  {
    [1, 2, 4, 8, 16, 32, 64][step]
  }

  /** Bit `step` of a lane number: the byte of that lane in the step-mask vector. */
  predicate Bit(k: nat, step: nat)
    requires step <= 5
  {
    (k / Stride(step)) % 2 == 1
  }

  function LowerPartner(k: nat, step: nat): (p: nat)
    requires step <= 5 && k < LANES
    ensures p + Stride(step) < LANES
  {
    assert Stride(step) in {1, 2, 4, 8, 16, 32};
    if Bit(k, step) then k - Stride(step) else k
  }

  /** Whether lane k takes the lower member of its pair, as the predicate vectors compute it. */
  predicate TakesLower(step: nat, order: seq<bool>, idOrder: seq<bool>, v: Vector, k: nat)
    requires step <= 5 && k < LANES && |order| == |idOrder| == LANES
  {
    var even := v[LowerPartner(k, step)];
    var odd := v[LowerPartner(k, step) + Stride(step)];
    var scoreSwap := (Bit(k, step) != order[k]) != (even.score > odd.score);
    var reverseSwap := (Bit(k, step) != order[k]) != (odd.score > even.score);
    var different := scoreSwap != reverseSwap;
    var idSwap := (Bit(k, step) != idOrder[k]) != (even.id > odd.id);
    (scoreSwap && different) || (!different && idSwap)
  }

  function StepSource(step: nat, order: seq<bool>, idOrder: seq<bool>, v: Vector, k: nat): (p: nat)
    requires step <= 5 && k < LANES && |order| == |idOrder| == LANES
    ensures p < LANES
  {
    if TakesLower(step, order, idOrder, v, k) then LowerPartner(k, step) else LowerPartner(k, step) + Stride(step)
  }

  /** One bitonic step over a whole vector. */
  function BitonicStep(step: nat, order: seq<bool>, idOrder: seq<bool>, v: Vector): (r: Vector)
    requires step <= 5 && |order| == |idOrder| == LANES
  {
    seq(LANES, k requires 0 <= k < LANES => v[StepSource(step, order, idOrder, v, k)])
  }

  /** Pairs decide consistently, so a step only permutes lanes. */
  lemma StepPermutes(step: nat, order: seq<bool>, idOrder: seq<bool>, v: Vector)
    requires step <= 5 && |order| == |idOrder| == LANES
    requires forall k: nat :: k < LANES ==> order[k] == order[LowerPartner(k, step)] && idOrder[k] == idOrder[LowerPartner(k, step)]
    ensures multiset(BitonicStep(step, order, idOrder, v)) == multiset(v)
  {
    var m := Stride(step);
    var p := seq(LANES, k requires 0 <= k < LANES => StepSource(step, order, idOrder, v, k));
    forall i, j | 0 <= i < j < LANES
      ensures p[i] != p[j]
    {
      PartnerFacts(i, step);
      PartnerFacts(j, step);
      assert LowerPartner(i, step) + m == LowerPartner(j, step) ==> false;
      assert LowerPartner(j, step) + m == LowerPartner(i, step) ==> false;
      if LowerPartner(i, step) == LowerPartner(j, step) {
        assert !Bit(i, step) && Bit(j, step);
      }
    }
    PermutedMultiset(v, BitonicStep(step, order, idOrder, v), p);
  }

  lemma PartnerFacts(k: nat, step: nat)
    requires step <= 5 && k < LANES
    ensures !Bit(LowerPartner(k, step), step) && Bit(LowerPartner(k, step) + Stride(step), step)
    ensures k == LowerPartner(k, step) || k == LowerPartner(k, step) + Stride(step)
    ensures k == LowerPartner(k, step) <==> !Bit(k, step)
  {
    NextBlock(LowerPartner(k, step), Stride(step));
  }

  lemma NextBlock(k: nat, stride: nat)
    requires stride > 0
    ensures (k + stride) / stride == k / stride + 1
  {
    assert k == stride * (k / stride) + k % stride;
    DivUnique(k + stride, stride, k / stride + 1, k % stride);
  }

  /**
   With the score order of a phase of width w, and ids in the opposite order, a step puts every pair
   in rank order: rising blocks first when sorting worst-first, all falling when merging best-first.
   */
  lemma StepIsExchange(step: nat, order: seq<bool>, idOrder: seq<bool>, v: Vector, w: nat, bestFirst: bool)
    requires step <= 5 && |order| == |idOrder| == LANES
    requires w > 0 && w % (2 * Stride(step)) == 0
    requires forall k: nat :: k < LANES ==> order[k] == (Rising(k, w) != bestFirst) && idOrder[k] == !order[k]
    ensures IsStep(Keys(v, bestFirst), Keys(BitonicStep(step, order, idOrder, v), bestFirst), Stride(step), w)
    ensures multiset(BitonicStep(step, order, idOrder, v)) == multiset(v)
  {
    var m := Stride(step);
    var r := BitonicStep(step, order, idOrder, v);
    forall b: nat | b + 2 * m <= LANES && b % (2 * m) == 0
      ensures BlockExchanged(Keys(v, bestFirst), Keys(r, bestFirst), b, m, Rising(b, w))
    {
      BlockInside(b, 2 * m, w);
      assert forall k :: b <= k < b + 2 * m ==> Rising(k, w) == Rising(b, w);
      BlockIsExchanged(step, order, idOrder, v, b, Rising(b, w), bestFirst);
    }
    PartnersAgree(step, order, idOrder, w, bestFirst);
    StepPermutes(step, order, idOrder, v);
  }

  lemma PartnersAgree(step: nat, order: seq<bool>, idOrder: seq<bool>, w: nat, bestFirst: bool)
    requires step <= 5 && |order| == |idOrder| == LANES
    requires w > 0 && w % (2 * Stride(step)) == 0
    requires forall k: nat :: k < LANES ==> order[k] == (Rising(k, w) != bestFirst) && idOrder[k] == !order[k]
    ensures forall k: nat :: k < LANES ==> order[k] == order[LowerPartner(k, step)] && idOrder[k] == idOrder[LowerPartner(k, step)]
  {
    forall k: nat | k < LANES
      ensures order[k] == order[LowerPartner(k, step)] && idOrder[k] == idOrder[LowerPartner(k, step)]
    {
      var m := Stride(step);
      assert LANES % (2 * m) == 0 by { StrideDivides(step, step); }
      var b := BlockOf(k, m, w, LANES);
      PartnerFacts(k, step);
      SameHalf(b, k, m);
      LowerHalf(b, m, b);
    }
  }

  lemma BlockIsExchanged(step: nat, order: seq<bool>, idOrder: seq<bool>, v: Vector, b: nat, rising: bool, bestFirst: bool)
    requires step <= 5 && |order| == |idOrder| == LANES
    requires b + 2 * Stride(step) <= LANES && b % (2 * Stride(step)) == 0
    requires forall k :: b <= k < b + 2 * Stride(step) ==> order[k] == (rising != bestFirst) && idOrder[k] == !order[k]
    ensures BlockExchanged(Keys(v, bestFirst), Keys(BitonicStep(step, order, idOrder, v), bestFirst), b, Stride(step), rising)
  {
    var m := Stride(step);
    var r := BitonicStep(step, order, idOrder, v);
    forall k | b <= k < b + m
      ensures PairDone(v, r, k, m, rising, bestFirst)
    {
      LowerHalf(b, m, k);
      SameHalf(b, k + m, m);
      PairExchanged(step, order, idOrder, v, k);
    }
    PairsMakeBlock(v, r, b, m, rising, bestFirst);
  }

  /** Lanes k and k+m of r hold what lanes k and k+m of v held, in order. */
  ghost predicate PairDone(v: seq<Lane>, r: seq<Lane>, k: nat, m: nat, rising: bool, bestFirst: bool)
    requires k + m < |v| == |r|
  {
    var a, b := Key(v[k], bestFirst), Key(v[k + m], bestFirst);
    && Key(r[k], bestFirst) == (if rising then Min(a, b) else Max(a, b))
    && Key(r[k + m], bestFirst) == (if rising then Max(a, b) else Min(a, b))
  }

  lemma PairsMakeBlock(v: seq<Lane>, r: seq<Lane>, b: nat, m: nat, rising: bool, bestFirst: bool)
    requires b + 2 * m <= |v| == |r|
    requires forall k :: b <= k < b + m ==> PairDone(v, r, k, m, rising, bestFirst)
    ensures BlockExchanged(Keys(v, bestFirst), Keys(r, bestFirst), b, m, rising)
  {
    var x, y := Keys(v, bestFirst), Keys(r, bestFirst);
    var u, t, p, q := x[b..b+m], x[b+m..b+2*m], y[b..b+m], y[b+m..b+2*m];
    forall o | 0 <= o < |u|
      ensures p[o] == (if rising then Min(u[o], t[o]) else Max(u[o], t[o]))
      ensures q[o] == (if rising then Max(u[o], t[o]) else Min(u[o], t[o]))
    {
      assert PairDone(v, r, b + o, m, rising, bestFirst);
    }
  }

  lemma PairExchanged(step: nat, order: seq<bool>, idOrder: seq<bool>, v: Vector, k: nat)
    requires step <= 5 && |order| == |idOrder| == LANES
    requires k + Stride(step) < LANES && !Bit(k, step) && Bit(k + Stride(step), step)
    requires order[k] == order[k + Stride(step)] && idOrder[k] == idOrder[k + Stride(step)] == !order[k]
    ensures var a, b := Rank(v[k]), Rank(v[k + Stride(step)]);
            var r := BitonicStep(step, order, idOrder, v);
            && Rank(r[k]) == (if order[k] then Min(a, b) else Max(a, b))
            && Rank(r[k + Stride(step)]) == (if order[k] then Max(a, b) else Min(a, b))
  {
    LowerTakes(step, order, idOrder, v, k);
    UpperTakes(step, order, idOrder, v, k);
  }

  lemma LowerTakes(step: nat, order: seq<bool>, idOrder: seq<bool>, v: Vector, k: nat)
    requires step <= 5 && |order| == |idOrder| == LANES
    requires k + Stride(step) < LANES && !Bit(k, step) && Bit(k + Stride(step), step) && idOrder[k] == !order[k]
    ensures var a, b := Rank(v[k]), Rank(v[k + Stride(step)]);
            Rank(BitonicStep(step, order, idOrder, v)[k]) == if order[k] then Min(a, b) else Max(a, b)
  {
    RankIsOrder(v[k], v[k + Stride(step)]);
    RankIsOrder(v[k + Stride(step)], v[k]);
  }

  lemma UpperTakes(step: nat, order: seq<bool>, idOrder: seq<bool>, v: Vector, k: nat)
    requires step <= 5 && |order| == |idOrder| == LANES
    requires k + Stride(step) < LANES && !Bit(k, step) && Bit(k + Stride(step), step)
    requires order[k] == order[k + Stride(step)] && idOrder[k] == idOrder[k + Stride(step)] == !order[k]
    ensures var a, b := Rank(v[k]), Rank(v[k + Stride(step)]);
            Rank(BitonicStep(step, order, idOrder, v)[k + Stride(step)]) == if order[k] then Max(a, b) else Min(a, b)
  {
    RankIsOrder(v[k], v[k + Stride(step)]);
    RankIsOrder(v[k + Stride(step)], v[k]);
  }

  /** `vshuff` of an order mask with itself: each 2-lane word is repeated twice. */
  function Spread(order: seq<bool>): (r: seq<bool>)
    requires |order| == LANES
    ensures |r| == LANES
  {
    seq(LANES, k requires 0 <= k < LANES => order[2 * (k / 4) + k % 2])
  }

  lemma SpreadDoubles(order: seq<bool>, phase: nat)
    requires phase <= 4 && |order| == LANES
    requires forall k: nat :: k < LANES ==> order[k] == Rising(k, Stride(phase + 1))
    ensures forall k: nat :: k < LANES ==> Spread(order)[k] == Rising(k, Stride(phase + 2))
  {
    forall k: nat | k < LANES
      ensures Spread(order)[k] == Rising(k, Stride(phase + 2))
    {
      assert Stride(phase + 1) == 2 * Stride(phase) && Stride(phase + 2) == 4 * Stride(phase);
      SpreadBlock(k, Stride(phase));
    }
  }

  lemma SpreadBlock(k: nat, t: nat)
    requires t > 0
    ensures (2 * (k / 4) + k % 2) / (2 * t) == k / (4 * t)
  {
    var a := k / 4;
    var q, r := a / t, a % t;
    assert a == t * q + r && k == 4 * a + k % 4;
    DivUnique(2 * a + k % 2, 2 * t, q, 2 * r + k % 2);
    DivUnique(k, 4 * t, q, 4 * r + k % 4);
  }

  /** `bitonic_sort_hf_i32<true, false>`: worst lane first. */
  method SortWorstFirst(vals: Vector) returns (v: Vector)
    ensures multiset(v) == multiset(vals)
    ensures Monotone(Keys(v, false), true)
  {
    v := vals;
    var order := seq(LANES, k => (k / 2) % 2 == 0);
    var idOrder := seq(LANES, k => (k / 2) % 2 != 0);
    PhaseStart(v);
    for phase := 0 to 6
      invariant |order| == |idOrder| == LANES
      invariant multiset(v) == multiset(vals)
      invariant phase <= 5 ==> forall k: nat :: k < LANES ==> order[k] == Rising(k, Stride(phase + 1)) && idOrder[k] == !order[k]
      invariant phase <= 5 ==> BlocksBitonic(Keys(v, false), 2 * Stride(phase))
      invariant phase == 6 ==> BlocksOrdered(Keys(v, false), 1, 64)
    {
      ghost var w := Stride(phase + 1);
      var step := phase;
      while step >= 0
        invariant -1 <= step <= phase
        invariant multiset(v) == multiset(vals)
        invariant BlocksBitonic(Keys(v, false), Stride(step + 1))
        invariant BlocksOrdered(Keys(v, false), Stride(step + 1), w)
      {
        StrideDivides(step, phase);
        StepIsExchange(step, order, idOrder, v, w, false);
        ghost var before := Keys(v, false);
        v := BitonicStep(step, order, idOrder, v);
        StepRefines(before, Keys(v, false), Stride(step), w);
        step := step - 1;
      }
      if phase < 5 {
        PhaseDone(Keys(v, false), w);
        SpreadDoubles(order, phase);
        SpreadComplement(order, idOrder);
      }
      order := Spread(order);
      idOrder := Spread(idOrder);
    }
    WholeVectorOrdered(v, false);
  }

  lemma StrideDivides(step: nat, phase: nat)
    requires step <= phase <= 5
    ensures Stride(phase + 1) % (2 * Stride(step)) == 0 && 64 % (2 * Stride(step)) == 0
    ensures Stride(step + 1) == 2 * Stride(step)
  {
  }

  lemma SpreadComplement(order: seq<bool>, idOrder: seq<bool>)
    requires |order| == |idOrder| == LANES
    requires forall k: nat :: k < LANES ==> idOrder[k] == !order[k]
    ensures forall k: nat :: k < LANES ==> Spread(idOrder)[k] == !Spread(order)[k]
  {
  }

  /** Pairs of single lanes are bitonic. */
  lemma PhaseStart(v: Vector)
    ensures BlocksBitonic(Keys(v, false), 2)
  {
    PhaseDone(Keys(v, false), 1);
  }

  lemma WholeVectorOrdered(v: Vector, bestFirst: bool)
    requires BlocksOrdered(Keys(v, bestFirst), 1, 64)
    ensures Monotone(Keys(v, bestFirst), true)
  {
    OneBlockOrdered(Keys(v, bestFirst));
  }

  lemma OneBlockOrdered(x: seq<int>)
    requires |x| <= 64 && BlocksOrdered(x, 1, 64)
    ensures Monotone(x, true)
  {
    forall i: nat, j: nat | i < j < |x|
      ensures x[i] <= x[j]
    {
      InFirstBlock(i);
      InFirstBlock(j);
    }
  }

  lemma InFirstBlock(i: nat)
    requires i < 64
    ensures i / 64 == 0 && i / 1 == i && Rising(i, 64)
  {
  }

  // ----- merging a worst-first vector into a best-first one -----

  /** The value-only lane choice of the merge keeps v1 unless v2 scores strictly higher. */
  function Kept(v1: Vector, v2: Vector): (v: Vector) {
    seq(LANES, k requires 0 <= k < LANES => if !(v2[k].score > v1[k].score) then v1[k] else v2[k])
  }

  function Dropped(v1: Vector, v2: Vector): (v: Vector) {
    seq(LANES, k requires 0 <= k < LANES => if !(v2[k].score > v1[k].score) then v2[k] else v1[k])
  }

  lemma NothingLost(v1: Vector, v2: Vector)
    ensures multiset(Kept(v1, v2)) + multiset(Dropped(v1, v2)) == multiset(v1) + multiset(v2)
  {
    var x, y := v1 + v2, Kept(v1, v2) + Dropped(v1, v2);
    var p := seq(2 * LANES, k requires 0 <= k < 2 * LANES => PoolIndex(v1, v2, k));
    forall k | 0 <= k < 2 * LANES
      ensures 0 <= p[k] < 2 * LANES && y[k] == x[p[k]]
    {
    }
    PermutedMultiset(x, y, p);
  }

  /** Where in v1 + v2 the merge finds the lane it keeps at k, or drops at k - 64. */
  function PoolIndex(v1: Vector, v2: Vector, k: nat): nat
    requires k < 2 * LANES
  {
    if v2[k % LANES].score > v1[k % LANES].score then (if k < LANES then k + LANES else k - LANES) else k
  }

  /** Equal scores are the same padding lane, or favour the running best. */
  ghost predicate TiesFavour(best: seq<Lane>, candidates: seq<Lane>) {
    forall i, j :: 0 <= i < |best| && 0 <= j < |candidates| && best[i].score == candidates[j].score ==>
      best[i] == candidates[j] || best[i].id < candidates[j].id
  }

  /** A lane that cannot be told from padding counts as padding. */
  function Squash(l: Lane): Lane { if l.score <= NEG_MAX then PAD else l }

  function Squashed(v: Vector): (r: Vector) {
    seq(LANES, k requires 0 <= k < LANES => Squash(v[k]))
  }

  /** A vector that starts as padding never takes a lane at the sentinel or below. */
  lemma SentinelNeverWins(v1: Vector, v2: Vector)
    requires forall l :: l in v1 ==> l.score >= NEG_MAX
    ensures Kept(v1, v2) == Kept(v1, Squashed(v2))
  {
    forall k | 0 <= k < LANES
      ensures Kept(v1, v2)[k] == Kept(v1, Squashed(v2))[k]
    {
      assert v1[k] in v1;
    }
  }

  lemma SquashedMonotone(v: Vector)
    requires Monotone(Keys(v, false), true)
    ensures Monotone(Keys(Squashed(v), false), true)
  {
    var x, y := Keys(v, false), Keys(Squashed(v), false);
    forall i: nat, j: nat | i < j < |y|
      ensures y[i] <= y[j]
    {
      assert x[i] <= x[j];
      SquashOrder(v[i], v[j]);
    }
  }

  lemma SquashOrder(a: Lane, b: Lane)
    requires 0 <= a.id <= INT_MAX && 0 <= b.id <= INT_MAX && Rank(a) <= Rank(b)
    ensures Rank(Squash(a)) <= Rank(Squash(b))
  {
    RankIsOrder(a, b);
    RankIsOrder(b, a);
    RankIsOrder(Squash(a), Squash(b));
  }

  /**
   `bitonic_sort_merge_keep_first_hf_i32<false, true>`: the lane-wise choice compares scores only, then
   six steps put the 64 kept lanes best first.  Lanes of v2 at the sentinel or below act as padding;
   everything else that is dropped is no better than anything kept.
   */
  method MergeKeepFirst(v1: Vector, v2: Vector) returns (v: Vector, ghost dropped: Vector)
    requires Monotone(Keys(v1, true), true)
    requires Monotone(Keys(v2, false), true)
    requires forall l :: l in v1 ==> l.score >= NEG_MAX
    requires TiesFavour(v1, Squashed(v2))
    ensures Monotone(Keys(v, true), true)
    ensures multiset(v) + multiset(dropped) == multiset(v1) + multiset(Squashed(v2))
    ensures forall i, j :: 0 <= i < LANES && 0 <= j < LANES ==> Rank(v[i]) >= Rank(dropped[j])
    ensures forall i :: 0 <= i < LANES ==> Rank(v[i]) >= Rank(v1[LANES - 1])
  {
    v := Kept(v1, v2);
    SentinelNeverWins(v1, v2);
    SquashedMonotone(v2);
    dropped := Dropped(v1, Squashed(v2));
    KeptIsBitonic(v1, Squashed(v2));
    NothingLost(v1, Squashed(v2));
    ghost var kept := v;
    v := MergeSteps(v);
    forall i | 0 <= i < LANES
      ensures v[i] in kept
    {
      assert v[i] in multiset(v);
    }
  }

  /** The six descending steps of the merge sort a bitonic vector best first. */
  method MergeSteps(kept: Vector) returns (v: Vector)
    requires BlocksBitonic(Keys(kept, true), 64)
    ensures multiset(v) == multiset(kept)
    ensures Monotone(Keys(v, true), true)
  {
    v := kept;
    var order := seq(LANES, k => false);
    var idOrder := seq(LANES, k => true);
    var step := 5;
    while step >= 0
      invariant -1 <= step <= 5
      invariant multiset(v) == multiset(kept)
      invariant BlocksBitonic(Keys(v, true), Stride(step + 1))
      invariant BlocksOrdered(Keys(v, true), Stride(step + 1), 64)
    {
      StrideDivides(step, 5);
      StepIsExchange(step, order, idOrder, v, 64, true);
      ghost var before := Keys(v, true);
      v := BitonicStep(step, order, idOrder, v);
      StepRefines(before, Keys(v, true), Stride(step), 64);
      step := step - 1;
    }
    WholeVectorOrdered(v, true);
  }

  lemma KeptIsBitonic(v1: Vector, v2: Vector)
    requires Monotone(Keys(v1, true), true)
    requires Monotone(Keys(v2, false), true)
    requires TiesFavour(v1, v2)
    ensures BlocksBitonic(Keys(Kept(v1, v2), true), 64)
    ensures forall i, j :: 0 <= i < LANES && 0 <= j < LANES ==> Rank(Kept(v1, v2)[i]) >= Rank(Dropped(v1, v2)[j])
    ensures forall k :: 0 <= k < LANES ==> Rank(Kept(v1, v2)[k]) >= Rank(v1[LANES - 1])
  {
    var kept, dropped := Kept(v1, v2), Dropped(v1, v2);
    var u, t, lo, hi := Keys(v1, true), Keys(v2, true), Keys(kept, true), Keys(dropped, true);
    assert forall i :: 0 <= i < LANES ==> t[i] == -Keys(v2, false)[i];
    MonotonePairBitonic(u, t, true);
    forall k | 0 <= k < |u|
      ensures lo[k] == Min(u[k], t[k]) && hi[k] == Max(u[k], t[k])
    {
      RankIsOrder(v1[k], v2[k]);
      RankIsOrder(v2[k], v1[k]);
    }
    HalfClean(u, t, lo, hi);
    forall k | 0 <= k < LANES
      ensures Rank(kept[k]) >= Rank(v1[LANES - 1])
    {
      assert lo[k] <= u[k] <= u[LANES - 1];
    }
    forall i, j | 0 <= i < LANES && 0 <= j < LANES
      ensures Rank(kept[i]) >= Rank(dropped[j])
    {
      assert lo[i] <= hi[j];
    }
    forall b: nat | b + 64 <= LANES && b % 64 == 0
      ensures IsBitonic(lo[b..b+64])
    {
      assert lo[b..b+64] == lo;
    }
  }
}
