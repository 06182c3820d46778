/**
 The rows of a speculative-decoding step.  Each of the first `padded` requests runs `activeK + 1` decode
 positions whatever it was given; the rest run their own tokens and yield one row each.  Afterwards the
 padding is cut out, and index arrays say where each draft token and each bonus token sits.
 */
module SpecLayout {

  import opened ArrayOps

  // ----- active K -----

  /** `_determine_active_k`; proposals holds the draft count of every request that has an entry. */
  function DetermineActiveK(decodeKs: seq<nat>, numDecodes: nat, proposals: seq<nat>): nat
    requires decodeKs != []
  {
    if |decodeKs| <= 1 then decodeKs[|decodeKs|-1]
    else if numDecodes == 0 then 0
    else if exists i :: 0 <= i < |proposals| && proposals[i] > 0 then decodeKs[|decodeKs|-1]
    else 0
  }

  /** With decode requests and any proposal at all, the full kernel runs; every draft fits the kernel that runs. */
  lemma DraftsFitKernel(decodeKs: seq<nat>, numDecodes: nat, proposals: seq<nat>, maxK: nat)
    requires decodeKs == [maxK] || decodeKs == [0, maxK]
    requires forall i :: 0 <= i < |proposals| ==> proposals[i] <= maxK
    requires numDecodes == 0 ==> forall i :: 0 <= i < |proposals| ==> proposals[i] == 0
    ensures forall i :: 0 <= i < |proposals| ==> proposals[i] <= DetermineActiveK(decodeKs, numDecodes, proposals)
    ensures DetermineActiveK(decodeKs, numDecodes, proposals) == 0 || DetermineActiveK(decodeKs, numDecodes, proposals) == maxK
    ensures (exists i :: 0 <= i < |proposals| && proposals[i] > 0) ==> DetermineActiveK(decodeKs, numDecodes, proposals) == maxK
    ensures decodeKs == [maxK] ==> DetermineActiveK(decodeKs, numDecodes, proposals) == maxK
    ensures decodeKs == [0, maxK] && (forall i :: 0 <= i < |proposals| ==> proposals[i] == 0) ==> DetermineActiveK(decodeKs, numDecodes, proposals) == 0
  {
  }

  // ----- padded input -----

  /** The scheduler's counts with the first `padded` requests set to activeK + 1. */
  function PadCounts(scheduled: seq<int>, padded: nat, activeK: nat): (c: seq<int>)
    requires padded <= |scheduled|
    ensures |c| == |scheduled|
    ensures forall r :: 0 <= r < |c| ==> c[r] == if r < padded then activeK + 1 else scheduled[r]
  {
    seq(padded, _ => activeK + 1) + scheduled[padded..]
  }

  /** Positions into the flattened token table of width `width`: request index * width + position. */
  function TokenIndices(computed: seq<int>, counts: seq<int>, width: nat): seq<int>
    requires |computed| == |counts|
  {
    var starts := seq(|counts|, i requires 0 <= i < |counts| => computed[i] + i * width);
    BlockSame(starts, counts);
    Plus(Repeat(starts, counts), Aranges(counts))
  }

  lemma {:induction false} BlockSame<T>(values: seq<T>, counts: seq<int>)
    requires |values| == |counts|
    ensures |Repeat(values, counts)| == |Aranges(counts)|
  {
    if counts != [] {
      BlockSame(values[..|counts|-1], counts[..|counts|-1]);
    }
  }

  ghost predicate IndicesIn(indices: seq<int>, size: nat) {
    forall i :: 0 <= i < |indices| ==> 0 <= indices[i] < size
  }

  function Gather<T>(source: seq<T>, indices: seq<int>): (g: seq<T>)
    requires IndicesIn(indices, |source|)
    ensures |g| == |indices|
  {
    seq(|indices|, i requires 0 <= i < |indices| => source[indices[i]])
  }

  /** The input ids of the step. */
  function PaddedInput(table: seq<int>, computed: seq<int>, counts: seq<int>, width: nat): seq<int>
    requires |computed| == |counts| && IndicesIn(TokenIndices(computed, counts, width), |table|)
  {
    Gather(table, TokenIndices(computed, counts, width))
  }

  /** Padded row r * mdt + t of the input is position computed[r] + t of request r. */
  lemma PaddedInputAt(table: seq<int>, computed: seq<int>, scheduled: seq<int>, padded: nat, activeK: nat, width: nat, r: nat, t: nat)
    requires |computed| == |scheduled| && Counts(scheduled) && padded <= |scheduled| && r < padded && t <= activeK
    requires IndicesIn(TokenIndices(computed, PadCounts(scheduled, padded, activeK), width), |table|)
    ensures 0 <= computed[r] + r * width + t < |table|
    ensures r * (activeK + 1) + t < |PaddedInput(table, computed, PadCounts(scheduled, padded, activeK), width)|
    ensures PaddedInput(table, computed, PadCounts(scheduled, padded, activeK), width)[r * (activeK + 1) + t]
         == table[computed[r] + r * width + t]
  {
    var counts := PadCounts(scheduled, padded, activeK);
    var starts := seq(|counts|, i requires 0 <= i < |counts| => computed[i] + i * width);
    SumOfEqual(counts, activeK + 1, r);
    BlockAt(starts, counts, r, t);
    assert TokenIndices(computed, counts, width)[r * (activeK + 1) + t] == starts[r] + t;
  }

  // ----- metadata -----

  datatype Metadata = Metadata(draftTokenIds: seq<int>, cuNumDraftTokens: seq<int>, cuNumSampledTokens: seq<int>,
                               targetLogitsIndices: seq<int>, bonusLogitsIndices: seq<int>)

  function Ones(n: nat): seq<int> { seq(n, _ => 1) }

  function DraftTokenIndices(drafts: seq<int>, signal: seq<int>, mdt: nat): seq<int>
    requires |signal| == |drafts|
  {
    var sampled := Plus(drafts, Ones(|drafts|));
    var pads := Minus(seq(|drafts|, _ => mdt), signal);
    var starts := Plus(Minus(Cumsum(sampled), sampled), Minus(Cumsum(pads), pads));
    BlockSame(starts, drafts);
    Plus(Repeat(starts, drafts), Aranges(drafts))
  }

  function TargetIndices(drafts: seq<int>): seq<int> {
    var sampled := Plus(drafts, Ones(|drafts|));
    BlockSame(Minus(Cumsum(sampled), sampled), drafts);
    Plus(Repeat(Minus(Cumsum(sampled), sampled), drafts), Aranges(drafts))
  }

  /** `_calc_spec_decode_metadata`. */
  function CalcMetadata(drafts: seq<int>, signal: seq<int>, mdt: nat, inputIds: seq<int>): Metadata
    requires |signal| == |drafts|
    requires IndicesIn(Plus(DraftTokenIndices(drafts, signal, mdt), Ones(|DraftTokenIndices(drafts, signal, mdt)|)), |inputIds|)
  {
    var sampled := Plus(drafts, Ones(|drafts|));
    Metadata(
      Gather(inputIds, Plus(DraftTokenIndices(drafts, signal, mdt), Ones(|DraftTokenIndices(drafts, signal, mdt)|))),
      Cumsum(drafts), Cumsum(sampled), TargetIndices(drafts), Minus(Cumsum(sampled), Ones(|drafts|)))
  }

  /** Where request r's drafts begin in the draft arrays. */
  function DraftBase(drafts: seq<int>, r: nat): int
    requires r <= |drafts|
  {
    Sum(drafts[..r])
  }

  /** Where request r's rows begin among the kept rows. */
  function KeptBase(drafts: seq<int>, r: nat): int
    requires r <= |drafts|
  {
    Sum(Plus(drafts, Ones(|drafts|))[..r])
  }

  lemma TargetAt(drafts: seq<int>, r: nat, j: nat)
    requires Counts(drafts) && r < |drafts| && j < drafts[r]
    ensures 0 <= DraftBase(drafts, r) + j < |TargetIndices(drafts)|
    ensures TargetIndices(drafts)[DraftBase(drafts, r) + j] == KeptBase(drafts, r) + j
  {
    var sampled := Plus(drafts, Ones(|drafts|));
    CumsumAt(sampled, r);
    BlockAt(Minus(Cumsum(sampled), sampled), drafts, r, j);
  }

  /** Decode rows before request r take r * mdt places once padded. */
  lemma DraftIndexAt(drafts: seq<int>, signal: seq<int>, mdt: nat, padded: nat, r: nat, j: nat)
    requires Counts(drafts) && |signal| == |drafts| && r < padded <= |drafts| && j < drafts[r]
    requires forall q :: 0 <= q < padded ==> signal[q] == drafts[q] + 1
    ensures 0 <= DraftBase(drafts, r) + j < |DraftTokenIndices(drafts, signal, mdt)|
    ensures DraftTokenIndices(drafts, signal, mdt)[DraftBase(drafts, r) + j] == r * mdt + j
  {
    var sampled := Plus(drafts, Ones(|drafts|));
    var pads := Minus(seq(|drafts|, _ => mdt), signal);
    var starts := Plus(Minus(Cumsum(sampled), sampled), Minus(Cumsum(pads), pads));
    CumsumAt(sampled, r);
    CumsumAt(pads, r);
    SumTogether(sampled, pads, mdt, r);
    BlockAt(starts, drafts, r, j);
    assert starts[r] == r * mdt;
  }

  lemma {:induction false} SumTogether(a: seq<int>, b: seq<int>, v: int, n: nat)
    requires n <= |a| == |b| && forall i :: 0 <= i < n ==> a[i] + b[i] == v
    ensures Sum(a[..n]) + Sum(b[..n]) == n * v
  {
    if n > 0 {
      SumTogether(a, b, v, n - 1);
      assert a[..n][..n - 1] == a[..n - 1] && b[..n][..n - 1] == b[..n - 1];
      assert n * v == (n - 1) * v + v;
    }
  }

  // ----- kept rows -----

  /** The mask over all padded rows: position in the request below its signal count. */
  function Mask(signal: seq<int>, mdt: nat): seq<bool> {
    Flatten(seq(|signal|, r requires 0 <= r < |signal| => seq(mdt, t => t < signal[r])))
  }

  /** What each request keeps: its first signal[r] rows. */
  function KeptRows<T>(rows: seq<seq<T>>, signal: seq<int>): (k: seq<seq<T>>)
    requires |rows| == |signal| && forall r :: 0 <= r < |rows| ==> 0 <= signal[r] <= |rows[r]|
    ensures |k| == |rows| && forall r :: 0 <= r < |rows| ==> k[r] == rows[r][..signal[r]]
  {
    seq(|rows|, r requires 0 <= r < |rows| => rows[r][..signal[r]])
  }

  lemma {:induction false} MaskLength(signal: seq<int>, mdt: nat)
    ensures |Mask(signal, mdt)| == |signal| * mdt
  {
    var rows := seq(|signal|, r requires 0 <= r < |signal| => seq(mdt, t => t < signal[r]));
    var lengths: seq<int> := seq(|signal|, _ => mdt);
    FlattenLength(rows, lengths);
    SumOfEqual(lengths, mdt, |signal|);
    assert lengths[..|signal|] == lengths;
  }

  lemma FlatLength<T>(rows: seq<seq<T>>, mdt: nat)
    requires forall r :: 0 <= r < |rows| ==> |rows[r]| == mdt
    ensures |Flatten(rows)| == |rows| * mdt
  {
    var lengths: seq<int> := seq(|rows|, _ => mdt);
    FlattenLength(rows, lengths);
    SumOfEqual(lengths, mdt, |rows|);
    assert lengths[..|rows|] == lengths;
  }

  /** The mask cuts exactly the padding out of every request. */
  lemma {:induction false} CompressIsKept<T>(rows: seq<seq<T>>, signal: seq<int>, mdt: nat)
    requires |signal| == |rows| && forall r :: 0 <= r < |rows| ==> |rows[r]| == mdt && 0 <= signal[r] <= mdt
    ensures |Flatten(rows)| == |Mask(signal, mdt)|
    ensures Compress(Flatten(rows), Mask(signal, mdt)) == Flatten(KeptRows(rows, signal))
    decreases |rows|
  {
    FlatLength(rows, mdt);
    MaskLength(signal, mdt);
    if rows != [] {
      var n := |rows| - 1;
      CompressIsKept(rows[..n], signal[..n], mdt);
      var last := seq(mdt, t => t < signal[n]);
      MaskSplit(signal, mdt);
      CompressJoin(Flatten(rows[..n]), rows[n], Mask(signal[..n], mdt), last);
      CompressPrefix(rows[n], last, signal[n]);
      assert KeptRows(rows, signal)[..n] == KeptRows(rows[..n], signal[..n]);
    }
  }

  lemma MaskSplit(signal: seq<int>, mdt: nat)
    requires signal != []
    ensures Mask(signal, mdt) == Mask(signal[..|signal|-1], mdt) + seq(mdt, t => t < signal[|signal|-1])
  {
    var n := |signal| - 1;
    var rows := seq(|signal|, r requires 0 <= r < |signal| => seq(mdt, t => t < signal[r]));
    assert rows[..n] == seq(n, r requires 0 <= r < n => seq(mdt, t => t < signal[..n][r]));
    assert rows[n] == seq(mdt, t => t < signal[n]);
  }

  /**
   `_compute_hidden_states_and_logits`: decode rows without padding, then the prefill rows.  With K = 0
   there is one decode row per request and nothing to cut.
   */
  function ComputeRows<T>(decode: seq<seq<T>>, prefill: seq<T>, drafts: seq<int>, mdt: nat, activeK: nat): seq<T>
    requires |decode| <= |drafts| && forall r :: 0 <= r < |decode| ==> |decode[r]| == activeK + 1
  {
    var numDecodes := |decode|;
    var kept :=
      if mdt > 1 && activeK > 0 then
        var signal := Plus(drafts[..numDecodes], Ones(numDecodes));
        FlatLength(decode, activeK + 1);
        MaskLength(signal, activeK + 1);
        Compress(Flatten(decode), Mask(signal, activeK + 1))
      else
        seq(numDecodes, r requires 0 <= r < numDecodes => decode[r][0]);
    kept + prefill
  }

  /** Draft counts of a step: drafts on decode rows, none on prefill rows, all within the kernel. */
  ghost predicate StepOk(drafts: seq<int>, numDecodes: nat, mdt: nat, activeK: nat) {
    && numDecodes <= |drafts| && activeK < mdt
    && (forall r :: 0 <= r < numDecodes ==> 0 <= drafts[r] <= activeK)
    && (forall r :: numDecodes <= r < |drafts| ==> drafts[r] == 0)
  }

  lemma KeptDecode<T>(decode: seq<seq<T>>, prefill: seq<T>, drafts: seq<int>, mdt: nat, activeK: nat)
    requires StepOk(drafts, |decode|, mdt, activeK) && forall r :: 0 <= r < |decode| ==> |decode[r]| == activeK + 1
    ensures ComputeRows(decode, prefill, drafts, mdt, activeK)
         == Flatten(KeptRows(decode, Plus(drafts[..|decode|], Ones(|decode|)))) + prefill
  {
    var n := |decode|;
    var signal := Plus(drafts[..n], Ones(n));
    if mdt > 1 && activeK > 0 {
      CompressIsKept(decode, signal, activeK + 1);
    } else {
      KeptSingles(decode, signal);
    }
  }

  lemma {:induction false} KeptSingles<T>(decode: seq<seq<T>>, signal: seq<int>)
    requires |signal| == |decode| && forall r :: 0 <= r < |decode| ==> |decode[r]| == signal[r] == 1
    ensures Flatten(KeptRows(decode, signal)) == seq(|decode|, r requires 0 <= r < |decode| => decode[r][0])
  {
    if decode != [] {
      var n := |decode| - 1;
      KeptSingles(decode[..n], signal[..n]);
      assert KeptRows(decode, signal)[..n] == KeptRows(decode[..n], signal[..n]);
      assert decode[n][..1] == [decode[n][0]];
      assert seq(n + 1, r requires 0 <= r < n + 1 => decode[r][0])
          == seq(n, r requires 0 <= r < n => decode[..n][r][0]) + [decode[n][0]];
    }
  }

  /** Kept row t of decode request r. */
  lemma DecodeRowAt<T>(decode: seq<seq<T>>, prefill: seq<T>, drafts: seq<int>, mdt: nat, activeK: nat, r: nat, t: nat)
    requires StepOk(drafts, |decode|, mdt, activeK) && forall r :: 0 <= r < |decode| ==> |decode[r]| == activeK + 1
    requires r < |decode| && t <= drafts[r]
    ensures 0 <= KeptBase(drafts, r) + t < |ComputeRows(decode, prefill, drafts, mdt, activeK)|
    ensures ComputeRows(decode, prefill, drafts, mdt, activeK)[KeptBase(drafts, r) + t] == decode[r][t]
  {
    var n := |decode|;
    var signal := Plus(drafts[..n], Ones(n));
    KeptDecode(decode, prefill, drafts, mdt, activeK);
    FlattenAt(KeptRows(decode, signal), signal, r, t);
    assert signal[..r] == Plus(drafts, Ones(|drafts|))[..r];
  }

  /** The row of prefill request r. */
  lemma PrefillRowAt<T>(decode: seq<seq<T>>, prefill: seq<T>, drafts: seq<int>, mdt: nat, activeK: nat, r: nat)
    requires StepOk(drafts, |decode|, mdt, activeK) && forall r :: 0 <= r < |decode| ==> |decode[r]| == activeK + 1
    requires |decode| <= r < |drafts| == |decode| + |prefill|
    ensures 0 <= KeptBase(drafts, r) < |ComputeRows(decode, prefill, drafts, mdt, activeK)|
    ensures ComputeRows(decode, prefill, drafts, mdt, activeK)[KeptBase(drafts, r)] == prefill[r - |decode|]
  {
    var n := |decode|;
    var kept := Flatten(KeptRows(decode, Plus(drafts[..n], Ones(n))));
    KeptDecode(decode, prefill, drafts, mdt, activeK);
    assert |kept| == KeptBase(drafts, n) by { KeptCount(decode, drafts, mdt, activeK); }
    PrefillBase(drafts, n, mdt, activeK, r);
  }

  /** The decode requests keep as many rows as come before the first prefill row. */
  lemma KeptCount<T>(decode: seq<seq<T>>, drafts: seq<int>, mdt: nat, activeK: nat)
    requires StepOk(drafts, |decode|, mdt, activeK) && forall r :: 0 <= r < |decode| ==> |decode[r]| == activeK + 1
    ensures |Flatten(KeptRows(decode, Plus(drafts[..|decode|], Ones(|decode|))))| == KeptBase(drafts, |decode|)
  {
    var n := |decode|;
    var signal := Plus(drafts[..n], Ones(n));
    FlattenLength(KeptRows(decode, signal), signal);
    assert signal == Plus(drafts, Ones(|drafts|))[..n];
  }

  /** Prefill requests keep one row each. */
  lemma PrefillBase(drafts: seq<int>, n: nat, mdt: nat, activeK: nat, r: nat)
    requires StepOk(drafts, n, mdt, activeK) && n <= r < |drafts|
    ensures KeptBase(drafts, r) == KeptBase(drafts, n) + r - n && KeptBase(drafts, n) >= 0
  {
    var sampled := Plus(drafts, Ones(|drafts|));
    SumMonotone(sampled, 0, n);
    OnesAfter(sampled, n, r);
  }

  lemma {:induction false} OnesAfter(s: seq<int>, n: nat, r: nat)
    requires n <= r <= |s| && forall i :: n <= i < r ==> s[i] == 1
    ensures Sum(s[..r]) == Sum(s[..n]) + r - n
    decreases r
  {
    if n < r {
      OnesAfter(s, n, r - 1);
      assert s[..r][..r - 1] == s[..r - 1];
    }
  }

  // ----- everything agrees -----

  /** All that one step fixes: the token table, each request's counts, and the rows the kernels returned. */
  datatype Step<T> = Step(table: seq<int>, width: nat, computed: seq<int>, scheduled: seq<int>, drafts: seq<int>,
                          decode: seq<seq<T>>, prefill: seq<T>, mdt: nat, activeK: nat)

  ghost predicate SpecStep<T>(s: Step<T>) {
    && StepOk(s.drafts, |s.decode|, s.mdt, s.activeK) && |s.drafts| == |s.scheduled| == |s.computed| == |s.decode| + |s.prefill|
    && (forall r :: 0 <= r < |s.decode| ==> |s.decode[r]| == s.activeK + 1 && s.scheduled[r] == s.drafts[r] + 1)
    && Counts(s.scheduled)
    && ((exists r :: 0 <= r < |s.drafts| && s.drafts[r] > 0) ==> s.activeK + 1 == s.mdt)
    && IndicesIn(TokenIndices(s.computed, PadCounts(s.scheduled, |s.decode|, s.activeK), s.width), |s.table|)
  }

  function Input<T>(s: Step<T>): seq<int>
    requires SpecStep(s)
  {
    PaddedInput(s.table, s.computed, PadCounts(s.scheduled, |s.decode|, s.activeK), s.width)
  }

  function StepMetadata<T>(s: Step<T>): Metadata
    requires SpecStep(s)
  {
    DraftIndicesInside(s);
    CalcMetadata(s.drafts, s.scheduled, s.mdt, Input(s))
  }

  function Rows<T>(s: Step<T>): seq<T>
    requires SpecStep(s)
  {
    ComputeRows(s.decode, s.prefill, s.drafts, s.mdt, s.activeK)
  }

  lemma DraftIndicesLength(drafts: seq<int>, signal: seq<int>, mdt: nat)
    requires Counts(drafts) && |signal| == |drafts|
    ensures |DraftTokenIndices(drafts, signal, mdt)| == |TargetIndices(drafts)| == Sum(drafts)
  {
    var sampled := Plus(drafts, Ones(|drafts|));
    var pads := Minus(seq(|drafts|, _ => mdt), signal);
    BlockLength(Plus(Minus(Cumsum(sampled), sampled), Minus(Cumsum(pads), pads)), drafts);
    BlockLength(Minus(Cumsum(sampled), sampled), drafts);
  }

  lemma DraftIndicesInside<T>(s: Step<T>)
    requires SpecStep(s)
    ensures IndicesIn(Plus(DraftTokenIndices(s.drafts, s.scheduled, s.mdt), Ones(|DraftTokenIndices(s.drafts, s.scheduled, s.mdt)|)), |Input(s)|)
  {
    var indices := DraftTokenIndices(s.drafts, s.scheduled, s.mdt);
    DraftIndicesLength(s.drafts, s.scheduled, s.mdt);
    forall i | 0 <= i < |indices|
      ensures 0 <= indices[i] + 1 < |Input(s)|
    {
      var r, j := BlockOf(s.drafts, i);
      DraftPlace(s, r, j);
      DraftInput(s, r, j);
    }
  }

  /** A request with drafts is a decode request, and the full kernel runs. */
  lemma DraftsDecode<T>(s: Step<T>, r: nat, j: nat)
    requires SpecStep(s) && r < |s.drafts| && j < s.drafts[r]
    ensures r < |s.decode| && s.activeK + 1 == s.mdt && j + 1 <= s.activeK && Counts(s.drafts)
  {
  }

  lemma DraftPlace<T>(s: Step<T>, r: nat, j: nat)
    requires SpecStep(s) && r < |s.drafts| && j < s.drafts[r]
    ensures 0 <= DraftBase(s.drafts, r) + j < |DraftTokenIndices(s.drafts, s.scheduled, s.mdt)|
    ensures DraftTokenIndices(s.drafts, s.scheduled, s.mdt)[DraftBase(s.drafts, r) + j] == r * s.mdt + j
  {
    DraftsDecode(s, r, j);
    DraftIndexAt(s.drafts, s.scheduled, s.mdt, |s.decode|, r, j);
  }

  lemma DraftInput<T>(s: Step<T>, r: nat, j: nat)
    requires SpecStep(s) && r < |s.drafts| && j < s.drafts[r]
    ensures 0 <= r * s.mdt + j && r * s.mdt + (j + 1) < |Input(s)| && 0 <= s.computed[r] + r * s.width + (j + 1) < |s.table|
    ensures Input(s)[r * s.mdt + (j + 1)] == s.table[s.computed[r] + r * s.width + (j + 1)]
  {
    DraftsDecode(s, r, j);
    PaddedInputAt(s.table, s.computed, s.scheduled, |s.decode|, s.activeK, s.width, r, j + 1);
    assert r * s.mdt >= 0;
  }

  /** Every place of the draft arrays is draft j of some request r. */
  lemma {:induction false} BlockOf(drafts: seq<int>, i: nat) returns (r: nat, j: nat)
    requires Counts(drafts) && i < Sum(drafts)
    ensures r < |drafts| && j < drafts[r] && i == DraftBase(drafts, r) + j
  {
    var n := |drafts| - 1;
    if i < Sum(drafts[..n]) {
      r, j := BlockOf(drafts[..n], i);
      assert drafts[..n][..r] == drafts[..r];
    } else {
      r, j := n, i - Sum(drafts[..n]);
    }
  }

  /**
   The token of draft j of request r is padded input r * mdt + 1 + j, which is what the token table holds
   j + 1 places after the request's computed tokens.
   */
  lemma DraftTokensLineUp<T>(s: Step<T>, r: nat, j: nat)
    requires SpecStep(s) && r < |s.drafts| && j < s.drafts[r]
    ensures 0 <= r * s.mdt + j && r * s.mdt + (j + 1) < |Input(s)| && 0 <= s.computed[r] + r * s.width + (j + 1) < |s.table|
    ensures 0 <= DraftBase(s.drafts, r) + j < |StepMetadata(s).draftTokenIds|
    ensures StepMetadata(s).draftTokenIds[DraftBase(s.drafts, r) + j] == Input(s)[r * s.mdt + (j + 1)]
         == s.table[s.computed[r] + r * s.width + (j + 1)]
  {
    DraftIndicesInside(s);
    DraftPlace(s, r, j);
    DraftInput(s, r, j);
  }

  /** The row draft j of request r is judged by is its padded row r * mdt + j. */
  lemma TargetRowsLineUp<T>(s: Step<T>, r: nat, j: nat)
    requires SpecStep(s) && r < |s.drafts| && j < s.drafts[r]
    ensures 0 <= DraftBase(s.drafts, r) + j < |StepMetadata(s).targetLogitsIndices|
    ensures 0 <= StepMetadata(s).targetLogitsIndices[DraftBase(s.drafts, r) + j] < |Rows(s)|
    ensures 0 <= r * s.mdt + j < |Flatten(s.decode)|
    ensures Rows(s)[StepMetadata(s).targetLogitsIndices[DraftBase(s.drafts, r) + j]] == Flatten(s.decode)[r * s.mdt + j]
  {
    DraftsDecode(s, r, j);
    TargetPlace(s, r, j);
    TargetRow(s, r, j);
    PaddedRowAt(s.decode, s.mdt, r, j);
  }

  lemma TargetPlace<T>(s: Step<T>, r: nat, j: nat)
    requires SpecStep(s) && r < |s.drafts| && j < s.drafts[r]
    ensures 0 <= DraftBase(s.drafts, r) + j < |StepMetadata(s).targetLogitsIndices|
    ensures StepMetadata(s).targetLogitsIndices[DraftBase(s.drafts, r) + j] == KeptBase(s.drafts, r) + j
  {
    DraftsDecode(s, r, j);
    TargetAt(s.drafts, r, j);
  }

  lemma TargetRow<T>(s: Step<T>, r: nat, j: nat)
    requires SpecStep(s) && r < |s.drafts| && j < s.drafts[r]
    ensures r < |s.decode| && |s.decode[r]| == s.mdt && 0 <= KeptBase(s.drafts, r) + j < |Rows(s)|
    ensures Rows(s)[KeptBase(s.drafts, r) + j] == s.decode[r][j]
  {
    DraftsDecode(s, r, j);
    DecodeRowAt(s.decode, s.prefill, s.drafts, s.mdt, s.activeK, r, j);
  }

  lemma PaddedRowAt<T>(rows: seq<seq<T>>, mdt: nat, r: nat, t: nat)
    requires r < |rows| && t < mdt && forall q :: 0 <= q < |rows| ==> |rows[q]| == mdt
    ensures 0 <= r * mdt + t < |Flatten(rows)| && Flatten(rows)[r * mdt + t] == rows[r][t]
  {
    var lengths: seq<int> := seq(|rows|, _ => mdt);
    FlattenAt(rows, lengths, r, t);
    SumOfEqual(lengths, mdt, r);
  }

  lemma BonusAt<T>(s: Step<T>, r: nat)
    requires SpecStep(s) && r < |s.drafts|
    ensures |StepMetadata(s).bonusLogitsIndices| == |s.drafts|
    ensures StepMetadata(s).bonusLogitsIndices[r] == KeptBase(s.drafts, r) + s.drafts[r] == KeptBase(s.drafts, r + 1) - 1
  {
    CumsumAt(Plus(s.drafts, Ones(|s.drafts|)), r);
  }

  lemma LastKeptAt<T>(s: Step<T>, r: nat)
    requires SpecStep(s) && r < |s.drafts|
    ensures 0 <= KeptBase(s.drafts, r) + s.drafts[r] < |Rows(s)|
    ensures Rows(s)[KeptBase(s.drafts, r) + s.drafts[r]]
         == if r < |s.decode| then s.decode[r][s.drafts[r]] else s.prefill[r - |s.decode|]
  {
    LastRowAt(s.decode, s.prefill, s.drafts, s.mdt, s.activeK, r);
  }

  lemma LastRowAt<T>(decode: seq<seq<T>>, prefill: seq<T>, drafts: seq<int>, mdt: nat, activeK: nat, r: nat)
    requires StepOk(drafts, |decode|, mdt, activeK) && forall r :: 0 <= r < |decode| ==> |decode[r]| == activeK + 1
    requires r < |drafts| == |decode| + |prefill|
    ensures 0 <= KeptBase(drafts, r) + drafts[r] < |ComputeRows(decode, prefill, drafts, mdt, activeK)|
    ensures ComputeRows(decode, prefill, drafts, mdt, activeK)[KeptBase(drafts, r) + drafts[r]]
         == if r < |decode| then decode[r][drafts[r]] else prefill[r - |decode|]
  {
    if r < |decode| {
      DecodeRowAt(decode, prefill, drafts, mdt, activeK, r, drafts[r]);
    } else {
      PrefillRowAt(decode, prefill, drafts, mdt, activeK, r);
    }
  }

  /** The bonus index of request r is its last kept row: for a prefill request, its only row. */
  lemma BonusRowsLineUp<T>(s: Step<T>, r: nat)
    requires SpecStep(s) && r < |s.drafts|
    ensures |StepMetadata(s).bonusLogitsIndices| == |s.drafts| && 0 <= StepMetadata(s).bonusLogitsIndices[r] < |Rows(s)|
    ensures Rows(s)[StepMetadata(s).bonusLogitsIndices[r]]
         == if r < |s.decode| then s.decode[r][s.drafts[r]] else s.prefill[r - |s.decode|]
  {
    BonusAt(s, r);
    LastKeptAt(s, r);
  }

  /** Bonus indices end the requests' rows one after the other: the last one ends the whole array. */
  lemma BonusRowsEnd<T>(s: Step<T>, r: nat)
    requires SpecStep(s) && r < |s.drafts|
    ensures |StepMetadata(s).bonusLogitsIndices| == |s.drafts|
    ensures StepMetadata(s).bonusLogitsIndices[r] + 1 == if r + 1 < |s.drafts| then KeptBase(s.drafts, r + 1) else |Rows(s)|
  {
    BonusAt(s, r);
    RowsTotal(s.decode, s.prefill, s.drafts, s.mdt, s.activeK);
    assert Plus(s.drafts, Ones(|s.drafts|))[..|s.drafts|] == Plus(s.drafts, Ones(|s.drafts|));
  }

  lemma RowsTotal<T>(decode: seq<seq<T>>, prefill: seq<T>, drafts: seq<int>, mdt: nat, activeK: nat)
    requires StepOk(drafts, |decode|, mdt, activeK) && forall r :: 0 <= r < |decode| ==> |decode[r]| == activeK + 1
    requires |drafts| == |decode| + |prefill|
    ensures |ComputeRows(decode, prefill, drafts, mdt, activeK)| == Sum(Plus(drafts, Ones(|drafts|)))
  {
    var n := |decode|;
    var signal := Plus(drafts[..n], Ones(n));
    var sampled := Plus(drafts, Ones(|drafts|));
    KeptDecode(decode, prefill, drafts, mdt, activeK);
    FlattenLength(KeptRows(decode, signal), signal);
    assert signal == sampled[..n] && sampled[..|drafts|] == sampled;
    OnesAfter(sampled, n, |drafts|);
  }

  // ----- the metadata read by itself -----

  /** Where request r's entries begin in an array whose running counts are given. */
  function SliceStart(cumulative: seq<int>, r: nat): int
    requires r <= |cumulative|
  {
    if r == 0 then 0 else cumulative[r - 1]
  }

  /** The cumulative counts of the metadata: drafts, and drafts plus one. */
  lemma CumulativeCounts<T>(s: Step<T>, r: nat)
    requires SpecStep(s) && r < |s.drafts|
    ensures |StepMetadata(s).cuNumDraftTokens| == |StepMetadata(s).cuNumSampledTokens| == |StepMetadata(s).bonusLogitsIndices| == |s.drafts|
    ensures SliceStart(StepMetadata(s).cuNumDraftTokens, r) == DraftBase(s.drafts, r)
    ensures SliceStart(StepMetadata(s).cuNumSampledTokens, r) == KeptBase(s.drafts, r)
    ensures StepMetadata(s).cuNumDraftTokens[r] == DraftBase(s.drafts, r + 1) == DraftBase(s.drafts, r) + s.drafts[r]
    ensures StepMetadata(s).cuNumSampledTokens[r] == KeptBase(s.drafts, r + 1) == KeptBase(s.drafts, r) + s.drafts[r] + 1
  {
    CountsRun(s.drafts, r);
    CountsRun(Plus(s.drafts, Ones(|s.drafts|)), r);
  }

  lemma CountsRun(counts: seq<int>, r: nat)
    requires r < |counts|
    ensures SliceStart(Cumsum(counts), r) == Sum(counts[..r]) && Cumsum(counts)[r] == Sum(counts[..r + 1]) == Sum(counts[..r]) + counts[r]
  {
    CumsumAt(counts, r);
    if r > 0 {
      CumsumAt(counts, r - 1);
    }
  }

  /**
   A request's slice of the draft arrays runs from the count before it to its own count.  It holds the tokens after
   its newest computed one, each with the index of the row that judges it; the bonus index is its last kept row.
   */
  lemma DraftSlice<T>(s: Step<T>, r: nat)
    requires SpecStep(s) && r < |s.drafts|
    ensures var m := StepMetadata(s);
            && |m.cuNumDraftTokens| == |m.cuNumSampledTokens| == |m.bonusLogitsIndices| == |s.drafts|
            && m.cuNumDraftTokens[r] == SliceStart(m.cuNumDraftTokens, r) + s.drafts[r]
            && m.cuNumSampledTokens[r] == SliceStart(m.cuNumSampledTokens, r) + s.drafts[r] + 1
            && m.bonusLogitsIndices[r] == m.cuNumSampledTokens[r] - 1
    ensures forall j: nat :: j < s.drafts[r] ==> DraftAt(s, r, j)
  {
    CumulativeCounts(s, r);
    BonusAt(s, r);
    forall j: nat | j < s.drafts[r]
      ensures DraftAt(s, r, j)
    {
      DraftTokensLineUp(s, r, j);
      TargetPlace(s, r, j);
    }
  }

  /** Draft j of request r: its token, and the index of the row that judges it. */
  ghost predicate DraftAt<T>(s: Step<T>, r: nat, j: nat)
    requires SpecStep(s) && r < |s.drafts| && |StepMetadata(s).cuNumDraftTokens| == |StepMetadata(s).cuNumSampledTokens| == |s.drafts|
  {
    var m := StepMetadata(s);
    var at, token := SliceStart(m.cuNumDraftTokens, r) + j, s.computed[r] + r * s.width + (j + 1);
    && 0 <= at < |m.draftTokenIds| && at < |m.targetLogitsIndices| && 0 <= token < |s.table|
    && m.draftTokenIds[at] == s.table[token] && m.targetLogitsIndices[at] == SliceStart(m.cuNumSampledTokens, r) + j
  }

  /** A request's kept rows run from the count before it to its own count: its decode rows up to the last draft, or its prefill row. */
  lemma RowSlice<T>(s: Step<T>, r: nat, j: nat)
    requires SpecStep(s) && r < |s.drafts| && j <= s.drafts[r]
    ensures |StepMetadata(s).cuNumSampledTokens| == |s.drafts|
    ensures 0 <= SliceStart(StepMetadata(s).cuNumSampledTokens, r) + j < |Rows(s)|
    ensures r < |s.decode| ==> Rows(s)[SliceStart(StepMetadata(s).cuNumSampledTokens, r) + j] == s.decode[r][j]
    ensures r >= |s.decode| ==> j == 0 && Rows(s)[SliceStart(StepMetadata(s).cuNumSampledTokens, r)] == s.prefill[r - |s.decode|]
  {
    CumulativeCounts(s, r);
    KeptRowAt(s, r, j);
  }

  lemma KeptRowAt<T>(s: Step<T>, r: nat, j: nat)
    requires SpecStep(s) && r < |s.drafts| && j <= s.drafts[r]
    ensures 0 <= KeptBase(s.drafts, r) + j < |Rows(s)|
    ensures r < |s.decode| ==> Rows(s)[KeptBase(s.drafts, r) + j] == s.decode[r][j]
    ensures r >= |s.decode| ==> j == 0 && Rows(s)[KeptBase(s.drafts, r)] == s.prefill[r - |s.decode|]
  {
    RowPlace(s.decode, s.prefill, s.drafts, s.mdt, s.activeK, r, j);
  }

  lemma RowPlace<T>(decode: seq<seq<T>>, prefill: seq<T>, drafts: seq<int>, mdt: nat, activeK: nat, r: nat, j: nat)
    requires StepOk(drafts, |decode|, mdt, activeK) && forall r :: 0 <= r < |decode| ==> |decode[r]| == activeK + 1
    requires r < |drafts| == |decode| + |prefill| && j <= drafts[r]
    ensures 0 <= KeptBase(drafts, r) + j < |ComputeRows(decode, prefill, drafts, mdt, activeK)|
    ensures r < |decode| ==> ComputeRows(decode, prefill, drafts, mdt, activeK)[KeptBase(drafts, r) + j] == decode[r][j]
    ensures r >= |decode| ==> j == 0 && ComputeRows(decode, prefill, drafts, mdt, activeK)[KeptBase(drafts, r)] == prefill[r - |decode|]
  {
    if r < |decode| {
      DecodeRowAt(decode, prefill, drafts, mdt, activeK, r, j);
    } else {
      PrefillRowAt(decode, prefill, drafts, mdt, activeK, r);
    }
  }

  /** The last counts are the lengths of the arrays. */
  lemma SlicesCover<T>(s: Step<T>)
    requires SpecStep(s) && s.drafts != []
    ensures var m, n := StepMetadata(s), |s.drafts|;
            && |m.cuNumDraftTokens| == |m.cuNumSampledTokens| == n
            && |m.draftTokenIds| == |m.targetLogitsIndices| == m.cuNumDraftTokens[n - 1] && |Rows(s)| == m.cuNumSampledTokens[n - 1]
  {
    var n := |s.drafts|;
    CumulativeCounts(s, n - 1);
    DraftIndicesLength(s.drafts, s.scheduled, s.mdt);
    RowsTotal(s.decode, s.prefill, s.drafts, s.mdt, s.activeK);
    assert s.drafts[..n] == s.drafts && Plus(s.drafts, Ones(n))[..n] == Plus(s.drafts, Ones(n));
  }
}
