/**
 Mixture-of-experts without fused kernels: token-expert pairs are sorted by expert, cut into runs, and each
 run's weighted outputs are accumulated into the rows of its tokens.  Arithmetic is exact.
 */
module MoeBatching {
  import opened Arithmetic

  type Row = seq<real>

  datatype Entry = Entry(token: nat, expert: nat, weight: real)

  /** The flattened top-k arrays: token by token, choice by choice. */
  function FlatEntries(ids: seq<seq<nat>>, weights: seq<seq<real>>): seq<Entry>
    requires SameShape(ids, weights)
  {
    if ids == [] then []
    else
      var n := |ids| - 1;
      FlatEntries(ids[..n], weights[..n]) + TokenEntries(n, ids[n], weights[n])
  }

  ghost predicate SameShape(ids: seq<seq<nat>>, weights: seq<seq<real>>) {
    |ids| == |weights| && forall t :: 0 <= t < |ids| ==> |ids[t]| == |weights[t]|
  }

  function TokenEntries(t: nat, ids: seq<nat>, weights: seq<real>): (e: seq<Entry>)
    requires |ids| == |weights|
    ensures |e| == |ids| && forall k :: 0 <= k < |e| ==> e[k] == Entry(t, ids[k], weights[k])
  {
    seq(|ids|, k requires 0 <= k < |ids| => Entry(t, ids[k], weights[k]))
  }

  /** An expert is applied to each row by itself and keeps the row width. */
  ghost predicate ExpertOk(expert: (nat, Row) -> Row, width: nat) {
    forall e: nat, row: Row :: |row| == width ==> |expert(e, row)| == width
  }

  ghost predicate InputOk(x: seq<Row>, entries: seq<Entry>, width: nat) {
    && (forall t :: 0 <= t < |x| ==> |x[t]| == width)
    && forall p :: 0 <= p < |entries| ==> entries[p].token < |x|
  }

  /** Component h of what entry e adds to its token. */
  function Contribution(expert: (nat, Row) -> Row, x: seq<Row>, e: Entry, h: nat): real {
    if e.token < |x| && h < |expert(e.expert, x[e.token])| then e.weight * expert(e.expert, x[e.token])[h] else 0.0
  }

  /** Component h of everything the entries add to token t. */
  function SumFor(expert: (nat, Row) -> Row, x: seq<Row>, entries: seq<Entry>, t: nat, h: nat): real {
    if entries == [] then 0.0
    else
      var n := |entries| - 1;
      SumFor(expert, x, entries[..n], t, h) + if entries[n].token == t then Contribution(expert, x, entries[n], h) else 0.0
  }

  /** The layer's definition: component h of the weighted sum of token t's first k chosen experts. */
  ghost function TokenSum(expert: (nat, Row) -> Row, row: Row, ids: seq<nat>, weights: seq<real>, k: nat, h: nat): real
    requires k <= |ids| == |weights| && forall e: nat :: h < |expert(e, row)|
  {
    if k == 0 then 0.0 else TokenSum(expert, row, ids, weights, k - 1, h) + weights[k - 1] * expert(ids[k - 1], row)[h]
  }

  // ----- the order of entries does not matter -----

  lemma {:induction false} TakeOut(expert: (nat, Row) -> Row, x: seq<Row>, entries: seq<Entry>, j: nat, t: nat, h: nat)
    requires j < |entries|
    ensures SumFor(expert, x, entries, t, h)
         == SumFor(expert, x, entries[..j] + entries[j+1..], t, h) + if entries[j].token == t then Contribution(expert, x, entries[j], h) else 0.0
    decreases |entries|
  {
    var n := |entries| - 1;
    if j < n {
      TakeOut(expert, x, entries[..n], j, t, h);
      var rest := entries[..j] + entries[j+1..];
      assert entries[..n][..j] + entries[..n][j+1..] == rest[..n-1];
      assert rest[n-1] == entries[n];
    } else {
      assert entries[..j] + entries[j+1..] == entries[..n];
    }
  }

  lemma {:induction false} SumPermuted(expert: (nat, Row) -> Row, x: seq<Row>, a: seq<Entry>, b: seq<Entry>, t: nat, h: nat)
    requires multiset(a) == multiset(b)
    ensures SumFor(expert, x, a, t, h) == SumFor(expert, x, b, t, h)
    decreases |a|
  {
    if a == [] {
      assert |multiset(b)| == |b|;
    } else {
      var n := |a| - 1;
      var j := PairedWith(a, b);
      SumPermuted(expert, x, a[..n], b[..j] + b[j+1..], t, h);
      TakeOut(expert, x, b, j, t, h);
    }
  }

  lemma {:induction false} SumJoin(expert: (nat, Row) -> Row, x: seq<Row>, a: seq<Entry>, b: seq<Entry>, t: nat, h: nat)
    ensures SumFor(expert, x, a + b, t, h) == SumFor(expert, x, a, t, h) + SumFor(expert, x, b, t, h)
    decreases |b|
  {
    if b == [] {
      assert a + b == a;
    } else {
      SumJoin(expert, x, a, b[..|b|-1], t, h);
      assert (a + b)[..|a + b|-1] == a + b[..|b|-1];
    }
  }

  lemma {:induction false} OneToken(expert: (nat, Row) -> Row, x: seq<Row>, u: nat, ids: seq<nat>, weights: seq<real>, t: nat, h: nat, k: nat)
    requires |ids| == |weights| && k <= |ids| && u < |x| && forall e: nat :: h < |expert(e, x[u])|
    ensures SumFor(expert, x, TokenEntries(u, ids, weights)[..k], t, h) == if u == t then TokenSum(expert, x[u], ids, weights, k, h) else 0.0
  {
    if k > 0 {
      OneToken(expert, x, u, ids, weights, t, h, k - 1);
      var e := TokenEntries(u, ids, weights);
      assert e[..k][..k-1] == e[..k-1];
    }
  }

  /** Over the unsorted pairs the sum is the layer's definition. */
  lemma {:induction false} FlatSum(expert: (nat, Row) -> Row, x: seq<Row>, ids: seq<seq<nat>>, weights: seq<seq<real>>, t: nat, h: nat)
    requires SameShape(ids, weights) && |ids| <= |x| && forall e: nat, u :: 0 <= u < |x| ==> h < |expert(e, x[u])|
    ensures SumFor(expert, x, FlatEntries(ids, weights), t, h)
         == if t < |ids| then TokenSum(expert, x[t], ids[t], weights[t], |ids[t]|, h) else 0.0
    decreases |ids|
  {
    if ids != [] {
      var n := |ids| - 1;
      FlatSum(expert, x, ids[..n], weights[..n], t, h);
      var last := TokenEntries(n, ids[n], weights[n]);
      SumJoin(expert, x, FlatEntries(ids[..n], weights[..n]), last, t, h);
      OneToken(expert, x, n, ids[n], weights[n], t, h, |ids[n]|);
      assert last[..|ids[n]|] == last;
    }
  }

  // ----- runs -----

  /** Places where a run begins, and the end. */
  function Changes(ids: seq<nat>): seq<bool> {
    [true] + seq(if |ids| > 0 then |ids| - 1 else 0, i requires 0 <= i < |ids| - 1 => ids[i + 1] != ids[i]) + [true]
  }

  /** ids is constant from lo to hi, and lo begins a run. */
  ghost predicate IsRun(ids: seq<nat>, lo: nat, hi: nat) {
    && lo < hi <= |ids|
    && (forall p :: lo <= p < hi ==> ids[p] == ids[lo])
    && (lo > 0 ==> ids[lo] != ids[lo - 1])
  }

  lemma Ascend(b: seq<nat>, i: nat, j: nat)
    requires Ascending(b) && i <= j < |b|
    ensures b[i] <= b[j] && (i < j ==> b[i] < b[j])
  {
  }

  lemma ChangesAt(ids: seq<nat>)
    requires ids != []
    ensures |Changes(ids)| == |ids| + 1 && Changes(ids)[0] && Changes(ids)[|ids|]
    ensures forall p :: 0 < p < |ids| ==> Changes(ids)[p] == (ids[p] != ids[p - 1])
  {
  }

  lemma RunsEnds(ids: seq<nat>, b: seq<nat>)
    requires ids != [] && b == Where(Changes(ids))
    ensures |b| >= 2 && b[0] == 0 && b[|b|-1] == |ids|
  {
    ChangesAt(ids);
    WhereAscends(Changes(ids));
    var first := WhereHas(Changes(ids), 0);
    var last := WhereHas(Changes(ids), |ids|);
    Ascend(b, 0, first);
    Ascend(b, last, |b| - 1);
    assert b[|b|-1] < |Changes(ids)|;
  }

  lemma RunBounds(ids: seq<nat>, b: seq<nat>, i: nat)
    requires ids != [] && b == Where(Changes(ids)) && i < |b| - 1
    ensures b[i] < b[i + 1] <= |ids| && (b[i] > 0 ==> ids[b[i]] != ids[b[i] - 1])
  {
    RunsEnds(ids, b);
    WhereAscends(Changes(ids));
    Ascend(b, i, i + 1);
    Ascend(b, i + 1, |b| - 1);
    ChangesAt(ids);
    assert Changes(ids)[b[i]];
  }

  ghost predicate RunAt(ids: seq<nat>, b: seq<nat>, i: nat)
    requires i + 1 < |b|
  {
    IsRun(ids, b[i], b[i + 1])
  }

  /** b cuts ids into non-empty runs of one expert each, in order and without gaps. */
  ghost predicate Cuts(ids: seq<nat>, b: seq<nat>) {
    && |b| >= 2 && b[0] == 0 && b[|b|-1] == |ids|
    && forall i :: 0 <= i < |b| - 1 ==> RunAt(ids, b, i)
  }

  lemma RunsCover(ids: seq<nat>)
    requires ids != []
    ensures Cuts(ids, Where(Changes(ids)))
  {
    var b := Where(Changes(ids));
    RunsEnds(ids, b);
    forall i | 0 <= i < |b| - 1
      ensures RunAt(ids, b, i)
    {
      RunBounds(ids, b, i);
      forall p | b[i] <= p < b[i + 1]
        ensures ids[p] == ids[b[i]]
      {
        SameRun(ids, b, i, p);
      }
    }
  }

  lemma NotListed(b: seq<nat>, i: nat, p: nat)
    requires Ascending(b) && i + 1 < |b| && b[i] < p < b[i + 1]
    ensures p !in b
  {
    forall k | 0 <= k < |b|
      ensures b[k] != p
    {
      if k <= i {
        Ascend(b, k, i);
      } else {
        Ascend(b, i + 1, k);
      }
    }
  }

  lemma {:induction false} SameRun(ids: seq<nat>, b: seq<nat>, i: nat, p: nat)
    requires b == Where(Changes(ids)) && i < |b| - 1 && b[i] <= p < b[i + 1] <= |ids|
    ensures ids[p] == ids[b[i]]
    decreases p
  {
    if p > b[i] {
      SameRun(ids, b, i, p - 1);
      ChangesAt(ids);
      WhereAscends(Changes(ids));
      NotListed(b, i, p);
      if Changes(ids)[p] {
        var _ := WhereHas(Changes(ids), p);
      }
    }
  }

  lemma {:induction false} CutsAscend(ids: seq<nat>, b: seq<nat>, i: nat, j: nat)
    requires Cuts(ids, b) && i <= j < |b|
    ensures b[i] <= b[j] && (i < j ==> b[i] < b[j])
    decreases j
  {
    if i < j {
      CutsAscend(ids, b, i, j - 1);
      assert RunAt(ids, b, j - 1);
    }
  }

  /** With sorted ids every expert has one run: the experts of the runs ascend. */
  lemma ExpertsOnce(ids: seq<nat>, b: seq<nat>, i: nat, j: nat)
    requires Cuts(ids, b) && forall p, q :: 0 <= p < q < |ids| ==> ids[p] <= ids[q]
    requires i < j < |b| - 1
    ensures b[i] < b[j] < |ids| && ids[b[i]] < ids[b[j]]
  {
    CutsAscend(ids, b, i, j);
    assert RunAt(ids, b, j);
    assert b[i] <= b[j] - 1 < b[j];
  }

  /** Positions where the expert changes, with both ends. */
  method Boundaries(ids: seq<nat>) returns (b: seq<nat>)
    requires ids != []
    ensures Cuts(ids, b)
  {
    RunsCover(ids);
    b := Where(Changes(ids));
  }

  // ----- the layer -----

  /** order is a way to read the entries so that experts do not descend; a stable argsort gives one. */
  ghost predicate SortsByExpert(entries: seq<Entry>, order: seq<nat>) {
    && |order| == |entries|
    && (forall p :: 0 <= p < |order| ==> order[p] < |entries|)
    && (forall p, q :: 0 <= p < q < |order| ==> order[p] != order[q])
    && (forall p, q :: 0 <= p < q < |order| && order[p] < |entries| && order[q] < |entries| ==> entries[order[p]].expert <= entries[order[q]].expert)
  }

  function Reordered(entries: seq<Entry>, order: seq<nat>): (r: seq<Entry>)
    requires forall p :: 0 <= p < |order| ==> order[p] < |entries|
    ensures |r| == |order| && forall p :: 0 <= p < |r| ==> r[p] == entries[order[p]]
  {
    seq(|order|, p requires 0 <= p < |order| => entries[order[p]])
  }

  /** Row t of out holds what the first n sorted entries add to it. */
  ghost predicate RowHolds(expert: (nat, Row) -> Row, x: seq<Row>, sorted: seq<Entry>, width: nat, n: nat, t: nat, row: Row)
    requires n <= |sorted|
  {
    |row| == width && forall h :: 0 <= h < width ==> row[h] == SumFor(expert, x, sorted[..n], t, h)
  }

  ghost predicate OutHolds(expert: (nat, Row) -> Row, x: seq<Row>, sorted: seq<Entry>, width: nat, n: nat, out: seq<Row>)
    requires n <= |sorted|
  {
    |out| == |x| && forall t :: 0 <= t < |out| ==> RowHolds(expert, x, sorted, width, n, t, out[t])
  }

  lemma AddOne(expert: (nat, Row) -> Row, x: seq<Row>, sorted: seq<Entry>, width: nat, n: nat, out: seq<Row>, row: Row)
    requires n < |sorted| && sorted[n].token < |x| && OutHolds(expert, x, sorted, width, n, out)
    requires |expert(sorted[n].expert, x[sorted[n].token])| == width == |row|
    requires forall h :: 0 <= h < width ==>
               row[h] == out[sorted[n].token][h] + sorted[n].weight * expert(sorted[n].expert, x[sorted[n].token])[h]
    ensures OutHolds(expert, x, sorted, width, n + 1, out[sorted[n].token := row])
  {
    assert sorted[..n+1][..n] == sorted[..n];
    var out' := out[sorted[n].token := row];
    forall t | 0 <= t < |out'|
      ensures RowHolds(expert, x, sorted, width, n + 1, t, out'[t])
    {
      assert RowHolds(expert, x, sorted, width, n, t, out[t]);
    }
  }

  /** `index_put_` with accumulate: adds each row of a run to the row of its token. */
  method AccumulateRun(expert: (nat, Row) -> Row, x: seq<Row>, sorted: seq<Entry>, width: nat, offset: nat,
                       count: nat, expertId: nat, out: array<Row>)
    requires ExpertOk(expert, width) && InputOk(x, sorted, width) && offset + count <= |sorted|
    requires forall p :: offset <= p < offset + count ==> sorted[p].expert == expertId
    requires OutHolds(expert, x, sorted, width, offset, out[..])
    modifies out
    ensures OutHolds(expert, x, sorted, width, offset + count, out[..])
  {
    var p := offset;
    while p < offset + count
      invariant offset <= p <= offset + count && OutHolds(expert, x, sorted, width, p, out[..])
    {
      var t, weight := sorted[p].token, sorted[p].weight;
      var expertOut := expert(expertId, x[t]);
      ghost var before := out[..];
      assert RowHolds(expert, x, sorted, width, p, t, before[t]);
      var was := out[t];
      var row := seq(width, h requires 0 <= h < width && |was| == |expertOut| == width => was[h] + weight * expertOut[h]);
      out[t] := row;
      assert out[..] == before[t := row];
      AddOne(expert, x, sorted, width, p, before, row);
      p := p + 1;
    }
  }

  /** The loop over runs: each expert's block of sorted entries in turn. */
  method AccumulateRuns(expert: (nat, Row) -> Row, x: seq<Row>, sorted: seq<Entry>, width: nat, out: array<Row>)
    requires ExpertOk(expert, width) && InputOk(x, sorted, width) && sorted != []
    requires OutHolds(expert, x, sorted, width, 0, out[..])
    modifies out
    ensures OutHolds(expert, x, sorted, width, |sorted|, out[..])
  {
    var sortedIds := seq(|sorted|, p requires 0 <= p < |sorted| => sorted[p].expert);
    var boundaries := Boundaries(sortedIds);
    var offset, i := 0, 0;
    while i < |boundaries| - 1
      invariant i <= |boundaries| - 1 && offset == boundaries[i] <= |sorted|
      invariant OutHolds(expert, x, sorted, width, offset, out[..])
    {
      assert RunAt(sortedIds, boundaries, i);
      var count := boundaries[i + 1] - boundaries[i];
      assert forall p :: offset <= p < offset + count ==> sorted[p].expert == sortedIds[p];
      AccumulateRun(expert, x, sorted, width, offset, count, sortedIds[boundaries[i]], out);
      offset := offset + count;
      i := i + 1;
    }
  }

  datatype Result = Ok(out: array<Row>) | IndexError

  /**
   `forward_oot`: row t of the result is the weighted sum of token t's chosen experts, repeated choices
   included.  Without any pair the first boundary lookup fails.
   */
  method Forward(expert: (nat, Row) -> Row, x: seq<Row>, ids: seq<seq<nat>>, weights: seq<seq<real>>, order: seq<nat>, width: nat) returns (r: Result)
    requires SameShape(ids, weights) && |ids| == |x| && ExpertOk(expert, width) && forall t :: 0 <= t < |x| ==> |x[t]| == width
    requires SortsByExpert(FlatEntries(ids, weights), order)
    ensures r.IndexError? <==> forall t :: 0 <= t < |ids| ==> ids[t] == []
    ensures r.Ok? ==> fresh(r.out) && LayerHolds(expert, x, ids, weights, width, r.out[..])
  {
    var sorted := SortedEntries(x, ids, weights, order, width);
    if |sorted| == 0 {
      return IndexError;
    }
    var out := new Row[|x|](_ => seq(width, _ => 0.0));
    ZeroHolds(expert, x, sorted, width, out[..]);
    AccumulateRuns(expert, x, sorted, width, out);
    SortedIsLayer(expert, x, ids, weights, sorted, width, out[..]);
    return Ok(out);
  }

  lemma ZeroHolds(expert: (nat, Row) -> Row, x: seq<Row>, sorted: seq<Entry>, width: nat, out: seq<Row>)
    requires |out| == |x| && forall t :: 0 <= t < |out| ==> out[t] == seq(width, _ => 0.0)
    ensures OutHolds(expert, x, sorted, width, 0, out)
  {
    forall t | 0 <= t < |out|
      ensures RowHolds(expert, x, sorted, width, 0, t, out[t])
    {
    }
  }

  ghost predicate ByExpert(entries: seq<Entry>) {
    forall p, q :: 0 <= p < q < |entries| ==> entries[p].expert <= entries[q].expert
  }

  lemma SortedOk(x: seq<Row>, flat: seq<Entry>, order: seq<nat>, width: nat)
    requires SortsByExpert(flat, order) && InputOk(x, flat, width)
    ensures InputOk(x, Reordered(flat, order), width) && multiset(Reordered(flat, order)) == multiset(flat)
  {
    PermutedMultiset(flat, Reordered(flat, order), order);
  }

  lemma SortedOrder(flat: seq<Entry>, order: seq<nat>)
    requires SortsByExpert(flat, order)
    ensures ByExpert(Reordered(flat, order))
  {
  }

  lemma EntriesOk(x: seq<Row>, ids: seq<seq<nat>>, weights: seq<seq<real>>, width: nat)
    requires SameShape(ids, weights) && |ids| == |x| && forall t :: 0 <= t < |x| ==> |x[t]| == width
    ensures InputOk(x, FlatEntries(ids, weights), width)
    ensures FlatEntries(ids, weights) == [] <==> forall t :: 0 <= t < |ids| ==> ids[t] == []
  {
    FlatTokens(ids, weights);
  }

  /** The flattened pairs in expert order. */
  method SortedEntries(x: seq<Row>, ids: seq<seq<nat>>, weights: seq<seq<real>>, order: seq<nat>, width: nat) returns (sorted: seq<Entry>)
    requires SameShape(ids, weights) && |ids| == |x| && forall t :: 0 <= t < |x| ==> |x[t]| == width
    requires SortsByExpert(FlatEntries(ids, weights), order)
    ensures InputOk(x, sorted, width) && multiset(sorted) == multiset(FlatEntries(ids, weights)) && ByExpert(sorted)
    ensures |sorted| == 0 <==> forall t :: 0 <= t < |ids| ==> ids[t] == []
  {
    var flat := FlatEntries(ids, weights);
    EntriesOk(x, ids, weights, width);
    SortedOk(x, flat, order, width);
    SortedOrder(flat, order);
    sorted := Reordered(flat, order);
  }

  /** Every row is the layer's weighted sum, component by component. */
  ghost predicate LayerHolds(expert: (nat, Row) -> Row, x: seq<Row>, ids: seq<seq<nat>>, weights: seq<seq<real>>, width: nat, out: seq<Row>)
    requires SameShape(ids, weights) && |ids| == |x| && ExpertOk(expert, width) && forall t :: 0 <= t < |x| ==> |x[t]| == width
  {
    && |out| == |x|
    && forall t :: 0 <= t < |out| ==> LayerRow(expert, x[t], ids[t], weights[t], width, out[t])
  }

  ghost predicate LayerRow(expert: (nat, Row) -> Row, row: Row, ids: seq<nat>, weights: seq<real>, width: nat, out: Row)
    requires |ids| == |weights| && ExpertOk(expert, width) && |row| == width
  {
    |out| == width && forall h :: 0 <= h < width ==> IsTotal(expert, row, ids, weights, h, out[h])
  }

  /** total is the sum of component h of the weighted expert outputs. */
  ghost predicate IsTotal(expert: (nat, Row) -> Row, row: Row, ids: seq<nat>, weights: seq<real>, h: nat, total: real)
    requires |ids| == |weights| && forall e: nat :: h < |expert(e, row)|
  {
    exists sums :: AddsUp(expert, row, ids, weights, h, sums, total)
  }

  /** sums are the partial sums of component h of the weighted expert outputs, and total is the last of them. */
  ghost predicate AddsUp(expert: (nat, Row) -> Row, row: Row, ids: seq<nat>, weights: seq<real>, h: nat, sums: seq<real>, total: real)
    requires |ids| == |weights| && forall e: nat :: h < |expert(e, row)|
  {
    && |sums| == |ids| + 1 && sums[0] == 0.0 && total == sums[|ids|]
    && forall k :: 0 <= k < |ids| ==> sums[k + 1] == sums[k] + weights[k] * expert(ids[k], row)[h]
  }

  lemma TokenAddsUp(expert: (nat, Row) -> Row, row: Row, ids: seq<nat>, weights: seq<real>, h: nat)
    requires |ids| == |weights| && forall e: nat :: h < |expert(e, row)|
    ensures IsTotal(expert, row, ids, weights, h, TokenSum(expert, row, ids, weights, |ids|, h))
  {
    var sums := seq(|ids| + 1, k requires 0 <= k <= |ids| => TokenSum(expert, row, ids, weights, k, h));
    assert AddsUp(expert, row, ids, weights, h, sums, TokenSum(expert, row, ids, weights, |ids|, h));
  }

  lemma SortedIsLayer(expert: (nat, Row) -> Row, x: seq<Row>, ids: seq<seq<nat>>, weights: seq<seq<real>>,
                      sorted: seq<Entry>, width: nat, out: seq<Row>)
    requires SameShape(ids, weights) && |ids| == |x| && ExpertOk(expert, width) && forall t :: 0 <= t < |x| ==> |x[t]| == width
    requires multiset(sorted) == multiset(FlatEntries(ids, weights)) && OutHolds(expert, x, sorted, width, |sorted|, out)
    ensures LayerHolds(expert, x, ids, weights, width, out)
  {
    assert sorted[..|sorted|] == sorted;
    forall t | 0 <= t < |out|
      ensures LayerRow(expert, x[t], ids[t], weights[t], width, out[t])
    {
      assert RowHolds(expert, x, sorted, width, |sorted|, t, out[t]);
      forall h | 0 <= h < width
        ensures IsTotal(expert, x[t], ids[t], weights[t], h, out[t][h])
      {
        TokenAddsUp(expert, x[t], ids[t], weights[t], h);
        SumPermuted(expert, x, sorted, FlatEntries(ids, weights), t, h);
        FlatSum(expert, x, ids, weights, t, h);
      }
    }
  }

  lemma {:induction false} FlatTokens(ids: seq<seq<nat>>, weights: seq<seq<real>>)
    requires SameShape(ids, weights)
    ensures forall p :: 0 <= p < |FlatEntries(ids, weights)| ==> FlatEntries(ids, weights)[p].token < |ids|
    ensures FlatEntries(ids, weights) == [] <==> forall t :: 0 <= t < |ids| ==> ids[t] == []
    decreases |ids|
  {
    if ids != [] {
      var n := |ids| - 1;
      FlatTokens(ids[..n], weights[..n]);
      assert forall t :: 0 <= t < n ==> ids[..n][t] == ids[t];
    }
  }
}
