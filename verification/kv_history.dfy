/**
 The eager attention cache as values: per request, the keys (with their values) of its tokens so far.  What a
 step stores, what each query then sees, and why chunks and decode steps add up to one-shot attention.
 */
module KvHistory {
  import opened ArrayOps

  /** What one step brings for one request: its new queries and keys, and its length after the step. */
  datatype Chunk<Q, Kv> = Chunk(queries: seq<Q>, keys: seq<Kv>, seqLen: nat)

  /** A chunk that is the whole context starts over; any other is appended. */
  function Stored<Kv>(earlier: seq<Kv>, keys: seq<Kv>, seqLen: nat): seq<Kv> {
    (if |keys| == seqLen then [] else earlier) + keys
  }

  function Lookup<Kv>(view: map<nat, seq<Kv>>, r: nat): seq<Kv> { if r in view then view[r] else [] }

  /** The cache after a step: requests outside the batch are gone, those in it have stored their chunk. */
  function NextView<Q, Kv>(view: map<nat, seq<Kv>>, step: map<nat, Chunk<Q, Kv>>): map<nat, seq<Kv>> {
    map r | r in step :: Stored(Lookup(view, r), step[r].keys, step[r].seqLen)
  }

  /** Row k of the causal mask over `queries` rows and `keys` columns: the diagonal is moved right by keys - queries. */
  function CausalMask(queries: nat, keys: nat, k: nat): (m: seq<bool>)
    ensures |m| == keys
  {
    seq(keys, j => j <= k + (keys - queries))
  }

  /** Attention of one query; without a mask it sees every key. */
  function Sdpa<Q, Kv, O>(attend: (Q, seq<Kv>) -> O, q: Q, keys: seq<Kv>, mask: seq<bool>): O
    requires |mask| == |keys|
  {
    attend(q, Compress(keys, mask))
  }

  /** Query k of a step of n queries sees the cache up to its own position, counted from the end. */
  function Seen<Kv>(keys: seq<Kv>, n: nat, k: nat): seq<Kv> {
    var visible := |keys| - n + k + 1;
    if visible < 0 then [] else if visible > |keys| then keys else keys[..visible]
  }

  lemma MaskedIsSeen<Kv>(keys: seq<Kv>, n: nat, k: nat)
    requires k < n
    ensures Compress(keys, CausalMask(n, |keys|, k)) == Seen(keys, n, k)
  {
    var visible := |keys| - n + k + 1;
    CompressPrefix(keys, CausalMask(n, |keys|, k), if visible < 0 then 0 else visible);
  }

  // ----- a batch -----

  /** The arrays of one step: request i owns places starts[i] .. starts[i + 1]. */
  datatype Batch<Q, Kv> = Batch(reqIds: seq<nat>, queries: seq<Q>, keys: seq<Kv>, starts: seq<nat>, seqLens: seq<nat>)

  ghost predicate BatchShape<Q, Kv>(b: Batch<Q, Kv>) {
    && |b.starts| == |b.reqIds| + 1 && |b.seqLens| == |b.reqIds| && |b.queries| == |b.keys|
    && (forall i, j :: 0 <= i < j < |b.reqIds| ==> b.reqIds[i] != b.reqIds[j])
    && b.starts[0] == 0 && (forall i, j :: 0 <= i <= j < |b.starts| ==> b.starts[i] <= b.starts[j] <= |b.queries|)
  }

  function ChunkAt<Q, Kv>(b: Batch<Q, Kv>, i: nat): Chunk<Q, Kv>
    requires BatchShape(b) && i < |b.reqIds|
  {
    assert b.starts[i] <= b.starts[i + 1];
    Chunk(b.queries[b.starts[i]..b.starts[i + 1]], b.keys[b.starts[i]..b.starts[i + 1]], b.seqLens[i])
  }

  /** Place of a request in the batch. */
  function IndexOf(ids: seq<nat>, r: nat): (i: nat)
    requires r in ids
    ensures i < |ids| && ids[i] == r
  {
    if ids[0] == r then 0 else 1 + IndexOf(ids[1..], r)
  }

  function StepOf<Q, Kv>(b: Batch<Q, Kv>): map<nat, Chunk<Q, Kv>>
    requires BatchShape(b)
  {
    map r | r in b.reqIds :: ChunkAt(b, IndexOf(b.reqIds, r))
  }

  lemma StepOfAt<Q, Kv>(b: Batch<Q, Kv>, i: nat)
    requires BatchShape(b) && i < |b.reqIds|
    ensures b.reqIds[i] in b.reqIds && StepOf(b)[b.reqIds[i]] == ChunkAt(b, i)
  {
    assert IndexOf(b.reqIds, b.reqIds[i]) == i;
  }

  /** The cache after request i of a batch has been served, when the layer brings its own keys or not. */
  function StoreOne<Q, Kv>(view: map<nat, seq<Kv>>, b: Batch<Q, Kv>, own: bool, i: nat): map<nat, seq<Kv>>
    requires BatchShape(b) && i < |b.reqIds|
  {
    var c := ChunkAt(b, i);
    if own then view[b.reqIds[i] := Stored(Lookup(view, b.reqIds[i]), c.keys, c.seqLen)] else view
  }

  function StoreUpTo<Q, Kv>(view: map<nat, seq<Kv>>, b: Batch<Q, Kv>, own: bool, n: nat): map<nat, seq<Kv>>
    requires BatchShape(b) && n <= |b.reqIds|
  {
    if n == 0 then view else StoreOne(StoreUpTo(view, b, own, n - 1), b, own, n - 1)
  }

  function Evicted<Kv>(view: map<nat, seq<Kv>>, reqIds: seq<nat>): map<nat, seq<Kv>> {
    map r | r in view && r in reqIds :: view[r]
  }

  /** While the first n requests are served, a later one's entry stays, and an earlier one has stored its chunk. */
  lemma {:induction false} StoreUpToAt<Q, Kv>(view: map<nat, seq<Kv>>, b: Batch<Q, Kv>, n: nat, i: nat)
    requires BatchShape(b) && n <= |b.reqIds| && i < |b.reqIds|
    ensures i >= n ==> Lookup(StoreUpTo(view, b, true, n), b.reqIds[i]) == Lookup(view, b.reqIds[i])
    ensures i < n ==>
              && b.reqIds[i] in StoreUpTo(view, b, true, n)
              && StoreUpTo(view, b, true, n)[b.reqIds[i]] == Stored(Lookup(view, b.reqIds[i]), ChunkAt(b, i).keys, b.seqLens[i])
  {
    if n > 0 {
      StoreUpToAt(view, b, n - 1, i);
      assert i != n - 1 ==> b.reqIds[i] != b.reqIds[n - 1];
    }
  }

  lemma {:induction false} StoreUpToOthers<Q, Kv>(view: map<nat, seq<Kv>>, b: Batch<Q, Kv>, n: nat, r: nat)
    requires BatchShape(b) && n <= |b.reqIds| && r !in b.reqIds
    ensures r in StoreUpTo(view, b, true, n) <==> r in view
  {
    if n > 0 {
      StoreUpToOthers(view, b, n - 1, r);
      assert b.reqIds[n - 1] in b.reqIds;
    }
  }

  lemma {:induction false} NothingStored<Q, Kv>(view: map<nat, seq<Kv>>, b: Batch<Q, Kv>, n: nat)
    requires BatchShape(b) && n <= |b.reqIds|
    ensures StoreUpTo(view, b, false, n) == view
  {
    if n > 0 {
      NothingStored(view, b, n - 1);
    }
  }

  /** After a step only requests of the batch have an entry. */
  lemma {:induction false} NoneLeft<Q, Kv>(view: map<nat, seq<Kv>>, b: Batch<Q, Kv>, own: bool, n: nat)
    requires BatchShape(b) && n <= |b.reqIds|
    ensures forall r :: r in StoreUpTo(Evicted(view, b.reqIds), b, own, n) ==> r in b.reqIds
  {
    if n > 0 {
      NoneLeft(view, b, own, n - 1);
      assert b.reqIds[n - 1] in b.reqIds;
    }
  }

  /** There is room for request i's keys when its turn comes if there is room for them before the batch. */
  lemma TurnOf<Q, Kv>(view: map<nat, seq<Kv>>, b: Batch<Q, Kv>, own: bool, i: nat)
    requires BatchShape(b) && i < |b.reqIds|
    ensures Lookup(StoreUpTo(Evicted(view, b.reqIds), b, own, i), b.reqIds[i]) == Lookup(view, b.reqIds[i])
  {
    if own {
      StoreUpToAt(Evicted(view, b.reqIds), b, i, i);
    } else {
      NothingStored(Evicted(view, b.reqIds), b, i);
    }
    assert b.reqIds[i] in b.reqIds;
  }

  /** Once served, a request's entry is the one the step gives it. */
  lemma ServedAt<Q, Kv>(view: map<nat, seq<Kv>>, b: Batch<Q, Kv>, n: nat, i: nat)
    requires BatchShape(b) && i < n <= |b.reqIds|
    ensures b.reqIds[i] in StoreUpTo(Evicted(view, b.reqIds), b, true, n) && b.reqIds[i] in NextView(view, StepOf(b))
    ensures StoreUpTo(Evicted(view, b.reqIds), b, true, n)[b.reqIds[i]] == NextView(view, StepOf(b))[b.reqIds[i]]
  {
    StoreUpToAt(Evicted(view, b.reqIds), b, n, i);
    assert b.reqIds[i] in b.reqIds;
    StepOfAt(b, i);
  }

  lemma ServedOrNot<Q, Kv>(view: map<nat, seq<Kv>>, b: Batch<Q, Kv>, r: nat)
    requires BatchShape(b)
    ensures r in StoreUpTo(Evicted(view, b.reqIds), b, true, |b.reqIds|) <==> r in NextView(view, StepOf(b))
    ensures r in NextView(view, StepOf(b)) ==>
              StoreUpTo(Evicted(view, b.reqIds), b, true, |b.reqIds|)[r] == NextView(view, StepOf(b))[r]
  {
    if r in b.reqIds {
      ServedAt(view, b, |b.reqIds|, IndexOf(b.reqIds, r));
    } else {
      StoreUpToOthers(Evicted(view, b.reqIds), b, |b.reqIds|, r);
    }
  }

  /** Serving a batch request by request is the step on the whole cache. */
  lemma BatchIsStep<Q, Kv>(view: map<nat, seq<Kv>>, b: Batch<Q, Kv>)
    requires BatchShape(b)
    ensures StoreUpTo(Evicted(view, b.reqIds), b, true, |b.reqIds|) == NextView(view, StepOf(b))
  {
    SameKeys(view, b);
    SameValues(view, b);
    MapsEqual(StoreUpTo(Evicted(view, b.reqIds), b, true, |b.reqIds|), NextView(view, StepOf(b)));
  }

  lemma MapsEqual<Kv>(v: map<nat, seq<Kv>>, w: map<nat, seq<Kv>>)
    requires v.Keys == w.Keys && forall r :: r in w ==> r in v && v[r] == w[r]
    ensures v == w
  {
    assert forall r :: r in v <==> r in v.Keys;
    assert forall r :: r in w <==> r in w.Keys;
  }

  lemma SameValues<Q, Kv>(view: map<nat, seq<Kv>>, b: Batch<Q, Kv>)
    requires BatchShape(b)
    ensures forall r :: r in NextView(view, StepOf(b)) ==>
              && r in StoreUpTo(Evicted(view, b.reqIds), b, true, |b.reqIds|)
              && StoreUpTo(Evicted(view, b.reqIds), b, true, |b.reqIds|)[r] == NextView(view, StepOf(b))[r]
  {
    forall r | r in NextView(view, StepOf(b))
      ensures r in StoreUpTo(Evicted(view, b.reqIds), b, true, |b.reqIds|)
      ensures StoreUpTo(Evicted(view, b.reqIds), b, true, |b.reqIds|)[r] == NextView(view, StepOf(b))[r]
    {
      ServedOrNot(view, b, r);
    }
  }

  lemma SameKeys<Q, Kv>(view: map<nat, seq<Kv>>, b: Batch<Q, Kv>)
    requires BatchShape(b)
    ensures StoreUpTo(Evicted(view, b.reqIds), b, true, |b.reqIds|).Keys == NextView(view, StepOf(b)).Keys
  {
    forall r: nat
      ensures r in StoreUpTo(Evicted(view, b.reqIds), b, true, |b.reqIds|) <==> r in NextView(view, StepOf(b))
    {
      ServedOrNot(view, b, r);
    }
  }

  /** Output rows of request i: what it attends to, or whatever was there if it has no entry. */
  function RowsOf<Q, Kv, O>(attend: (Q, seq<Kv>) -> O, view: map<nat, seq<Kv>>, b: Batch<Q, Kv>, i: nat, was: seq<O>): (rows: seq<O>)
    requires BatchShape(b) && i < |b.reqIds| && |was| >= |b.queries|
    ensures |rows| == b.starts[i + 1] - b.starts[i]
  {
    var q := ChunkAt(b, i).queries;
    if b.reqIds[i] in view then seq(|q|, k requires 0 <= k < |q| => attend(q[k], Seen(view[b.reqIds[i]], |q|, k)))
    else was[b.starts[i]..b.starts[i + 1]]
  }

  /** The rows of the first n requests, each computed from the cache as it is once it has been served. */
  function RowsUpTo<Q, Kv, O>(attend: (Q, seq<Kv>) -> O, view: map<nat, seq<Kv>>, b: Batch<Q, Kv>, own: bool, n: nat, was: seq<O>): (rows: seq<O>)
    requires BatchShape(b) && n <= |b.reqIds| && |was| >= |b.queries|
    ensures |rows| == b.starts[n]
  {
    if n == 0 then []
    else RowsUpTo(attend, view, b, own, n - 1, was) + RowsOf(attend, StoreUpTo(view, b, own, n), b, n - 1, was)
  }

  /** The rows of a batch are, request by request, the outputs of the step. */
  lemma {:induction false} RowsAreOutputs<Q, Kv, O>(attend: (Q, seq<Kv>) -> O, view: map<nat, seq<Kv>>, b: Batch<Q, Kv>, n: nat, was: seq<O>, i: nat)
    requires BatchShape(b) && i < n <= |b.reqIds| && |was| >= |b.queries|
    ensures b.starts[i] <= b.starts[i + 1] <= b.starts[n]
    ensures RowsUpTo(attend, Evicted(view, b.reqIds), b, true, n, was)[b.starts[i]..b.starts[i + 1]]
         == RowsOf(attend, NextView(view, StepOf(b)), b, i, was)
    decreases n
  {
    var start := Evicted(view, b.reqIds);
    RowsPrefix(attend, start, b, n, was);
    if i < n - 1 {
      RowsAreOutputs(attend, view, b, n - 1, was, i);
      SliceOfPrefix(RowsUpTo(attend, start, b, true, n, was), b.starts[n - 1], b.starts[i], b.starts[i + 1]);
    } else {
      ServedAt(view, b, n, i);
      RowsSame(attend, StoreUpTo(start, b, true, n), NextView(view, StepOf(b)), b, i, was);
    }
  }

  lemma RowsSame<Q, Kv, O>(attend: (Q, seq<Kv>) -> O, v: map<nat, seq<Kv>>, w: map<nat, seq<Kv>>, b: Batch<Q, Kv>, i: nat, was: seq<O>)
    requires BatchShape(b) && i < |b.reqIds| && |was| >= |b.queries|
    requires b.reqIds[i] in v && b.reqIds[i] in w && v[b.reqIds[i]] == w[b.reqIds[i]]
    ensures RowsOf(attend, v, b, i, was) == RowsOf(attend, w, b, i, was)
  {
  }

  /** A layer without entries leaves the output alone. */
  lemma {:induction false} NoEntriesNoRows<Q, Kv, O>(attend: (Q, seq<Kv>) -> O, b: Batch<Q, Kv>, n: nat, was: seq<O>)
    requires BatchShape(b) && n <= |b.reqIds| && |was| >= |b.queries|
    ensures RowsUpTo(attend, map[], b, false, n, was) == was[..b.starts[n]]
  {
    if n > 0 {
      NoEntriesNoRows(attend, b, n - 1, was);
      NothingStored(map[], b, n);
      assert was[..b.starts[n]] == was[..b.starts[n - 1]] + was[b.starts[n - 1]..b.starts[n]];
    }
  }

  lemma RowsPrefix<Q, Kv, O>(attend: (Q, seq<Kv>) -> O, view: map<nat, seq<Kv>>, b: Batch<Q, Kv>, n: nat, was: seq<O>)
    requires BatchShape(b) && 0 < n <= |b.reqIds| && |was| >= |b.queries|
    ensures b.starts[n - 1] <= b.starts[n]
    ensures RowsUpTo(attend, view, b, true, n, was)[..b.starts[n - 1]] == RowsUpTo(attend, view, b, true, n - 1, was)
    ensures RowsUpTo(attend, view, b, true, n, was)[b.starts[n - 1]..b.starts[n]] == RowsOf(attend, StoreUpTo(view, b, true, n), b, n - 1, was)
  {
  }

  lemma SliceOfPrefix<T>(s: seq<T>, n: nat, i: nat, j: nat)
    requires i <= j <= n <= |s|
    ensures s[i..j] == s[..n][i..j]
  {
  }

  // ----- one request, one step -----

  /**
   A step leaves exactly the request's keys in the cache if and only if it brings all of them, or the cache
   held all the earlier ones: a request whose entry was evicted must come back with its whole context.
   */
  lemma StoredIsHistoryIff<Kv>(earlier: seq<Kv>, keys: seq<Kv>, history: seq<Kv>)
    requires |keys| <= |history| && history[|history| - |keys|..] == keys
    ensures Stored(earlier, keys, |history|) == history <==> |keys| == |history| || earlier == history[..|history| - |keys|]
  {
    var n := |history| - |keys|;
    assert history == history[..n] + keys;
    if |keys| != |history| && earlier + keys == history {
      assert |earlier| == n;
      assert (earlier + keys)[..n] == earlier;
    }
  }

  // ----- every run -----

  /** The cache after the first n steps. */
  function ViewAfter<Q, Kv>(steps: seq<map<nat, Chunk<Q, Kv>>>, n: nat): map<nat, seq<Kv>>
    requires n <= |steps|
  {
    if n == 0 then map[] else NextView(ViewAfter(steps, n - 1), steps[n - 1])
  }

  /** Request r's chunk of step i, or an empty one. */
  function ChunkOf<Q, Kv>(steps: seq<map<nat, Chunk<Q, Kv>>>, r: nat, i: nat): Chunk<Q, Kv>
    requires i < |steps|
  {
    if r in steps[i] then steps[i][r] else Chunk([], [], 0)
  }

  /** Keys of request r brought by steps m .. n. */
  function Keys<Q, Kv>(steps: seq<map<nat, Chunk<Q, Kv>>>, r: nat, m: nat, n: nat): seq<Kv>
    requires m <= n <= |steps|
  {
    if m == n then [] else Keys(steps, r, m, n - 1) + ChunkOf(steps, r, n - 1).keys
  }

  function Queries<Q, Kv>(steps: seq<map<nat, Chunk<Q, Kv>>>, r: nat, m: nat, n: nat): seq<Q>
    requires m <= n <= |steps|
  {
    if m == n then [] else Queries(steps, r, m, n - 1) + ChunkOf(steps, r, n - 1).queries
  }

  /** Step i continues request r, which joined in step m: its length is that of all its keys so far. */
  ghost predicate Continues<Q, Kv>(steps: seq<map<nat, Chunk<Q, Kv>>>, r: nat, m: nat, i: nat)
    requires m <= i < |steps|
  {
    && r in steps[i] && |steps[i][r].queries| == |steps[i][r].keys|
    && steps[i][r].seqLen == |Keys(steps, r, m, i + 1)|
  }

  /** Request r stays in the batch from step m to step n, whatever other requests do. */
  ghost predicate Stays<Q, Kv>(steps: seq<map<nat, Chunk<Q, Kv>>>, r: nat, m: nat, n: nat) {
    m <= n <= |steps| && forall i :: m <= i < n ==> Continues(steps, r, m, i)
  }

  /** While it stays, the cache holds exactly its keys so far. */
  lemma {:induction false} CacheIsHistory<Q, Kv>(steps: seq<map<nat, Chunk<Q, Kv>>>, r: nat, m: nat, n: nat)
    requires m < n && Stays(steps, r, m, n)
    ensures r in ViewAfter(steps, n) && ViewAfter(steps, n)[r] == Keys(steps, r, m, n)
    decreases n
  {
    assert Continues(steps, r, m, n - 1);
    var keys := steps[n - 1][r].keys;
    if m < n - 1 {
      CacheIsHistory(steps, r, m, n - 1);
      if |keys| == steps[n - 1][r].seqLen {
        assert Keys(steps, r, m, n - 1) == [];
      }
    } else {
      assert Keys(steps, r, m, m) == [];
    }
  }

  /** Outputs of request r's queries in step i, as the step computes them from the cache it leaves. */
  function StepOutputs<Q, Kv, O>(attend: (Q, seq<Kv>) -> O, steps: seq<map<nat, Chunk<Q, Kv>>>, r: nat, i: nat): (o: seq<O>)
    requires i < |steps|
    ensures |o| == |ChunkOf(steps, r, i).queries|
  {
    var c := ChunkOf(steps, r, i);
    seq(|c.queries|, k requires 0 <= k < |c.queries| => attend(c.queries[k], Seen(Lookup(ViewAfter(steps, i + 1), r), |c.queries|, k)))
  }

  function Outputs<Q, Kv, O>(attend: (Q, seq<Kv>) -> O, steps: seq<map<nat, Chunk<Q, Kv>>>, r: nat, m: nat, n: nat): seq<O>
    requires m <= n <= |steps|
  {
    if m == n then [] else Outputs(attend, steps, r, m, n - 1) + StepOutputs(attend, steps, r, n - 1)
  }

  /** Causal attention over a whole sequence at once: query p sees keys 0 .. p. */
  function OneShot<Q, Kv, O>(attend: (Q, seq<Kv>) -> O, queries: seq<Q>, keys: seq<Kv>): (o: seq<O>)
    requires |queries| == |keys|
    ensures |o| == |queries|
  {
    seq(|queries|, p requires 0 <= p < |queries| => attend(queries[p], keys[..p + 1]))
  }

  lemma OneShotGrows<Q, Kv, O>(attend: (Q, seq<Kv>) -> O, q: seq<Q>, k: seq<Kv>, q': seq<Q>, k': seq<Kv>, o: seq<O>)
    requires |q| == |k| && |q'| == |k'| == |o|
    requires forall i :: 0 <= i < |q'| ==> o[i] == attend(q'[i], Seen(k + k', |q'|, i))
    ensures OneShot(attend, q + q', k + k') == OneShot(attend, q, k) + o
  {
    forall p | 0 <= p < |q + q'|
      ensures OneShot(attend, q + q', k + k')[p] == (OneShot(attend, q, k) + o)[p]
    {
      if p < |q| {
        assert (k + k')[..p + 1] == k[..p + 1];
      } else {
        assert Seen(k + k', |q'|, p - |q|) == (k + k')[..p + 1];
      }
    }
  }

  lemma {:induction false} SameLengths<Q, Kv>(steps: seq<map<nat, Chunk<Q, Kv>>>, r: nat, m: nat, n: nat)
    requires Stays(steps, r, m, n)
    ensures |Queries(steps, r, m, n)| == |Keys(steps, r, m, n)|
    decreases n
  {
    if m < n {
      SameLengths(steps, r, m, n - 1);
      assert Continues(steps, r, m, n - 1);
    }
  }

  /** However a request's tokens are split over steps, its outputs are those of one-shot causal attention. */
  lemma {:induction false} SplitsDoNotMatter<Q, Kv, O>(attend: (Q, seq<Kv>) -> O, steps: seq<map<nat, Chunk<Q, Kv>>>, r: nat, m: nat, n: nat)
    requires Stays(steps, r, m, n)
    ensures |Queries(steps, r, m, n)| == |Keys(steps, r, m, n)|
    ensures Outputs(attend, steps, r, m, n) == OneShot(attend, Queries(steps, r, m, n), Keys(steps, r, m, n))
    ensures forall p :: 0 <= p < |Queries(steps, r, m, n)| ==>
      Outputs(attend, steps, r, m, n)[p] == attend(Queries(steps, r, m, n)[p], Keys(steps, r, m, n)[..p + 1])
    decreases n
  {
    SameLengths(steps, r, m, n);
    if m < n {
      SameLengths(steps, r, m, n - 1);
      SplitsDoNotMatter(attend, steps, r, m, n - 1);
      CacheIsHistory(steps, r, m, n);
      assert Continues(steps, r, m, n - 1);
      OneShotGrows(attend, Queries(steps, r, m, n - 1), Keys(steps, r, m, n - 1), steps[n - 1][r].queries, steps[n - 1][r].keys,
                   StepOutputs(attend, steps, r, n - 1));
    }
  }

  lemma {:induction false} KeysBefore<Q, Kv>(steps: seq<map<nat, Chunk<Q, Kv>>>, r: nat, m: nat, i: nat, n: nat)
    requires m <= i <= n <= |steps|
    ensures |Keys(steps, r, m, i)| <= |Keys(steps, r, m, n)| && Keys(steps, r, m, n)[..|Keys(steps, r, m, i)|] == Keys(steps, r, m, i)
    decreases n
  {
    if i < n {
      KeysBefore(steps, r, m, i, n - 1);
      var a, b := |Keys(steps, r, m, i)|, |Keys(steps, r, m, n - 1)|;
      assert Keys(steps, r, m, n)[..a] == Keys(steps, r, m, n)[..b][..a];
    }
  }

  /** The keys a step brings for a request follow those it brought before. */
  lemma KeysOfStep<Q, Kv>(steps: seq<map<nat, Chunk<Q, Kv>>>, r: nat, m: nat, i: nat, n: nat)
    requires m <= i < n <= |steps| && r in steps[i]
    ensures var from := |Keys(steps, r, m, i)|;
            from + |steps[i][r].keys| <= |Keys(steps, r, m, n)| && Keys(steps, r, m, n)[from..from + |steps[i][r].keys|] == steps[i][r].keys
  {
    KeysBefore(steps, r, m, i + 1, n);
    var from, to := |Keys(steps, r, m, i)|, |Keys(steps, r, m, i + 1)|;
    assert Keys(steps, r, m, n)[from..to] == Keys(steps, r, m, n)[..to][from..to];
  }

  /**
   What a call writes for query k of a staying request: causal attention to all the keys of its earlier steps and
   its first k + 1 keys of this one, wherever its rows are in the batch.
   */
  lemma BatchRowsAreCausal<Q, Kv, O>(attend: (Q, seq<Kv>) -> O, steps: seq<map<nat, Chunk<Q, Kv>>>, m: nat, n: nat, b: Batch<Q, Kv>,
                                     i: nat, k: nat, was: seq<O>)
    requires n < |steps| && BatchShape(b) && steps[n] == StepOf(b) && i < |b.reqIds| && |was| >= |b.queries|
    requires Stays(steps, b.reqIds[i], m, n + 1) && m <= n && b.starts[i] + k < b.starts[i + 1]
    ensures var rows := RowsUpTo(attend, Evicted(ViewAfter(steps, n), b.reqIds), b, true, |b.reqIds|, was);
            var earlier := Keys(steps, b.reqIds[i], m, n);
            b.starts[i + 1] <= |rows| && b.starts[i + 1] <= |b.queries|
            && rows[b.starts[i] + k] == attend(b.queries[b.starts[i] + k], earlier + b.keys[b.starts[i]..b.starts[i] + k + 1])
  {
    var r, view := b.reqIds[i], ViewAfter(steps, n);
    var rows := RowsUpTo(attend, Evicted(view, b.reqIds), b, true, |b.reqIds|, was);
    RowsAreOutputs(attend, view, b, |b.reqIds|, was, i);
    CacheIsHistory(steps, r, m, n + 1);
    StepOfAt(b, i);
    OwnRow(attend, ViewAfter(steps, n + 1), b, i, was, Keys(steps, r, m, n), k);
    assert rows[b.starts[i] + k] == rows[b.starts[i]..b.starts[i + 1]][k];
  }

  lemma OwnRow<Q, Kv, O>(attend: (Q, seq<Kv>) -> O, view: map<nat, seq<Kv>>, b: Batch<Q, Kv>, i: nat, was: seq<O>, earlier: seq<Kv>, k: nat)
    requires BatchShape(b) && i < |b.reqIds| && |was| >= |b.queries| && b.starts[i] + k < b.starts[i + 1]
    requires b.reqIds[i] in view && view[b.reqIds[i]] == earlier + b.keys[b.starts[i]..b.starts[i + 1]]
    ensures RowsOf(attend, view, b, i, was)[k]
         == attend(b.queries[b.starts[i] + k], earlier + b.keys[b.starts[i]..b.starts[i] + k + 1])
  {
    var own := b.keys[b.starts[i]..b.starts[i + 1]];
    assert Seen(earlier + own, |own|, k) == earlier + b.keys[b.starts[i]..b.starts[i] + k + 1];
  }
}
