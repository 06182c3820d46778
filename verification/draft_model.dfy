/**
 The draft-model proposer.  A KV-cache entry records what it was computed from, so an entry written over
 a stale prefix can be told from a right one; the model itself is an uninterpreted function.
 */
module DraftModel {

  /** The contents of one KV position: the entries attended and the token fed; Blank is leftover memory. */
  datatype Entry = Blank(junk: int) | Entry(attended: seq<Entry>, token: int)

  /** Greedy next token from the attended entries and the token fed. */
  datatype Model = Model(predict: (seq<Entry>, int) -> int)

  /** The cache of a model that has read exactly the history h. */
  function Entries(h: seq<int>): (e: seq<Entry>)
    ensures |e| == |h|
  {
    if h == [] then [] else
      var p := Entries(h[..|h|-1]);
      p + [Entry(p, h[|h|-1])]
  }

  /** The uncached greedy token after history h. */
  function Greedy(m: Model, h: seq<int>): int
    requires |h| > 0
  {
    (m.predict)(Entries(h[..|h|-1]), h[|h|-1])
  }

  /** The uncached greedy continuation of k tokens. */
  function Continuation(m: Model, h: seq<int>, k: nat): (c: seq<int>)
    requires |h| > 0
    ensures |c| == k
    decreases k
  {
    if k == 0 then [] else
      var t := Greedy(m, h);
      [t] + Continuation(m, h + [t], k - 1)
  }

  /** e is the cache of a model that has read h: entry p has seen the entries before it and token p. */
  ghost predicate Reads(e: seq<Entry>, h: seq<int>) {
    |e| == |h| && forall p :: 0 <= p < |e| ==> e[p] == Entry.Entry(e[..p], h[p])
  }

  lemma {:induction false} EntriesRead(h: seq<int>)
    ensures Reads(Entries(h), h)
    decreases |h|
  {
    if h != [] {
      var n := |h| - 1;
      var e := Entries(h);
      EntriesRead(h[..n]);
      forall p | 0 <= p < |e|
        ensures e[p] == Entry.Entry(e[..p], h[p])
      {
        if p < n {
          assert e[p] == e[..n][p] && e[..p] == e[..n][..p] && h[p] == h[..n][p];
        }
      }
    }
  }

  /** Token j of a continuation is greedy after the history and the tokens before it. */
  lemma {:induction false} ContinuationAt(m: Model, h: seq<int>, k: nat, j: nat)
    requires |h| > 0 && j < k
    ensures Continuation(m, h, k)[j] == Greedy(m, h + Continuation(m, h, k)[..j])
    decreases k
  {
    var t := Greedy(m, h);
    var rest := Continuation(m, h + [t], k - 1);
    if j == 0 {
      assert h + Continuation(m, h, k)[..0] == h;
    } else {
      ContinuationAt(m, h + [t], k - 1, j - 1);
      assert h + [t] + rest[..j-1] == h + ([t] + rest)[..j];
    }
  }

  // ----- what one request's row does to its cache slot -----

  /** Decode one token at a position; positions outside the cache are skipped by the hardware. */
  function DecodeRow(m: Model, kv: seq<Entry>, token: int, pos: int): (r: (seq<Entry>, int))
    ensures |r.0| == |kv|
  {
    if 0 <= pos < |kv| then (kv[pos := Entry(kv[..pos], token)], (m.predict)(kv[..pos], token)) else (kv, 0)
  }

  /** Prefill tokens at positions from .. from + |tokens|. */
  function PrefillRow(m: Model, kv: seq<Entry>, tokens: seq<int>, from: nat): (r: seq<Entry>)
    ensures |r| == |kv|
    decreases |tokens|
  {
    if tokens == [] then kv else PrefillRow(m, DecodeRow(m, kv, tokens[0], from).0, tokens[1..], from + 1)
  }

  /** The autoregressive loop. */
  function DraftRow(m: Model, kv: seq<Entry>, token: int, pos: int, k: nat): (r: (seq<Entry>, seq<int>))
    ensures |r.0| == |kv| && |r.1| == k
    decreases k
  {
    if k == 0 then (kv, []) else
      var (kv1, next) := DecodeRow(m, kv, token, pos);
      var (kv2, rest) := DraftRow(m, kv1, next, pos + 1, k - 1);
      (kv2, [next] + rest)
  }

  /** One request of the batch: its tokens after bookkeeping, and the tokens just accepted. */
  datatype Row = Row(slot: nat, tokens: seq<int>, promptLen: nat, sampled: seq<int>)
  {
    predicate InDecode() { |tokens| > promptLen }

    predicate IsNew() { |tokens| == promptLen + 1 }

    function Current(): int { if sampled == [] then -1 else sampled[|sampled|-1] }

    function Pos(): int { |tokens| - 1 }
  }

  function AfterPrefill(m: Model, kv: seq<Entry>, r: Row): (kv': seq<Entry>)
    ensures |kv'| == |kv|
  {
    if r.IsNew() then PrefillRow(m, kv, r.tokens[..|r.tokens|-1], 0) else kv
  }

  function AfterCatchUp(m: Model, kv: seq<Entry>, r: Row, k: nat): (kv': seq<Entry>)
    requires k > 0
    ensures |kv'| == |kv|
  {
    if |r.sampled| == k + 1 then DecodeRow(m, kv, r.sampled[k - 1], r.Pos() - 1).0 else kv
  }

  /** Everything a propose step does to one row. */
  function ProposeRow(m: Model, kv: seq<Entry>, r: Row, k: nat): (p: (seq<Entry>, seq<int>))
    requires k > 0
    ensures |p.0| == |kv|
  {
    var (kv', drafts) := DraftRow(m, AfterCatchUp(m, AfterPrefill(m, kv, r), r, k), r.Current(), r.Pos(), k);
    (kv', if r.InDecode() then drafts else [])
  }

  // ----- correctness of one row -----

  /** The cache is right for the history h, and for the drafts after it that have been fed. */
  ghost predicate Cached(kv: seq<Entry>, h: seq<int>) {
    |h| <= |kv| && kv[..|h|] == Entries(h)
  }

  lemma EntriesPrefix(h: seq<int>, n: nat)
    requires n <= |h|
    ensures Entries(h)[..n] == Entries(h[..n])
    decreases |h|
  {
    if n < |h| {
      EntriesPrefix(h[..|h|-1], n);
      assert h[..|h|-1][..n] == h[..n];
    } else {
      assert h[..n] == h;
    }
  }

  lemma CachedPrefix(kv: seq<Entry>, h: seq<int>, n: nat)
    requires Cached(kv, h) && n <= |h|
    ensures Cached(kv, h[..n])
  {
    EntriesPrefix(h, n);
    assert kv[..n] == kv[..|h|][..n];
  }

  /** Feeding the next token of a history after a right cache extends it and predicts greedily. */
  lemma DecodeExtends(m: Model, kv: seq<Entry>, h: seq<int>, token: int)
    requires Cached(kv, h) && |h| < |kv|
    ensures var (kv', next) := DecodeRow(m, kv, token, |h|);
            Cached(kv', h + [token]) && next == Greedy(m, h + [token])
  {
    assert (h + [token])[..|h|] == h;
    var kv' := kv[|h| := Entry(kv[..|h|], token)];
    assert kv'[..|h| + 1] == kv[..|h|] + [Entry(kv[..|h|], token)];
  }

  lemma {:induction false} PrefillExtends(m: Model, kv: seq<Entry>, h: seq<int>, tokens: seq<int>)
    requires Cached(kv, h) && |h| + |tokens| <= |kv|
    ensures Cached(PrefillRow(m, kv, tokens, |h|), h + tokens)
    decreases |tokens|
  {
    if tokens == [] {
      assert h + tokens == h;
    } else {
      DecodeExtends(m, kv, h, tokens[0]);
      PrefillExtends(m, DecodeRow(m, kv, tokens[0], |h|).0, h + [tokens[0]], tokens[1..]);
      assert h + tokens == h + [tokens[0]] + tokens[1..];
    }
  }

  /** From a right cache the loop drafts the greedy continuation and leaves all but the last draft cached. */
  lemma {:induction false} DraftExtends(m: Model, kv: seq<Entry>, h: seq<int>, token: int, k: nat)
    requires Cached(kv, h) && |h| + k <= |kv| && k > 0
    ensures var (kv', drafts) := DraftRow(m, kv, token, |h|, k);
            drafts == Continuation(m, h + [token], k) && Cached(kv', h + [token] + drafts[..k-1])
    decreases k
  {
    DecodeExtends(m, kv, h, token);
    var (kv1, next) := DecodeRow(m, kv, token, |h|);
    var (kv', drafts) := DraftRow(m, kv, token, |h|, k);
    var h1 := h + [token];
    if k > 1 {
      DraftExtends(m, kv1, h1, next, k - 1);
      var (kv2, rest) := DraftRow(m, kv1, next, |h| + 1, k - 1);
      assert h1 + [next] + rest[..k-2] == h1 + drafts[..k-1];
    } else {
      assert h1 + drafts[..0] == h1;
      assert Continuation(m, h1 + [next], 0) == [];
    }
  }

  /** Once the cache is right up to the accepted token, the proposal is the greedy continuation. */
  lemma ReadyRow(m: Model, kv: seq<Entry>, r: Row, k: nat)
    requires k > 0 && |r.tokens| > r.promptLen && r.Current() == r.tokens[|r.tokens|-1]
    requires |r.tokens| + k <= |kv| + 1
    requires Cached(AfterCatchUp(m, AfterPrefill(m, kv, r), r, k), r.tokens[..|r.tokens|-1])
    ensures Proposed(m, kv, r, k)
  {
    var n := |r.tokens| - 1;
    assert r.tokens == r.tokens[..n] + [r.tokens[n]];
    DraftExtends(m, AfterCatchUp(m, AfterPrefill(m, kv, r), r, k), r.tokens[..n], r.tokens[n], k);
  }

  /** The row's drafts are the greedy continuation, and all but the last of them are cached. */
  ghost predicate Proposed(m: Model, kv: seq<Entry>, r: Row, k: nat)
    requires k > 0 && |r.tokens| > 0
  {
    var p := ProposeRow(m, kv, r, k);
    p.1 == Continuation(m, r.tokens, k) && Cached(p.0, r.tokens + p.1[..k-1])
  }

  /** A request's first draft step prefills everything but the accepted token. */
  lemma FirstProposal(m: Model, kv: seq<Entry>, r: Row, k: nat)
    requires k > 0 && |r.tokens| == r.promptLen + 1 && r.sampled == [r.tokens[|r.tokens|-1]]
    requires |r.tokens| + k <= |kv| + 1
    ensures Proposed(m, kv, r, k)
  {
    var n := |r.tokens| - 1;
    assert Cached(kv, []);
    PrefillExtends(m, kv, [], r.tokens[..n]);
    assert [] + r.tokens[..n] == r.tokens[..n];
    ReadyRow(m, kv, r, k);
  }

  /** The target accepts the first a drafts, then adds one token of its own. */
  ghost predicate AcceptsFirst(h: seq<int>, drafts: seq<int>, r: Row, a: nat) {
    a <= |drafts| && |r.sampled| == a + 1 && r.sampled[..a] == drafts[..a] && r.tokens == h + r.sampled
  }

  ghost predicate Accepts(h: seq<int>, drafts: seq<int>, r: Row) {
    exists a: nat :: AcceptsFirst(h, drafts, r, a)
  }

  /** After accepting all k drafts one entry is missing, and the catch-up decode computes it. */
  lemma CaughtUp(m: Model, kv: seq<Entry>, h: seq<int>, drafts: seq<int>, r: Row, k: nat, a: nat)
    requires k > 0 && |drafts| == k && Cached(kv, h + drafts[..k-1])
    requires AcceptsFirst(h, drafts, r, a) && |r.tokens| <= |kv|
    ensures Cached(AfterCatchUp(m, kv, r, k), r.tokens[..|r.tokens|-1])
  {
    var n := |r.tokens| - 1;
    assert r.tokens[..n] == h + r.sampled[..a];
    if a < k {
      assert (h + drafts[..k-1])[..n] == h + drafts[..a];
      CachedPrefix(kv, h + drafts[..k-1], n);
    } else {
      DecodeExtends(m, kv, h + drafts[..k-1], drafts[k-1]);
      assert r.sampled[k-1] == r.sampled[..k][k-1] == drafts[k-1];
      assert h + drafts[..k-1] + [drafts[k-1]] == h + drafts[..k];
    }
  }

  /** A later step of a request. */
  lemma NextProposal(m: Model, kv: seq<Entry>, h: seq<int>, drafts: seq<int>, r: Row, k: nat)
    requires k > 0 && |drafts| == k && Cached(kv, h + drafts[..k-1])
    requires |r.tokens| > r.promptLen + 1 && Accepts(h, drafts, r)
    requires |r.tokens| + k <= |kv| + 1
    ensures Proposed(m, kv, r, k)
  {
    var a: nat :| AcceptsFirst(h, drafts, r, a);
    CaughtUp(m, kv, h, drafts, r, k, a);
    ReadyRow(m, kv, r, k);
  }

  /** The entry the loop of the previous step never wrote: that of the last draft. */
  ghost function LastDraftEntry(h: seq<int>, drafts: seq<int>): Entry
    requires |drafts| > 0
  {
    Entry(Entries(h + drafts[..|drafts|-1]), drafts[|drafts|-1])
  }

  /** Before the catch-up the cache is right for a row unless all drafts were accepted and leftover memory is wrong. */
  lemma OnlyHole(kv: seq<Entry>, h: seq<int>, drafts: seq<int>, r: Row, a: nat)
    requires |drafts| > 0 && Cached(kv, h + drafts[..|drafts|-1])
    requires AcceptsFirst(h, drafts, r, a) && |r.tokens| <= |kv|
    ensures Cached(kv, r.tokens[..|r.tokens|-1]) <==> a < |drafts| || kv[|h| + |drafts| - 1] == LastDraftEntry(h, drafts)
  {
    var k := |drafts|;
    var n := |r.tokens| - 1;
    assert r.tokens[..n] == h + drafts[..a] by {
      assert r.tokens[..n] == h + r.sampled[..a];
    }
    if a < k {
      assert (h + drafts[..k-1])[..n] == h + drafts[..a];
      CachedPrefix(kv, h + drafts[..k-1], n);
    } else {
      HoleFull(kv, h, drafts);
    }
  }

  lemma HoleFull(kv: seq<Entry>, h: seq<int>, drafts: seq<int>)
    requires |drafts| > 0 && Cached(kv, h + drafts[..|drafts|-1]) && |h| + |drafts| <= |kv|
    ensures Cached(kv, h + drafts[..|drafts|]) <==> kv[|h| + |drafts| - 1] == LastDraftEntry(h, drafts)
  {
    var k := |drafts|;
    var full := h + drafts[..k];
    assert full[..|full|-1] == h + drafts[..k-1] && full[|full|-1] == drafts[k-1];
    assert kv[..|full|] == kv[..|full|-1] + [kv[|full|-1]];
    assert Entries(full) == Entries(h + drafts[..k-1]) + [LastDraftEntry(h, drafts)];
  }
}
