/** How a batch of concatenated requests is cut into chunks of prefillLen tokens, each request padded on its own. */
module PrefillChunks {
  import opened Arithmetic

  /** Start of request i in the concatenated batch. */
  function Start(cum: seq<nat>, i: nat): nat
    requires i <= |cum|
  {
    if i == 0 then 0 else cum[i - 1]
  }

  ghost predicate Cumulative(cum: seq<nat>, total: nat) {
    && (forall i :: 0 <= i < |cum| ==> Start(cum, i) <= cum[i])
    && (|cum| > 0 ==> cum[|cum|-1] == total)
  }

  function Length(cum: seq<nat>, i: nat): nat
    requires i < |cum| && Start(cum, i) <= cum[i]
  {
    cum[i] - Start(cum, i)
  }

  lemma StartBelow(cum: seq<nat>, total: nat, i: nat)
    requires Cumulative(cum, total) && i < |cum|
    ensures cum[i] <= total
    decreases |cum| - i
  {
    if i + 1 < |cum| {
      assert Start(cum, i + 1) <= cum[i + 1];
      StartBelow(cum, total, i + 1);
    }
  }

  /** Chunks of the requests before i: where request i's buffers begin. */
  function ChunkBase(cum: seq<nat>, i: nat, prefillLen: nat): nat
    requires prefillLen > 0 && i <= |cum| && forall j :: 0 <= j < |cum| ==> Start(cum, j) <= cum[j]
  {
    if i == 0 then 0 else ChunkBase(cum, i - 1, prefillLen) + CeilDiv(Length(cum, i - 1), prefillLen)
  }

  lemma ChunkBaseMonotone(cum: seq<nat>, i: nat, j: nat, prefillLen: nat)
    requires prefillLen > 0 && i <= j <= |cum| && forall j :: 0 <= j < |cum| ==> Start(cum, j) <= cum[j]
    ensures ChunkBase(cum, i, prefillLen) <= ChunkBase(cum, j, prefillLen)
  {
    if i < j {
      ChunkBaseMonotone(cum, i, j - 1, prefillLen);
    }
  }

  /** The entries of request i. */
  function PartOf(all: seq<int>, cum: seq<nat>, i: nat): seq<int>
    requires i < |cum| && Start(cum, i) <= cum[i] <= |all|
  {
    all[Start(cum, i)..cum[i]]
  }

  lemma ChunkInside(chunk: nat, nChunks: nat, prefillLen: nat)
    requires chunk < nChunks
    ensures chunk * prefillLen + prefillLen <= nChunks * prefillLen
  {
    MulLe(chunk + 1, nChunks, prefillLen);
    MulLe(chunk, chunk, prefillLen);
  }

  lemma PaddedChunks(n: nat, w: nat)
    requires w > 0
    ensures var padded := if n % w > 0 then n + w - n % w else n;
            padded / w == CeilDiv(n, w) && padded == CeilDiv(n, w) * w
  {
    var q, r := n / w, n % w;
    assert n == w * q + r;
    if r > 0 {
      assert n + w - r == w * (q + 1);
      DivUnique(n + w - r, w, q + 1, 0);
      assert n + w - 1 == w * (q + 1) + (r - 1);
      DivUnique(n + w - 1, w, q + 1, r - 1);
    } else {
      DivUnique(n + w - 1, w, q, w - 1);
    }
  }

  /** s with padding up to a multiple of w. */
  function Padded(s: seq<int>, w: nat): (r: seq<int>)
    requires w > 0
    ensures |r| == CeilDiv(|s|, w) * w
    ensures forall j :: 0 <= j < |r| ==> r[j] == if j < |s| then s[j] else -1
  {
    PaddedChunks(|s|, w);
    if |s| % w > 0 then s + seq(w - |s| % w, _ => -1) else s
  }

  // ----- the chunks handed to the device -----

  /** One chunk: its request, its slices, and whether it ends the request's prompt. */
  datatype Piece = Piece(request: nat, ids: seq<int>, positions: seq<int>, last: bool)

  /** Chunk c of a request: w entries from c * w on, padded with -1; only the final chunk of a whole prompt is the last. */
  ghost predicate PieceOk(p: Piece, request: nat, ids: seq<int>, positions: seq<int>, partial: bool, c: nat, w: nat)
    requires w > 0 && |ids| == |positions|
  {
    && p.request == request && |p.ids| == |p.positions| == w
    && (forall j :: 0 <= j < w ==> p.ids[j] == EntryAt(ids, c * w + j) && p.positions[j] == EntryAt(positions, c * w + j))
    && (p.last <==> c + 1 == CeilDiv(|ids|, w) && !partial)
  }

  function EntryAt(s: seq<int>, t: nat): int { if t < |s| then s[t] else -1 }

  ghost predicate RequestSent(pieces: seq<Piece>, request: nat, ids: seq<int>, positions: seq<int>, partial: bool, w: nat)
    requires w > 0 && |ids| == |positions|
  {
    && |pieces| == CeilDiv(|ids|, w)
    && forall c :: 0 <= c < |pieces| ==> PieceOk(pieces[c], request, ids, positions, partial, c, w)
  }

  /** Entry j of chunk c is for token t. */
  predicate Carries(c: nat, j: nat, w: nat, t: nat) { j < w && c * w + j == t }

  /** Every token of a request is in exactly one of its chunks, with its own position. */
  lemma TokenSentOnce(pieces: seq<Piece>, request: nat, ids: seq<int>, positions: seq<int>, partial: bool, w: nat, t: nat)
    requires w > 0 && |ids| == |positions| && RequestSent(pieces, request, ids, positions, partial, w) && t < |ids|
    ensures var c, j := t / w, t % w;
            c < |pieces| && |pieces[c].ids| == |pieces[c].positions| == w && pieces[c].ids[j] == ids[t] && pieces[c].positions[j] == positions[t]
    ensures forall c: nat, j: nat :: Carries(c, j, w, t) <==> c == t / w && j == t % w
  {
    ChunkOfToken(|ids|, t, w);
    CarriedOnce(t, w);
    EntrySent(pieces[t / w], request, ids, positions, partial, t / w, t % w, w);
  }

  lemma EntrySent(p: Piece, request: nat, ids: seq<int>, positions: seq<int>, partial: bool, c: nat, j: nat, w: nat)
    requires w > 0 && |ids| == |positions| && PieceOk(p, request, ids, positions, partial, c, w) && j < w && c * w + j < |ids|
    ensures p.ids[j] == ids[c * w + j] && p.positions[j] == positions[c * w + j]
  {
  }

  lemma CarriedOnce(t: nat, w: nat)
    requires w > 0
    ensures (t / w) * w + t % w == t
    ensures forall c: nat, j: nat :: Carries(c, j, w, t) <==> c == t / w && j == t % w
  {
    assert t == w * (t / w) + t % w;
    forall c: nat, j: nat | Carries(c, j, w, t)
      ensures c == t / w && j == t % w
    {
      DivUnique(t, w, c, j);
    }
  }

  lemma ChunkOfToken(n: nat, t: nat, w: nat)
    requires w > 0 && t < n
    ensures t / w < CeilDiv(n, w)
  {
    CeilDivBounds(n, w);
    assert t == w * (t / w) + t % w;
    if t / w >= CeilDiv(n, w) {
      MulLe(CeilDiv(n, w), t / w, w);
    }
  }

  /** The pieces of a whole batch, request after request. */
  ghost predicate BatchSent(pieces: seq<Piece>, ids: seq<int>, positions: seq<int>, cum: seq<nat>, partial: seq<bool>, n: nat, w: nat)
    requires w > 0 && n <= |cum| == |partial| && |ids| == |positions| && Cumulative(cum, |ids|)
  {
    && |pieces| == ChunkBase(cum, n, w)
    && forall r :: 0 <= r < n ==> PartSent(pieces, ids, positions, cum, partial, r, w)
  }

  ghost predicate PartSent(pieces: seq<Piece>, ids: seq<int>, positions: seq<int>, cum: seq<nat>, partial: seq<bool>, r: nat, w: nat)
    requires w > 0 && r < |cum| == |partial| && |ids| == |positions| && Cumulative(cum, |ids|)
  {
    && ChunkBase(cum, r, w) <= ChunkBase(cum, r + 1, w) <= |pieces|
    && (StartBelow(cum, |ids|, r);
        RequestSent(pieces[ChunkBase(cum, r, w)..ChunkBase(cum, r + 1, w)], r, PartOf(ids, cum, r), PartOf(positions, cum, r), partial[r], w))
  }

  lemma BatchSentNext(pieces: seq<Piece>, more: seq<Piece>, ids: seq<int>, positions: seq<int>, cum: seq<nat>, partial: seq<bool>, n: nat, w: nat)
    requires w > 0 && n < |cum| == |partial| && |ids| == |positions| && Cumulative(cum, |ids|) && cum[n] <= |ids|
    requires BatchSent(pieces, ids, positions, cum, partial, n, w)
    requires RequestSent(more, n, PartOf(ids, cum, n), PartOf(positions, cum, n), partial[n], w)
    ensures BatchSent(pieces + more, ids, positions, cum, partial, n + 1, w)
  {
    forall r | 0 <= r < n + 1
      ensures PartSent(pieces + more, ids, positions, cum, partial, r, w)
    {
      if r < n {
        assert PartSent(pieces, ids, positions, cum, partial, r, w);
        assert (pieces + more)[ChunkBase(cum, r, w)..ChunkBase(cum, r + 1, w)] == pieces[ChunkBase(cum, r, w)..ChunkBase(cum, r + 1, w)];
      } else {
        assert (pieces + more)[ChunkBase(cum, n, w)..ChunkBase(cum, n + 1, w)] == more;
      }
    }
  }

  /**
   Entry p of the batch, in request r, is in exactly the piece it should be: with w entries a piece from the
   request's first one on, behind the pieces of the requests before it.
   */
  lemma TokenOfBatch(pieces: seq<Piece>, ids: seq<int>, positions: seq<int>, cum: seq<nat>, partial: seq<bool>, w: nat, r: nat, p: nat)
    requires w > 0 && r < |cum| == |partial| && |ids| == |positions| && Cumulative(cum, |ids|)
    requires BatchSent(pieces, ids, positions, cum, partial, |cum|, w) && (if r == 0 then 0 else cum[r - 1]) <= p < cum[r] <= |ids|
    ensures var t := p - (if r == 0 then 0 else cum[r - 1]);
            var c := ChunkBase(cum, r, w) + t / w;
            c < |pieces| && pieces[c].request == r && |pieces[c].ids| == |pieces[c].positions| == w
            && pieces[c].ids[t % w] == ids[p] && pieces[c].positions[t % w] == positions[p]
  {
    var t := p - Start(cum, r);
    assert PartSent(pieces, ids, positions, cum, partial, r, w);
    OwnPiece(pieces, ChunkBase(cum, r, w), ChunkBase(cum, r + 1, w), r, PartOf(ids, cum, r), PartOf(positions, cum, r), partial[r], w, t);
  }

  lemma OwnPiece(pieces: seq<Piece>, lo: nat, hi: nat, r: nat, ids: seq<int>, positions: seq<int>, partial: bool, w: nat, t: nat)
    requires w > 0 && lo <= hi <= |pieces| && |ids| == |positions| && t < |ids|
    requires RequestSent(pieces[lo..hi], r, ids, positions, partial, w)
    ensures lo + t / w < |pieces| && pieces[lo + t / w].request == r && |pieces[lo + t / w].ids| == |pieces[lo + t / w].positions| == w
    ensures pieces[lo + t / w].ids[t % w] == ids[t] && pieces[lo + t / w].positions[t % w] == positions[t]
  {
    TokenSentOnce(pieces[lo..hi], r, ids, positions, partial, w, t);
    assert PieceOk(pieces[lo..hi][t / w], r, ids, positions, partial, t / w, w);
  }

  lemma ChunkBasePositive(cum: seq<nat>, n: nat, w: nat)
    requires w > 0 && 0 < n <= |cum| && forall i :: 0 <= i < |cum| ==> Start(cum, i) < cum[i]
    ensures ChunkBase(cum, n, w) > 0
  {
    CeilDivBounds(Length(cum, n - 1), w);
  }
}
