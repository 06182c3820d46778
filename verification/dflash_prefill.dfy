/**
 Prefill chunks: the target model runs each request in chunks of prefillLen tokens and fills one hidden
 buffer per chunk, counting chunks over the whole batch; the proposer later slices the buffers per request.
 */
module DFlashPrefill {
  import opened Arithmetic
  import opened PrefillChunks
  import opened DFlashTracking

  /** `num_prefill_chunks`: the buffers a batch needs. */
  method NumPrefillChunks(cum: seq<nat>, prefillLen: nat) returns (total: nat)
    requires prefillLen > 0 && forall i :: 0 <= i < |cum| ==> Start(cum, i) <= cum[i]
    ensures total == ChunkBase(cum, |cum|, prefillLen)
  {
    var tokStart := 0;
    total := 0;
    var i := 0;
    while i < |cum|
      invariant i <= |cum| && tokStart == Start(cum, i) && total == ChunkBase(cum, i, prefillLen)
    {
      var n := cum[i] - tokStart;
      total := total + CeilDiv(n, prefillLen);
      tokStart := cum[i];
      i := i + 1;
    }
  }

  /** What the target writes for one chunk: hidden rows of the real positions, anything for padding. */
  function ChunkHidden(req: nat, chunk: seq<int>): (h: seq<Hidden>)
    ensures |h| == |chunk|
  {
    seq(|chunk|, w requires 0 <= w < |chunk| => if chunk[w] == -1 then Junk else HiddenOf(req, chunk[w]))
  }

  /** Buffer c of a request holds the rows of tokens c * prefillLen, c * prefillLen + 1, ... */
  ghost predicate BufferOk(req: nat, positions: seq<int>, c: nat, buffer: seq<Hidden>, prefillLen: nat) {
    && |buffer| == prefillLen
    && forall w :: 0 <= w < prefillLen && c * prefillLen + w < |positions| ==>
         buffer[w] == HiddenOf(req, positions[c * prefillLen + w])
  }

  ghost predicate RequestBuffersOk(req: nat, positions: seq<int>, buffers: seq<seq<Hidden>>, prefillLen: nat)
    requires prefillLen > 0
  {
    && |buffers| == CeilDiv(|positions|, prefillLen)
    && forall c :: 0 <= c < |buffers| ==> BufferOk(req, positions, c, buffers[c], prefillLen)
  }

  /** All buffers of requests before i are right. */
  ghost predicate FilledBefore(reqs: seq<nat>, positions: seq<int>, cum: seq<nat>, buffers: seq<seq<Hidden>>, i: nat, prefillLen: nat)
    requires prefillLen > 0 && Cumulative(cum, |positions|) && |reqs| == |cum| && i <= |cum|
  {
    && ChunkBase(cum, i, prefillLen) <= |buffers|
    && forall r :: 0 <= r < i ==> RequestFilled(reqs, positions, cum, buffers, r, prefillLen)
  }

  ghost predicate RequestFilled(reqs: seq<nat>, positions: seq<int>, cum: seq<nat>, buffers: seq<seq<Hidden>>, r: nat, prefillLen: nat)
    requires prefillLen > 0 && Cumulative(cum, |positions|) && |reqs| == |cum| && r < |cum|
  {
    && ChunkBase(cum, r, prefillLen) <= ChunkBase(cum, r + 1, prefillLen) <= |buffers|
    && (StartBelow(cum, |positions|, r);
        RequestBuffersOk(reqs[r], PartOf(positions, cum, r), buffers[ChunkBase(cum, r, prefillLen)..ChunkBase(cum, r + 1, prefillLen)], prefillLen))
  }

  /** The chunk loop of one request, from the global chunk counter on. */
  method PrefillRequest(req: nat, positions: seq<int>, buffers: array<seq<Hidden>>, chunkIdx: nat, prefillLen: nat) returns (nextIdx: nat)
    requires prefillLen > 0 && forall t :: 0 <= t < |positions| ==> positions[t] >= 0
    requires chunkIdx + CeilDiv(|positions|, prefillLen) <= buffers.Length
    modifies buffers
    ensures nextIdx == chunkIdx + CeilDiv(|positions|, prefillLen)
    ensures RequestBuffersOk(req, positions, buffers[chunkIdx..nextIdx], prefillLen)
    ensures forall b :: 0 <= b < buffers.Length && !(chunkIdx <= b < nextIdx) ==> buffers[b] == old(buffers[b])
  {
    var padded := Padded(positions, prefillLen);
    var nChunks := |padded| / prefillLen;
    PaddedChunks(|positions|, prefillLen);
    assert |padded| == nChunks * prefillLen && nChunks == CeilDiv(|positions|, prefillLen);
    nextIdx := chunkIdx;
    var chunk := 0;
    while chunk < nChunks
      invariant chunk <= nChunks && nextIdx == chunkIdx + chunk
      invariant forall b :: chunkIdx <= b < nextIdx ==> BufferOk(req, positions, b - chunkIdx, buffers[b], prefillLen)
      invariant forall b :: 0 <= b < buffers.Length && !(chunkIdx <= b < nextIdx) ==> buffers[b] == old(buffers[b])
    {
      var lower := chunk * prefillLen;
      ChunkInside(chunk, nChunks, prefillLen);
      buffers[nextIdx] := ChunkHidden(req, padded[lower..lower + prefillLen]);
      nextIdx := nextIdx + 1;
      chunk := chunk + 1;
    }
    ghost var own := buffers[chunkIdx..nextIdx];
    assert forall c :: 0 <= c < |own| ==> own[c] == buffers[chunkIdx + c];
  }

  /** Filling request i's buffers leaves those of earlier requests alone. */
  lemma FilledNext(reqs: seq<nat>, positions: seq<int>, cum: seq<nat>, before: seq<seq<Hidden>>, after: seq<seq<Hidden>>, i: nat, prefillLen: nat)
    requires prefillLen > 0 && Cumulative(cum, |positions|) && |reqs| == |cum| && i < |cum| && cum[i] <= |positions|
    requires FilledBefore(reqs, positions, cum, before, i, prefillLen) && |after| == |before|
    requires ChunkBase(cum, i, prefillLen) <= ChunkBase(cum, i + 1, prefillLen) <= |after|
    requires after[..ChunkBase(cum, i, prefillLen)] == before[..ChunkBase(cum, i, prefillLen)]
    requires RequestBuffersOk(reqs[i], PartOf(positions, cum, i), after[ChunkBase(cum, i, prefillLen)..ChunkBase(cum, i + 1, prefillLen)], prefillLen)
    ensures FilledBefore(reqs, positions, cum, after, i + 1, prefillLen)
  {
    forall r | 0 <= r < i
      ensures RequestFilled(reqs, positions, cum, after, r, prefillLen)
    {
      assert RequestFilled(reqs, positions, cum, before, r, prefillLen);
      ChunkBaseMonotone(cum, r + 1, i, prefillLen);
      SameSlice(before, after, ChunkBase(cum, i, prefillLen), ChunkBase(cum, r, prefillLen), ChunkBase(cum, r + 1, prefillLen));
    }
  }

  lemma SameSlice<T>(s: seq<T>, t: seq<T>, n: nat, i: nat, j: nat)
    requires i <= j <= n <= |s| && n <= |t| && s[..n] == t[..n]
    ensures s[i..j] == t[i..j]
  {
    assert s[i..j] == s[..n][i..j] && t[i..j] == t[..n][i..j];
  }

  /** Request i of the batch, from chunk buffer chunkIdx on. */
  method FillRequest(reqs: seq<nat>, positions: seq<int>, cum: seq<nat>, buffers: array<seq<Hidden>>, i: nat, chunkIdx: nat, prefillLen: nat)
    returns (nextIdx: nat)
    requires prefillLen > 0 && |reqs| == |cum| && Cumulative(cum, |positions|) && i < |cum| && cum[i] <= |positions|
    requires forall t :: 0 <= t < |positions| ==> positions[t] >= 0
    requires chunkIdx == ChunkBase(cum, i, prefillLen) && ChunkBase(cum, i + 1, prefillLen) <= buffers.Length
    requires FilledBefore(reqs, positions, cum, buffers[..], i, prefillLen)
    modifies buffers
    ensures nextIdx == ChunkBase(cum, i + 1, prefillLen) && FilledBefore(reqs, positions, cum, buffers[..], i + 1, prefillLen)
  {
    ghost var before := buffers[..];
    nextIdx := PrefillRequest(reqs[i], positions[Start(cum, i)..cum[i]], buffers, chunkIdx, prefillLen);
    assert buffers[..][..chunkIdx] == before[..chunkIdx] && buffers[..][chunkIdx..nextIdx] == buffers[chunkIdx..nextIdx];
    FilledNext(reqs, positions, cum, before, buffers[..], i, prefillLen);
  }

  /** `_run_prefill` with hidden buffers: one running chunk counter over all requests. */
  method RunPrefill(reqs: seq<nat>, positions: seq<int>, cum: seq<nat>, buffers: array<seq<Hidden>>, prefillLen: nat)
    requires prefillLen > 0 && |reqs| == |cum| && Cumulative(cum, |positions|)
    requires forall t :: 0 <= t < |positions| ==> positions[t] >= 0
    requires ChunkBase(cum, |cum|, prefillLen) <= buffers.Length
    modifies buffers
    ensures FilledBefore(reqs, positions, cum, buffers[..], |cum|, prefillLen)
  {
    var chunkIdx := 0;
    var i := 0;
    while i < |cum|
      invariant i <= |cum| && chunkIdx == ChunkBase(cum, i, prefillLen)
      invariant FilledBefore(reqs, positions, cum, buffers[..], i, prefillLen)
    {
      StartBelow(cum, |positions|, i);
      ChunkBaseMonotone(cum, i + 1, |cum|, prefillLen);
      chunkIdx := FillRequest(reqs, positions, cum, buffers, i, chunkIdx, prefillLen);
      i := i + 1;
    }
  }

  /** A request's prefill work for the draft model. */
  datatype WorkItem = WorkItem(req: nat, slot: nat, hidden: seq<seq<Hidden>>, positions: seq<int>, partial: bool)

  /** `build_prefill_pending`: every request takes its own run of hidden buffers. */
  method BuildPrefillPending(reqs: seq<nat>, slots: seq<nat>, positions: seq<int>, cum: seq<nat>, isPartial: seq<bool>,
                             chunks: seq<seq<Hidden>>, prefillLen: nat)
    returns (pending: seq<WorkItem>)
    requires prefillLen > 0 && |reqs| == |slots| == |isPartial| == |cum| && Cumulative(cum, |positions|)
    requires FilledBefore(reqs, positions, cum, chunks, |cum|, prefillLen)
    ensures |pending| == |cum|
    ensures forall i :: 0 <= i < |pending| ==> ItemOk(reqs, slots, positions, cum, isPartial, pending[i], i, prefillLen)
  {
    pending := [];
    var chunkIdx, tokStart := 0, 0;
    var i := 0;
    while i < |cum|
      invariant i <= |cum| && |pending| == i && tokStart == Start(cum, i) && chunkIdx == ChunkBase(cum, i, prefillLen)
      invariant forall k :: 0 <= k < i ==> ItemOk(reqs, slots, positions, cum, isPartial, pending[k], k, prefillLen)
    {
      assert RequestFilled(reqs, positions, cum, chunks, i, prefillLen);
      var n := cum[i] - tokStart;
      var nChunks := CeilDiv(n, prefillLen);
      StartBelow(cum, |positions|, i);
      pending := pending + [WorkItem(reqs[i], slots[i], chunks[chunkIdx..chunkIdx + nChunks], positions[tokStart..cum[i]], isPartial[i])];
      chunkIdx := chunkIdx + nChunks;
      tokStart := cum[i];
      i := i + 1;
    }
  }

  ghost predicate ItemOk(reqs: seq<nat>, slots: seq<nat>, positions: seq<int>, cum: seq<nat>, isPartial: seq<bool>, item: WorkItem,
                         i: nat, prefillLen: nat)
    requires prefillLen > 0 && |reqs| == |slots| == |isPartial| == |cum| && Cumulative(cum, |positions|) && i < |cum|
  {
    && item.req == reqs[i] && item.slot == slots[i] && item.partial == isPartial[i]
    && (StartBelow(cum, |positions|, i); item.positions == PartOf(positions, cum, i))
    && RequestBuffersOk(item.req, item.positions, item.hidden, prefillLen)
  }
}
