/** The prefill side of the model runner and its exec objects, as an object. */
module ExecPool {
  import opened Arithmetic
  import opened ExecModel
  import opened PrefillChunks

  /** A KV producer that schedules asynchronously, with at least one exec object. */
  class Producer {
    const count: nat
    const prefillLen: nat
    /** Context buckets, in ascending order. */
    const buckets: seq<nat>
    var available: seq<nat>
    var queues: seq<seq<nat>>
    var activeCcl: map<nat, nat>
    var cached: set<nat>
    /** The batch whose output is outstanding: -1 before the first one. */
    var pendingOutput: int

    constructor (count: nat, prefillLen: nat, buckets: seq<nat>)
      requires count > 0 && prefillLen > 0 && buckets != []
      ensures Valid() && State() == Initial(count) && this.prefillLen == prefillLen && this.buckets == buckets
    {
      this.count, this.prefillLen, this.buckets := count, prefillLen, buckets;
      available, queues, activeCcl, cached, pendingOutput := Ids(count), [], map e | e in Ids(count) :: 0, {}, -1;
      new;
      InitialHolds(count);
    }

    function State(): Slots
      reads this
    {
      Slots(count, available, queues, activeCcl, cached)
    }

    ghost predicate Valid()
      reads this
    {
      && Inv(State()) && CanProceed(State()) && prefillLen > 0 && buckets != []
      && pendingOutput == |queues| - 1
    }

    /** `complete_inf` for the prefill exec object at the head of batch b's queue. */
    method CompleteInf(b: nat)
      requires b < |queues| && queues[b] != []
      modifies this`available, this`queues, this`activeCcl
      ensures State() == CompleteOne(old(State()), b)
      ensures available == old(available) + [old(queues)[b][0]] && activeCcl == old(activeCcl)[old(queues)[b][0] := 0]
      ensures queues == old(queues)[b := old(queues)[b][1..]]
    {
      var index := queues[b][0];
      queues := queues[b := queues[b][1..]];
      available := available + [index];
      activeCcl := activeCcl[index := 0];
    }

    /** `complete_all_inf`: waits for everything batch b still has pending. */
    method CompleteAllInf(b: nat)
      requires b < |queues|
      modifies this`available, this`queues, this`activeCcl
      ensures State() == Drain(old(State()), b)
    {
      while queues[b] != []
        invariant b < |queues| && Drain(State(), b) == Drain(old(State()), b)
        decreases |queues[b]|
      {
        CompleteInf(b);
      }
    }

    /** `get_output`: only the first call waits. */
    method ProduceOutput(b: nat)
      requires b < |queues|
      modifies this`available, this`queues, this`activeCcl, this`cached
      ensures State() == GetOutput(old(State()), b)
    {
      if b in cached {
        return;
      }
      CompleteAllInf(b);
      cached := cached + {b};
    }

    /** `synchronize_input_prep`. */
    method SynchronizeInputPrep()
      requires pendingOutput == |queues| - 1
      modifies this`available, this`queues, this`activeCcl, this`cached
      ensures State() == Synchronize(old(State()))
    {
      if pendingOutput >= 0 && available == [] {
        ProduceOutput(pendingOutput);
      }
    }

    /** The smallest bucket that covers the position, or the largest bucket when none does. */
    ghost predicate BucketFor(own: nat, maxPosition: int) {
      && own in buckets
      && (forall b :: b in buckets && maxPosition < b ==> own <= b)
      && (maxPosition < own || forall b :: b in buckets ==> maxPosition >= b && b <= own)
    }

    method PickBucket(maxPosition: int) returns (own: nat)
      requires buckets != [] && forall i, j :: 0 <= i < j < |buckets| ==> buckets[i] <= buckets[j]
      ensures BucketFor(own, maxPosition)
    {
      own := buckets[|buckets|-1];
      var i := 0;
      while i < |buckets|
        invariant i <= |buckets| && own == buckets[|buckets|-1]
        invariant forall k :: 0 <= k < i ==> maxPosition >= buckets[k]
      {
        if maxPosition < buckets[i] {
          return buckets[i];
        }
        i := i + 1;
      }
    }

    method MaxActive() returns (m: nat)
      ensures m == MaxBucket(activeCcl, count)
    {
      m := 0;
      for e := 0 to count
        invariant m == MaxBucket(activeCcl, e)
      {
        if e in activeCcl && activeCcl[e] > m {
          m := activeCcl[e];
        }
      }
    }

    /** `np_run_pipeline`, after waiting for an own chunk when no exec object is free. */
    method SubmitChunk(chosen: nat)
      requires CanProceed(State()) && queues != []
      modifies this`available, this`queues, this`activeCcl
      ensures State() == Chunk(old(State()), chosen)
    {
      if available == [] {
        CompleteInf(|queues| - 1);
      }
      var execObj := available[0];
      available := available[1..];
      activeCcl := activeCcl[execObj := chosen];
      queues := queues[|queues| - 1 := queues[|queues| - 1] + [execObj]];
    }

    /** One chunk more of the batch that began in `start`. */
    method SubmitNext(chosen: nat, ghost start: Slots, ghost n: nat)
      requires start.queues != [] && CanProceed(start) && State() == Chunks(start, chosen, n)
      modifies this`available, this`queues, this`activeCcl
      ensures State() == Chunks(start, chosen, n + 1)
    {
      SubmitChunk(chosen);
    }

    /** The chunk loop of one request, after n chunks of earlier ones. */
    method RunRequest(request: nat, ids: seq<int>, positions: seq<int>, partial: bool, chosen: nat, ghost start: Slots, ghost n: nat)
      returns (sent: seq<Piece>)
      requires start.queues != [] && CanProceed(start) && State() == Chunks(start, chosen, n) && prefillLen > 0 && |ids| == |positions|
      modifies this`available, this`queues, this`activeCcl
      ensures State() == Chunks(start, chosen, n + CeilDiv(|ids|, prefillLen))
      ensures RequestSent(sent, request, ids, positions, partial, prefillLen)
    {
      var iids, pids := Padded(ids, prefillLen), Padded(positions, prefillLen);
      var nChunks := |iids| / prefillLen;
      WholeChunks(|ids|, prefillLen);
      sent := [];
      var chunk := 0;
      while chunk < nChunks
        invariant chunk <= nChunks && State() == Chunks(start, chosen, n + chunk)
        invariant SentUpTo(sent, request, ids, positions, partial, chunk, prefillLen)
      {
        var piece := CutPiece(request, ids, positions, iids, pids, partial, chunk, nChunks, prefillLen);
        SubmitNext(chosen, start, n + chunk);
        SentNext(sent, piece, request, ids, positions, partial, chunk, prefillLen);
        sent := sent + [piece];
        chunk := chunk + 1;
      }
    }

    /** The chunks of one request of the batch, after those of the requests before it. */
    method RunPart(ids: seq<int>, positions: seq<int>, cum: seq<nat>, partial: seq<bool>, chosen: nat, request: nat, idxStart: nat,
                   before: seq<Piece>, ghost start: Slots) returns (sent: seq<Piece>, idxEnd: nat)
      requires prefillLen > 0 && |ids| == |positions| && |partial| == |cum| && Cumulative(cum, |ids|)
      requires request < |cum| && idxStart == Start(cum, request) && start.queues != [] && CanProceed(start)
      requires State() == Chunks(start, chosen, ChunkBase(cum, request, prefillLen))
      requires BatchSent(before, ids, positions, cum, partial, request, prefillLen)
      modifies this`available, this`queues, this`activeCcl
      ensures idxEnd == Start(cum, request + 1) && State() == Chunks(start, chosen, ChunkBase(cum, request + 1, prefillLen))
      ensures BatchSent(sent, ids, positions, cum, partial, request + 1, prefillLen)
    {
      StartBelow(cum, |ids|, request);
      idxEnd := cum[request];
      var more := RunRequest(request, ids[idxStart..idxEnd], positions[idxStart..idxEnd], partial[request], chosen,
                             start, ChunkBase(cum, request, prefillLen));
      BatchSentNext(before, more, ids, positions, cum, partial, request, prefillLen);
      sent := before + more;
    }

    /** `_run_pipeline_prefill`: every request of the batch in turn, chunk by chunk, all with one bucket. */
    method RunPipelinePrefill(ids: seq<int>, positions: seq<int>, cum: seq<nat>, partial: seq<bool>, chosen: nat) returns (sent: seq<Piece>)
      requires CanProceed(State()) && queues != [] && prefillLen > 0
      requires |ids| == |positions| && |partial| == |cum| && Cumulative(cum, |ids|)
      modifies this`available, this`queues, this`activeCcl
      ensures State() == Chunks(old(State()), chosen, ChunkBase(cum, |cum|, prefillLen))
      ensures BatchSent(sent, ids, positions, cum, partial, |cum|, prefillLen)
    {
      ghost var start := State();
      sent := [];
      var request, idxStart := 0, 0;
      while request < |cum|
        invariant request <= |cum| && idxStart == Start(cum, request)
        invariant State() == Chunks(start, chosen, ChunkBase(cum, request, prefillLen))
        invariant BatchSent(sent, ids, positions, cum, partial, request, prefillLen)
      {
        sent, idxStart := RunPart(ids, positions, cum, partial, chosen, request, idxStart, sent, start);
        request := request + 1;
      }
    }

    /** One execute step: synchronise, run the batch, and leave its output outstanding. */
    method ExecuteModel(ids: seq<int>, positions: seq<int>, cum: seq<nat>, partial: seq<bool>, maxPosition: int)
      returns (own: nat, sent: seq<Piece>)
      requires Valid() && |ids| == |positions| && |partial| == |cum| && Cumulative(cum, |ids|)
      requires cum != [] && forall r :: 0 <= r < |cum| ==> Start(cum, r) < cum[r]
      requires forall i, j :: 0 <= i < j < |buckets| ==> buckets[i] <= buckets[j]
      modifies this`available, this`queues, this`activeCcl, this`cached, this`pendingOutput
      ensures Valid() && BucketFor(own, maxPosition) && ChunkBase(cum, |cum|, prefillLen) > 0
      ensures Apply(old(State()), Submit(own, ChunkBase(cum, |cum|, prefillLen))) == Next(State())
      ensures BatchSent(sent, ids, positions, cum, partial, |cum|, prefillLen)
    {
      ChunkBasePositive(cum, |cum|, prefillLen);
      own := PickBucket(maxPosition);
      ApplyHolds(State(), Submit(own, ChunkBase(cum, |cum|, prefillLen)));
      SynchronizeInputPrep();
      queues := queues + [[]];
      var m := MaxActive();
      sent := RunPipelinePrefill(ids, positions, cum, partial, if own >= m then own else m);
      pendingOutput := |queues| - 1;
    }

    /** The engine asks for the output of batch b, any number of times. */
    method AsyncOutput(b: nat)
      requires Valid() && b < |queues|
      modifies this`available, this`queues, this`activeCcl, this`cached
      ensures Valid() && Apply(old(State()), Output(b)) == Next(State())
      ensures queues == old(queues)[b := []] && b in cached && available == old(available) + if b in old(cached) then [] else old(queues)[b]
    {
      if b !in cached {
        DrainFrees(State(), b);
      }
      ApplyHolds(State(), Output(b));
      ProduceOutput(b);
    }
  }

  ghost predicate SentUpTo(sent: seq<Piece>, request: nat, ids: seq<int>, positions: seq<int>, partial: bool, n: nat, w: nat)
    requires w > 0 && |ids| == |positions|
  {
    |sent| == n && forall c :: 0 <= c < n ==> PieceOk(sent[c], request, ids, positions, partial, c, w)
  }

  lemma SentNext(sent: seq<Piece>, piece: Piece, request: nat, ids: seq<int>, positions: seq<int>, partial: bool, n: nat, w: nat)
    requires w > 0 && |ids| == |positions|
    requires SentUpTo(sent, request, ids, positions, partial, n, w) && PieceOk(piece, request, ids, positions, partial, n, w)
    ensures SentUpTo(sent + [piece], request, ids, positions, partial, n + 1, w)
  {
  }

  lemma WholeChunks(n: nat, w: nat)
    requires w > 0
    ensures CeilDiv(n, w) * w / w == CeilDiv(n, w)
  {
    DivUnique(CeilDiv(n, w) * w, w, CeilDiv(n, w), 0);
  }

  /** The inputs of one chunk: slices of the padded rows. */
  method CutPiece(request: nat, ids: seq<int>, positions: seq<int>, iids: seq<int>, pids: seq<int>, partial: bool, chunk: nat, nChunks: nat, w: nat)
    returns (piece: Piece)
    requires w > 0 && |ids| == |positions| && iids == Padded(ids, w) && pids == Padded(positions, w) && chunk < nChunks == CeilDiv(|ids|, w)
    ensures PieceOk(piece, request, ids, positions, partial, chunk, w)
  {
    var lower := chunk * w;
    var upper := (chunk + 1) * w;
    ChunkInside(chunk, nChunks, w);
    assert upper == lower + w;
    var lastChunk := chunk + 1 == nChunks && !partial;
    piece := Piece(request, iids[lower..upper], pids[lower..upper], lastChunk);
  }
}
