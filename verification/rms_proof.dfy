/** Every step of every interleaving keeps the invariant of the RMS-norm kernel. */
module RmsProof {
  import opened Arithmetic
  import opened Wrappers
  import opened RmsKernel
  import opened RmsInvariant

  lemma SlotsDiffer(k: nat)
    ensures Slot(k) < 2 && Slot(k + 1) < 2 && Slot(k) != Slot(k + 1) && Slot(k + 2) == Slot(k)
  {
  }

  lemma HasWithinIters(c: Config, k: nat)
    requires c.Ok()
    ensures c.Has(k) ==> k < c.Iters()
    ensures c.Has(k + 1) ==> c.Has(k)
  {
    var n := c.Iters();
    assert |c.attn| + c.cores - 1 == c.cores * n + (|c.attn| + c.cores - 1) % c.cores;
    assert k >= n ==> (k - n) * c.cores >= 0;
    assert (k + 1) * c.cores == k * c.cores + c.cores;
  }

  lemma InitHolds(c: Config, s: State)
    requires Init(c, s)
    ensures Inv(c, s)
  {
    forall t | 0 <= t < c.threads
      ensures s.threads[t] == Enter(t, LoadWeight) && ThreadSumsOk(c, s, t) && StageOk(c, t, s.threads[t])
    {
    }
    assert SumsOk(c, s);
    forall i | 0 <= i < c.vlen
      ensures ChunkOk(c, s, i)
    {
    }
    assert TransferOkay(c, s);
  }

  // ----- keeping the threads in step -----

  lemma SyncedKept(c: Config, s: State, s': State, t: nat)
    requires Shape(c, s) && Shape(c, s') && Synced(c, s) && t < c.threads
    requires s.threads[t].stage != Arrived && s'.threads == s.threads[t := s'.threads[t]]
    requires s'.threads[t].pc == s.threads[t].pc && StageOk(c, t, s'.threads[t])
    ensures Synced(c, s')
  {
  }

  /** A step inside a phase keeps shapes and the place in the program. */
  lemma WorkSynced(c: Config, s: State, s': State, t: nat)
    requires Shape(c, s) && Synced(c, s) && t < c.threads && s.threads[t].stage != Arrived
    requires ThreadStep(c, s, t) == Some(s')
    ensures Shape(c, s') && Synced(c, s')
    ensures s'.threads == s.threads[t := s'.threads[t]] && s'.threads[t].pc == s.threads[t].pc
  {
    assert StageOk(c, t, s.threads[t]);
    StepStage(c, s, s', t);
    SyncedKept(c, s, s', t);
  }

  lemma StepStage(c: Config, s: State, s': State, t: nat)
    requires Shape(c, s) && t < c.threads && s.threads[t].stage != Arrived && StageOk(c, t, s.threads[t])
    requires ThreadStep(c, s, t) == Some(s')
    ensures Shape(c, s') && s'.threads == s.threads[t := s'.threads[t]]
    ensures s'.threads[t].pc == s.threads[t].pc && StageOk(c, t, s'.threads[t])
  {
    assert OnlyThread(c, s, t, ThreadStep(c, s, t));
    match s.threads[t].pc
    case Iter(k, Add) => AddStage(c, s, s', t, k);
    case Iter(k, Total) => TotalStage(c, s, s', t, k);
    case Iter(k, Normalize) => NormalizeStage(c, s, s', t, k);
    case Iter(k, Store) => StoreStage(c, s, s', t, k);
    case _ =>
  }

  lemma AddStage(c: Config, s: State, s': State, t: nat, k: nat)
    requires Shape(c, s) && t < c.threads && s.threads[t].stage != Arrived && StageOk(c, t, s.threads[t])
    requires s.threads[t].pc == Iter(k, Add) && AddStep(c, s, t, k) == Some(s') && t < |s'.threads|
    ensures s'.threads[t].pc == s.threads[t].pc && StageOk(c, t, s'.threads[t])
  {
    NextIndex(s.threads[t].i, t, c.threads);
  }

  lemma TotalStage(c: Config, s: State, s': State, t: nat, k: nat)
    requires Shape(c, s) && t < c.threads && s.threads[t].stage != Arrived && StageOk(c, t, s.threads[t])
    requires s.threads[t].pc == Iter(k, Total) && TotalStep(c, s, t, k) == Some(s') && t < |s'.threads|
    ensures s'.threads[t].pc == s.threads[t].pc && StageOk(c, t, s'.threads[t])
  {
  }

  lemma NormalizeStage(c: Config, s: State, s': State, t: nat, k: nat)
    requires Shape(c, s) && t < c.threads && s.threads[t].stage != Arrived && StageOk(c, t, s.threads[t])
    requires s.threads[t].pc == Iter(k, Normalize) && NormalizeStep(c, s, t, k) == Some(s') && t < |s'.threads|
    ensures s'.threads[t].pc == s.threads[t].pc && StageOk(c, t, s'.threads[t])
  {
    NextIndex(s.threads[t].i, t, c.threads);
  }

  lemma StoreStage(c: Config, s: State, s': State, t: nat, k: nat)
    requires Shape(c, s) && t < c.threads && s.threads[t].stage != Arrived && StageOk(c, t, s.threads[t])
    requires s.threads[t].pc == Iter(k, Store) && StoreStep(c, s, t, k) == Some(s') && t < |s'.threads|
    ensures s'.threads[t].pc == s.threads[t].pc && StageOk(c, t, s'.threads[t])
  {
  }

  lemma NextIndex(i: nat, t: nat, n: nat)
    requires n > 0 && t < n
    ensures t % n == t
    ensures i % n == t ==> (i + n) % n == t
  {
    DivUnique(t, n, 0, t);
    if i % n == t {
      assert i == n * (i / n) + t;
      assert i + n == n * (i / n + 1) + t;
      DivUnique(i + n, n, i / n + 1, t);
    }
  }

  lemma BarrierSynced(c: Config, s: State, s': State, t: nat)
    requires Shape(c, s) && Synced(c, s) && t < c.threads && s.threads[t].stage == Arrived
    requires ThreadStep(c, s, t) == Some(s')
    ensures Shape(c, s') && Synced(c, s')
    ensures s' == s.(threads := s.threads[t := Enter(t, NextPC(c, s.threads[t].pc))])
  {
    NextIndex(0, t, c.threads);
    assert StageOk(c, t, s.threads[t]) && StageOk(c, t, s'.threads[t]);
  }

  // ----- what other threads' steps leave alone -----

  /** The parts of the state that only thread 0 and the DMA engine change. */
  ghost predicate SameTransferState(s: State, s': State)
    requires |s.threads| > 0 && |s'.threads| > 0
  {
    && s'.threads[0] == s.threads[0] && s'.dma == s.dma && s'.prefetch == s.prefetch && s'.status == s.status
    && s'.weightBuf == s.weightBuf && s'.attnSlot == s.attnSlot && s'.xSlot == s.xSlot
    && s'.ddrOut == s.ddrOut && s'.ddrDst == s.ddrDst
  }

  lemma OtherThreadFrame(c: Config, s: State, s': State, t: nat)
    requires Shape(c, s) && 0 < t < c.threads
    requires Synced(c, s) && ThreadStep(c, s, t) == Some(s')
    ensures Shape(c, s') && SameTransferState(s, s')
  {
    assert StageOk(c, t, s.threads[t]);
    assert OnlyThread(c, s, t, ThreadStep(c, s, t));
  }

  lemma TransferKept(c: Config, s: State, s': State)
    requires Shape(c, s) && Shape(c, s') && SameTransferState(s, s')
    requires TransferOkay(c, s)
    ensures TransferOkay(c, s')
  {
    forall k: nat | c.Has(k)
      ensures RowOk(c, s', k)
    {
      assert RowOk(c, s, k);
    }
  }

  /** A step that writes only partial[t] and thread t keeps the sums of the others. */
  lemma OtherSumsKept(c: Config, s: State, s': State, t: nat)
    requires Shape(c, s) && Shape(c, s') && SumsOk(c, s) && t < c.threads
    requires s'.threads == s.threads[t := s'.threads[t]] && s'.partial == s.partial[t := s'.partial[t]]
    requires ThreadSumsOk(c, s', t)
    ensures SumsOk(c, s')
  {
    forall u | 0 <= u < c.threads
      ensures ThreadSumsOk(c, s', u)
    {
      assert ThreadSumsOk(c, s, u);
    }
  }

  // ----- passing a barrier -----

  lemma BelowFirst(c: Config, k: nat, t: nat, n: nat)
    requires c.Ok() && c.Has(k) && t < c.threads && n <= c.vlen && n <= t
    ensures ThreadSum(c, k, t, n) == 0.0
  {
    if n > 0 {
      NextIndex(n - 1, n - 1, c.threads);
      BelowFirst(c, k, t, n - 1);
    }
  }

  lemma BarrierSums(c: Config, s: State, s': State, t: nat)
    requires Shape(c, s) && Synced(c, s) && SumsOk(c, s) && t < c.threads && s.threads[t].stage == Arrived
    requires ThreadStep(c, s, t) == Some(s')
    ensures Shape(c, s') && SumsOk(c, s')
  {
    BarrierSynced(c, s, s', t);
    assert ThreadSumsOk(c, s, t) && StageOk(c, t, s.threads[t]);
    var th := s'.threads[t];
    if th.pc.Iter? && th.pc.phase == Add && c.Has(th.pc.k) {
      BelowFirst(c, th.pc.k, t, MinNat(t, c.vlen));
    }
    OtherSumsKept(c, s, s', t);
  }

  lemma BarrierBuffers(c: Config, s: State, s': State, t: nat)
    requires Shape(c, s) && Synced(c, s) && BuffersOk(c, s) && t < c.threads && s.threads[t].stage == Arrived
    requires ThreadStep(c, s, t) == Some(s')
    ensures Shape(c, s') && BuffersOk(c, s')
  {
    BarrierSynced(c, s, s', t);
    assert StageOk(c, t, s.threads[t]);
    forall i | 0 <= i < c.vlen
      ensures ChunkOk(c, s', i)
    {
      assert ChunkOk(c, s, i);
      if i < c.threads {
        NextIndex(i, i, c.threads);
      }
    }
  }

  lemma BarrierTransfer(c: Config, s: State, s': State)
    requires Shape(c, s) && Synced(c, s) && s.threads[0].stage == Arrived
    requires TransferOkay(c, s)
    requires ThreadStep(c, s, 0) == Some(s')
    ensures Shape(c, s') && TransferOkay(c, s')
  {
    BarrierSynced(c, s, s', 0);
    assert StageOk(c, 0, s.threads[0]);
    EnterKeeps(c, s, s');
    forall k: nat | c.Has(k)
      ensures RowOk(c, s', k)
    {
      assert RowOk(c, s, k);
      HasWithinIters(c, k);
      EnterRows(c, s.threads[0], k);
    }
  }

  lemma EnterKeeps(c: Config, s: State, s': State)
    requires Shape(c, s) && Shape(c, s') && StatusOk(c, s) && DmaOk(c, s) && SlotsOk(c, s)
    requires s.threads[0].stage == Arrived && StageOk(c, 0, s.threads[0])
    requires s' == s.(threads := s.threads[0 := Enter(0, NextPC(c, s.threads[0].pc))])
    ensures StatusOk(c, s') && DmaOk(c, s') && SlotsOk(c, s')
  {
  }

  /** Passing a barrier finishes no row. */
  lemma EnterRows(c: Config, z: Thread, k: nat)
    requires c.Ok() && z.stage == Arrived && StageOk(c, 0, z) && k < c.Iters()
    ensures RowDone(Enter(0, NextPC(c, z.pc)), k) ==> RowDone(z, k)
    ensures DstRowDone(Enter(0, NextPC(c, z.pc)), k) ==> DstRowDone(z, k)
  {
  }

  lemma BarrierHolds(c: Config, s: State, s': State, t: nat)
    requires Inv(c, s) && t < c.threads && s.threads[t].stage == Arrived
    requires ThreadStep(c, s, t) == Some(s')
    ensures Inv(c, s')
  {
    BarrierSynced(c, s, s', t);
    BarrierSums(c, s, s', t);
    BarrierBuffers(c, s, s', t);
    if t == 0 {
      BarrierTransfer(c, s, s');
    } else {
      OtherThreadFrame(c, s, s', t);
      TransferKept(c, s, s');
    }
  }

  // ----- compute steps -----

  /** A thread that adds in iteration k finds row k in the slot, although thread 0 may already prefetch. */
  lemma SlotReady(c: Config, s: State, t: nat, k: nat)
    requires Shape(c, s) && Synced(c, s) && SlotsOk(c, s) && t < c.threads
    requires s.threads[t].pc.Iter? && s.threads[t].pc.k == k && s.threads[t].stage != Arrived
    ensures SlotHolds(c, s, k) && s.weightBuf == c.weight
  {
    assert StageOk(c, 0, s.threads[0]) && StageOk(c, t, s.threads[t]);
  }

  /** No chunk strictly between i and i + threads belongs to the same thread. */
  lemma {:induction false} SkipOthers(c: Config, k: nat, t: nat, i: nat, n: nat)
    requires c.Ok() && c.Has(k) && t < c.threads && i % c.threads == t
    requires i < n <= c.vlen && n <= i + c.threads
    ensures ThreadSum(c, k, t, n) == ThreadSum(c, k, t, i) + SumSquares(Residual(c, k, i))
    decreases n
  {
    if n > i + 1 {
      SkipOthers(c, k, t, i, n - 1);
      var m := n - 1;
      var q := i / c.threads;
      assert i == c.threads * q + t;
      if t + (m - i) < c.threads {
        DivUnique(m, c.threads, q, t + (m - i));
      } else {
        assert m == c.threads * (q + 1) + (t + (m - i) - c.threads);
        DivUnique(m, c.threads, q + 1, t + (m - i) - c.threads);
      }
    }
  }

  lemma AddSums(c: Config, s: State, s': State, t: nat, k: nat)
    requires Shape(c, s) && Synced(c, s) && SlotsOk(c, s) && SumsOk(c, s) && t < c.threads
    requires s.threads[t].pc == Iter(k, Add) && s.threads[t].stage != Arrived
    requires AddStep(c, s, t, k) == Some(s')
    ensures Shape(c, s') && SumsOk(c, s')
  {
    assert OnlyThread(c, s, t, AddStep(c, s, t, k));
    assert StageOk(c, t, s.threads[t]) && ThreadSumsOk(c, s, t);
    SlotReady(c, s, t, k);
    AddSum(c, s, s', t, k);
    OtherSumsKept(c, s, s', t);
  }

  /** A thread's accumulator covers its chunks below its index. */
  lemma AddSum(c: Config, s: State, s': State, t: nat, k: nat)
    requires Shape(c, s) && Shape(c, s') && t < c.threads && SlotHolds(c, s, k) && ThreadSumsOk(c, s, t)
    requires s.threads[t].pc == Iter(k, Add) && s.threads[t].stage != Arrived && StageOk(c, t, s.threads[t])
    requires AddStep(c, s, t, k) == Some(s')
    ensures ThreadSumsOk(c, s', t) && s'.partial == s.partial[t := s'.partial[t]]
  {
    if s.threads[t].stage == Work && c.Has(k) && s.threads[t].i < c.vlen {
      NextSum(c, s, s', t, k);
    }
  }

  lemma NextSum(c: Config, s: State, s': State, t: nat, k: nat)
    requires Shape(c, s) && Shape(c, s') && t < c.threads && SlotHolds(c, s, k) && ThreadSumsOk(c, s, t)
    requires s.threads[t].pc == Iter(k, Add) && StageOk(c, t, s.threads[t])
    requires s.threads[t].stage == Work && c.Has(k) && s.threads[t].i < c.vlen && AddStep(c, s, t, k) == Some(s')
    ensures ThreadSumsOk(c, s', t) && s'.partial == s.partial
  {
    var i := s.threads[t].i;
    SkipOthers(c, k, t, i, MinNat(i + c.threads, c.vlen));
    assert AddChunk(s.attnSlot[Slot(k)][i], s.xSlot[Slot(k)][i]) == Residual(c, k, i);
  }

  lemma AddBuffers(c: Config, s: State, s': State, t: nat, k: nat)
    requires Shape(c, s) && Synced(c, s) && SlotsOk(c, s) && BuffersOk(c, s) && SumsOk(c, s) && t < c.threads
    requires s.threads[t].pc == Iter(k, Add) && s.threads[t].stage != Arrived
    requires AddStep(c, s, t, k) == Some(s')
    ensures Shape(c, s') && BuffersOk(c, s')
  {
    assert OnlyThread(c, s, t, AddStep(c, s, t, k));
    SlotReady(c, s, t, k);
    assert StageOk(c, t, s.threads[t]) && ThreadSumsOk(c, s, t);
    AddEffect(c, s, s', t, k);
    forall i | 0 <= i < c.vlen
      ensures ChunkOk(c, s', i)
    {
      assert ChunkOk(c, s, i);
      if i < c.threads {
        NextIndex(i, i, c.threads);
      }
      if c.Has(k) && i % c.threads == t && s.threads[t].i < i < s.threads[t].i + c.threads {
        SameResidue(s.threads[t].i, i, c.threads);
      }
      ChunkAdded(c, s, s', t, k, i);
    }
  }

  /** What an Add step does to the buffers: it writes the residual of chunk th.i, or nothing. */
  ghost predicate AddsChunk(c: Config, s: State, s': State, t: nat, k: nat)
    requires Shape(c, s) && t < c.threads && |s'.threads| == c.threads && |s'.outBuf| == c.vlen
  {
    var th, th' := s.threads[t], s'.threads[t];
    && s'.threads == s.threads[t := th'] && s'.dstBuf == s.dstBuf && th'.pc == th.pc
    && if th.stage == Work && c.Has(k) && th.i < c.vlen
       then s'.outBuf == s.outBuf[th.i := Residual(c, k, th.i)] && th'.i == th.i + c.threads && th'.stage == Work
       else s'.outBuf == s.outBuf && th'.i == th.i && (th'.stage == Arrived ==> th.stage == Work && (c.Has(k) ==> th.i >= c.vlen))
            && (th'.stage == Work && th.stage != Work ==> c.Has(k) ==> th.i == t)
  }

  lemma AddEffect(c: Config, s: State, s': State, t: nat, k: nat)
    requires Shape(c, s) && t < c.threads && s.threads[t].stage != Arrived && StageOk(c, t, s.threads[t]) && ThreadSumsOk(c, s, t)
    requires s.threads[t].pc == Iter(k, Add) && SlotHolds(c, s, k)
    requires AddStep(c, s, t, k) == Some(s') && |s'.threads| == c.threads && |s'.outBuf| == c.vlen
    ensures AddsChunk(c, s, s', t, k)
  {
  }

  lemma ChunkAdded(c: Config, s: State, s': State, t: nat, k: nat, i: nat)
    requires Shape(c, s) && Shape(c, s') && t < c.threads && i < c.vlen && ChunkOk(c, s, i) && AddsChunk(c, s, s', t, k)
    requires s.threads[t].pc == Iter(k, Add) && s.threads[t].stage != Arrived
    requires c.Has(k) && i % c.threads == t && s.threads[t].i < i ==> i >= s.threads[t].i + c.threads
    requires i < c.threads ==> i % c.threads == i
    requires c.Has(k) ==> s.threads[t].i % c.threads == t
    ensures ChunkOk(c, s', i)
  {
    var th := s.threads[t];
    if i % c.threads == t {
      IndexAtLeast(i, c.threads);
    }
  }

  lemma IndexAtLeast(i: nat, n: nat)
    requires n > 0
    ensures i >= i % n
  {
    assert i == n * (i / n) + i % n;
  }

  lemma SameResidue(i: nat, j: nat, n: nat)
    requires n > 0 && i < j && i % n == j % n
    ensures j >= i + n
  {
    var e := j / n - i / n;
    assert j - i == n * (j / n) - n * (i / n) == n * e;
    assert e <= 0 ==> n * e <= 0;
    assert e >= 1 ==> n * e >= n;
  }

  lemma TotalSums(c: Config, s: State, s': State, t: nat, k: nat)
    requires Shape(c, s) && Synced(c, s) && SumsOk(c, s) && t < c.threads
    requires s.threads[t].pc == Iter(k, Total) && s.threads[t].stage != Arrived
    requires TotalStep(c, s, t, k) == Some(s')
    ensures Shape(c, s') && SumsOk(c, s')
  {
    var th := s.threads[t];
    assert OnlyThread(c, s, t, TotalStep(c, s, t, k));
    assert StageOk(c, t, th) && ThreadSumsOk(c, s, t);
    if t == 0 && c.Has(k) && th.i < c.threads {
      assert StageOk(c, th.i, s.threads[th.i]) && ThreadSumsOk(c, s, th.i);
      assert s.partial[th.i] == ThreadSum(c, k, th.i, c.vlen);
    }
    OtherSumsKept(c, s, s', t);
  }

  lemma NormalizeSums(c: Config, s: State, s': State, t: nat, k: nat)
    requires Shape(c, s) && Synced(c, s) && SumsOk(c, s) && t < c.threads
    requires s.threads[t].pc == Iter(k, Normalize) && s.threads[t].stage != Arrived
    requires NormalizeStep(c, s, t, k) == Some(s')
    ensures Shape(c, s') && SumsOk(c, s')
  {
    assert OnlyThread(c, s, t, NormalizeStep(c, s, t, k));
    assert StageOk(c, 0, s.threads[0]) && ThreadSumsOk(c, s, 0) && ThreadSumsOk(c, s, t);
    OtherSumsKept(c, s, s', t);
  }

  lemma NormalizeBuffers(c: Config, s: State, s': State, t: nat, k: nat)
    requires Shape(c, s) && Synced(c, s) && SlotsOk(c, s) && BuffersOk(c, s) && SumsOk(c, s) && t < c.threads
    requires s.threads[t].pc == Iter(k, Normalize) && s.threads[t].stage != Arrived
    requires NormalizeStep(c, s, t, k) == Some(s')
    ensures Shape(c, s') && BuffersOk(c, s')
  {
    var th := s.threads[t];
    assert OnlyThread(c, s, t, NormalizeStep(c, s, t, k));
    assert StageOk(c, t, th) && ThreadSumsOk(c, s, t);
    SlotReady(c, s, t, k);
    forall i | 0 <= i < c.vlen
      ensures ChunkOk(c, s', i)
    {
      assert ChunkOk(c, s, i);
      if i % c.threads == t {
        if th.stage == Work && th.i < i < th.i + c.threads {
          SameResidue(th.i, i, c.threads);
        }
        if i < c.threads {
          NextIndex(i, i, c.threads);
        }
      }
    }
  }

  /** Outside Add and Normalize a step leaves the buffers and every chunk's status alone. */
  lemma OtherBuffers(c: Config, s: State, s': State, t: nat)
    requires Shape(c, s) && Synced(c, s) && BuffersOk(c, s) && t < c.threads
    requires s.threads[t].stage != Arrived
    requires s.threads[t].pc.Iter? ==> s.threads[t].pc.phase in {Total, Store}
    requires ThreadStep(c, s, t) == Some(s')
    ensures Shape(c, s') && BuffersOk(c, s')
  {
    assert OnlyThread(c, s, t, ThreadStep(c, s, t));
    OtherFrame(c, s, s', t);
    forall i | 0 <= i < c.vlen
      ensures ChunkOk(c, s', i)
    {
      assert ChunkOk(c, s, i);
    }
  }

  lemma OtherFrame(c: Config, s: State, s': State, t: nat)
    requires Shape(c, s) && t < c.threads && s.threads[t].stage != Arrived
    requires s.threads[t].pc.Iter? ==> s.threads[t].pc.phase in {Total, Store}
    requires ThreadStep(c, s, t) == Some(s') && t < |s'.threads|
    ensures s'.outBuf == s.outBuf && s'.dstBuf == s.dstBuf && s'.threads[t].pc == s.threads[t].pc
  {
    match s.threads[t].pc
    case LoadWeight =>
    case Prime => PrimeBuffers(c, s, s', t);
    case Iter(k, Total) => TotalBuffers(c, s, s', t, k);
    case Iter(k, Store) => StoreBuffers(c, s, s', t, k);
    case _ =>
  }

  lemma PrimeBuffers(c: Config, s: State, s': State, t: nat)
    requires Shape(c, s) && t < c.threads && PrimeStep(c, s, t) == Some(s') && t < |s'.threads|
    ensures s'.outBuf == s.outBuf && s'.dstBuf == s.dstBuf && s'.threads[t].pc == s.threads[t].pc
  {
  }

  lemma TotalBuffers(c: Config, s: State, s': State, t: nat, k: nat)
    requires Shape(c, s) && t < c.threads && TotalStep(c, s, t, k) == Some(s') && t < |s'.threads|
    ensures s'.outBuf == s.outBuf && s'.dstBuf == s.dstBuf && s'.threads[t].pc == s.threads[t].pc
  {
  }

  lemma StoreBuffers(c: Config, s: State, s': State, t: nat, k: nat)
    requires Shape(c, s) && t < c.threads && StoreStep(c, s, t, k) == Some(s') && t < |s'.threads|
    ensures s'.outBuf == s.outBuf && s'.dstBuf == s.dstBuf && s'.threads[t].pc == s.threads[t].pc
  {
  }

  lemma OtherSums(c: Config, s: State, s': State, t: nat)
    requires Shape(c, s) && Synced(c, s) && SumsOk(c, s) && t < c.threads
    requires s.threads[t].stage != Arrived
    requires s.threads[t].pc.Iter? ==> s.threads[t].pc.phase == Store
    requires ThreadStep(c, s, t) == Some(s')
    ensures Shape(c, s') && SumsOk(c, s')
  {
    assert OnlyThread(c, s, t, ThreadStep(c, s, t));
    assert StageOk(c, t, s.threads[t]);
    OtherSumsKept(c, s, s', t);
  }

  // ----- steps of thread 0 around transfers -----

  lemma WholeRow<T>(a: seq<T>, b: seq<T>, n: nat)
    requires |a| == |b| == n && a[..n] == b[..n]
    ensures a == b
  {
    assert a == a[..n] && b == b[..n];
  }

  /** A finished transfer has filled its destination. */
  lemma TransferDone(c: Config, s: State)
    requires Shape(c, s) && DmaOk(c, s) && InFlight(c, s.threads[0]).Some? && DmaDone(c, s)
    ensures match s.dma.what
            case WeightIn => s.weightBuf == c.weight
            case AttnIn(b, r) => TransferOk(c, s.dma.what) && s.attnSlot[b] == c.attn[r]
            case XIn(b, r) => TransferOk(c, s.dma.what) && s.xSlot[b] == c.x[r]
            case DstOut(r) => TransferOk(c, s.dma.what) && c.Has(IterOf(s.threads[0].pc)) && s.ddrDst[r] == NormalizedRow(c, IterOf(s.threads[0].pc))
            case ResidualOut(r) => TransferOk(c, s.dma.what) && c.Has(IterOf(s.threads[0].pc)) && s.ddrOut[r] == ResidualRow(c, IterOf(s.threads[0].pc))
  {
    var k := IterOf(s.threads[0].pc);
    match s.dma.what
    case WeightIn => WholeRow(s.weightBuf, c.weight, c.vlen);
    case AttnIn(b, r) => WholeRow(s.attnSlot[b], c.attn[r], c.vlen);
    case XIn(b, r) => WholeRow(s.xSlot[b], c.x[r], c.vlen);
    case DstOut(r) => WholeRow(s.ddrDst[r], NormalizedRow(c, k), c.vlen);
    case ResidualOut(r) => WholeRow(s.ddrOut[r], ResidualRow(c, k), c.vlen);
  }

  /** Rows already written stay as they are; a row becomes finished only when its transfer is. */
  lemma RowsKept(c: Config, s: State, s': State)
    requires Shape(c, s) && Shape(c, s') && DdrOk(c, s)
    requires s'.ddrOut == s.ddrOut && s'.ddrDst == s.ddrDst
    requires forall k: nat :: c.Has(k) && RowDone(s'.threads[0], k) ==>
      RowDone(s.threads[0], k) || s.ddrOut[c.RowAt(k)] == ResidualRow(c, k)
    requires forall k: nat :: c.Has(k) && DstRowDone(s'.threads[0], k) ==>
      DstRowDone(s.threads[0], k) || s.ddrDst[c.RowAt(k)] == NormalizedRow(c, k)
    ensures DdrOk(c, s')
  {
    forall k: nat | c.Has(k)
      ensures RowOk(c, s', k)
    {
      assert RowOk(c, s, k);
    }
  }

  lemma ZeroLoads(c: Config, s: State, s': State)
    requires Shape(c, s) && Synced(c, s) && TransferOkay(c, s) && s.threads[0].stage != Arrived
    requires !s.threads[0].pc.Iter?
    requires ThreadStep(c, s, 0) == Some(s')
    ensures Shape(c, s') && TransferOkay(c, s')
  {
    assert OnlyThread(c, s, 0, ThreadStep(c, s, 0));
    assert StageOk(c, 0, s.threads[0]);
    if InFlight(c, s.threads[0]).Some? && DmaDone(c, s) {
      TransferDone(c, s);
    }
    RowsKept(c, s, s');
  }

  /** Before the stores of an iteration no row becomes finished. */
  lemma RowsSame(c: Config, s: State, s': State)
    requires Shape(c, s) && Shape(c, s') && DdrOk(c, s)
    requires s'.ddrOut == s.ddrOut && s'.ddrDst == s.ddrDst
    requires s'.threads[0].pc == s.threads[0].pc && s.threads[0].pc.Iter? && s.threads[0].pc.phase != Store
    ensures DdrOk(c, s')
  {
    forall k: nat | c.Has(k)
      ensures RowOk(c, s', k)
    {
      assert RowOk(c, s, k);
    }
  }

  lemma ZeroAdds(c: Config, s: State, s': State)
    requires Shape(c, s) && Synced(c, s) && TransferOkay(c, s) && s.threads[0].stage != Arrived
    requires s.threads[0].pc.Iter? && s.threads[0].pc.phase == Add
    requires ThreadStep(c, s, 0) == Some(s')
    ensures Shape(c, s') && TransferOkay(c, s')
  {
    assert OnlyThread(c, s, 0, ThreadStep(c, s, 0));
    assert StageOk(c, 0, s.threads[0]);
    AddDma(c, s, s', s.threads[0].pc.k);
    AddSlots(c, s, s', s.threads[0].pc.k);
    RowsSame(c, s, s');
  }

  lemma AddDma(c: Config, s: State, s': State, k: nat)
    requires Shape(c, s) && Shape(c, s') && DmaOk(c, s)
    requires s.threads[0].pc == Iter(k, Add) && StageOk(c, 0, s.threads[0]) && s.threads[0].stage != Arrived
    requires AddStep(c, s, 0, k) == Some(s')
    ensures DmaOk(c, s') && s'.ddrOut == s.ddrOut && s'.ddrDst == s.ddrDst && s'.threads[0].pc == s.threads[0].pc
  {
  }

  lemma AddSlots(c: Config, s: State, s': State, k: nat)
    requires Shape(c, s) && Shape(c, s') && DmaOk(c, s) && SlotsOk(c, s)
    requires s.threads[0].pc == Iter(k, Add) && StageOk(c, 0, s.threads[0]) && s.threads[0].stage != Arrived
    requires AddStep(c, s, 0, k) == Some(s')
    ensures SlotsOk(c, s')
  {
    if s.threads[0].stage == WaitFirst {
      TransferDone(c, s);
    }
    AddFrame(c, s, s', k);
  }

  /** An Add step of thread 0 leaves the slots alone; only a finished transfer changes what is known of them. */
  lemma AddFrame(c: Config, s: State, s': State, k: nat)
    requires Shape(c, s) && Shape(c, s') && StageOk(c, 0, s.threads[0])
    requires s.threads[0].pc == Iter(k, Add) && s.threads[0].stage != Arrived && AddStep(c, s, 0, k) == Some(s')
    ensures s'.threads[0].pc == s.threads[0].pc && s'.weightBuf == s.weightBuf && s'.attnSlot == s.attnSlot && s'.xSlot == s.xSlot
    ensures s.threads[0].stage == Start && c.Has(k + 1) ==> s'.threads[0].stage == WaitFirst
    ensures s.threads[0].stage == WaitFirst ==> DmaDone(c, s)
  {
  }

  lemma ZeroComputes(c: Config, s: State, s': State)
    requires Shape(c, s) && Synced(c, s) && TransferOkay(c, s) && s.threads[0].stage != Arrived
    requires s.threads[0].pc.Iter? && s.threads[0].pc.phase in {Total, Normalize}
    requires ThreadStep(c, s, 0) == Some(s')
    ensures Shape(c, s') && TransferOkay(c, s')
  {
    assert OnlyThread(c, s, 0, ThreadStep(c, s, 0));
    ComputeFrame(c, s, s');
    RowsSame(c, s, s');
    ComputesKeep(c, s, s');
  }

  lemma ComputeFrame(c: Config, s: State, s': State)
    requires Shape(c, s) && s.threads[0].stage != Arrived
    requires s.threads[0].pc.Iter? && s.threads[0].pc.phase in {Total, Normalize}
    requires ThreadStep(c, s, 0) == Some(s') && |s'.threads| == c.threads
    ensures s'.threads[0].pc == s.threads[0].pc && SameTransferState(s, s'.(threads := s.threads))
  {
  }

  lemma ComputesKeep(c: Config, s: State, s': State)
    requires Shape(c, s) && Shape(c, s') && TransferOkay(c, s)
    requires s.threads[0].pc.Iter? && s.threads[0].pc.phase in {Total, Normalize}
    requires s'.threads[0].pc == s.threads[0].pc && SameTransferState(s, s'.(threads := s.threads))
    ensures StatusOk(c, s') && DmaOk(c, s') && SlotsOk(c, s')
  {
  }

  lemma ZeroStores(c: Config, s: State, s': State)
    requires Shape(c, s) && Synced(c, s) && TransferOkay(c, s) && s.threads[0].stage != Arrived
    requires s.threads[0].pc.Iter? && s.threads[0].pc.phase == Store
    requires ThreadStep(c, s, 0) == Some(s')
    ensures Shape(c, s') && TransferOkay(c, s')
  {
    assert OnlyThread(c, s, 0, ThreadStep(c, s, 0));
    assert StageOk(c, 0, s.threads[0]);
    if InFlight(c, s.threads[0]).Some? && DmaDone(c, s) {
      TransferDone(c, s);
    }
    StoreTransfers(c, s, s', s.threads[0].pc.k);
    StoreRows(c, s, s', s.threads[0].pc.k);
  }

  lemma StoreTransfers(c: Config, s: State, s': State, k: nat)
    requires Shape(c, s) && Shape(c, s') && DmaOk(c, s) && SlotsOk(c, s)
    requires s.threads[0].pc == Iter(k, Store) && StageOk(c, 0, s.threads[0]) && s.threads[0].stage != Arrived
    requires StoreStep(c, s, 0, k) == Some(s')
    requires s.threads[0].stage == Start && s.prefetch ==> s.xSlot[Slot(k + 1)] == c.x[c.RowAt(k + 1)]
    ensures DmaOk(c, s') && SlotsOk(c, s')
  {
    StoreDma(c, s, s', k);
    StoreSlots(c, s, s', k);
  }

  lemma StoreDma(c: Config, s: State, s': State, k: nat)
    requires Shape(c, s) && Shape(c, s') && DmaOk(c, s)
    requires s.threads[0].pc == Iter(k, Store) && StageOk(c, 0, s.threads[0]) && s.threads[0].stage != Arrived
    requires StoreStep(c, s, 0, k) == Some(s')
    ensures DmaOk(c, s')
  {
  }

  lemma StoreSlots(c: Config, s: State, s': State, k: nat)
    requires Shape(c, s) && Shape(c, s') && DmaOk(c, s) && SlotsOk(c, s)
    requires s.threads[0].pc == Iter(k, Store) && StageOk(c, 0, s.threads[0]) && s.threads[0].stage != Arrived
    requires StoreStep(c, s, 0, k) == Some(s')
    requires s.threads[0].stage == Start && s.prefetch ==> s.xSlot[Slot(k + 1)] == c.x[c.RowAt(k + 1)]
    ensures SlotsOk(c, s')
  {
    StoreFrame(c, s, s', k);
    assert s.threads[0].stage == Start ==> s.prefetch == c.Has(k + 1);
    assert SlotHolds(c, s', k) && AttnHolds(c, s', k + 1);
  }

  /** A Store step of thread 0 leaves the input slots alone and never goes back to the start of the phase. */
  lemma StoreFrame(c: Config, s: State, s': State, k: nat)
    requires Shape(c, s) && Shape(c, s') && StageOk(c, 0, s.threads[0])
    requires s.threads[0].pc == Iter(k, Store) && s.threads[0].stage != Arrived && StoreStep(c, s, 0, k) == Some(s')
    ensures s'.weightBuf == s.weightBuf && s'.attnSlot == s.attnSlot && s'.xSlot == s.xSlot
    ensures s'.threads[0].pc == s.threads[0].pc && s'.threads[0].stage != Start
  {
  }

  lemma StoreRows(c: Config, s: State, s': State, k: nat)
    requires Shape(c, s) && Shape(c, s') && StatusOk(c, s) && DdrOk(c, s)
    requires s.threads[0].pc == Iter(k, Store) && StageOk(c, 0, s.threads[0]) && s.threads[0].stage != Arrived
    requires StoreStep(c, s, 0, k) == Some(s')
    requires s.threads[0].stage == WaitFirst ==> s.ddrDst[c.RowAt(k)] == NormalizedRow(c, k)
    requires s.threads[0].stage == WaitSecond ==> s.ddrOut[c.RowAt(k)] == ResidualRow(c, k)
    ensures DdrOk(c, s')
  {
    RowsKept(c, s, s');
  }

  lemma WorkHolds(c: Config, s: State, s': State, t: nat)
    requires Inv(c, s) && t < c.threads && s.threads[t].stage != Arrived
    requires ThreadStep(c, s, t) == Some(s')
    ensures Inv(c, s')
  {
    WorkSynced(c, s, s', t);
    match s.threads[t].pc {
      case Iter(k, Add) =>
        AddSums(c, s, s', t, k);
        AddBuffers(c, s, s', t, k);
      case Iter(k, Total) =>
        TotalSums(c, s, s', t, k);
        OtherBuffers(c, s, s', t);
      case Iter(k, Normalize) =>
        NormalizeSums(c, s, s', t, k);
        NormalizeBuffers(c, s, s', t, k);
      case _ =>
        OtherSums(c, s, s', t);
        OtherBuffers(c, s, s', t);
    }
    if t == 0 {
      match s.threads[0].pc {
        case Iter(_, Add) => ZeroAdds(c, s, s');
        case Iter(_, Store) => ZeroStores(c, s, s');
        case Iter(_, _) => ZeroComputes(c, s, s');
        case _ => ZeroLoads(c, s, s');
      }
    } else {
      OtherThreadFrame(c, s, s', t);
      TransferKept(c, s, s');
    }
  }
}
