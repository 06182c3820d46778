/** The main results about the RMS-norm kernel, for every run. */
module RmsTheorems {
  import opened Arithmetic
  import opened Wrappers
  import opened RmsKernel
  import opened RmsInvariant
  import opened RmsProof

  // ----- the DMA engine keeps the invariant -----

  lemma EngineShape(c: Config, s: State, s': State)
    requires Shape(c, s) && DmaStep(c, s) == Some(s')
    ensures Shape(c, s') && s'.threads == s.threads && s'.partial == s.partial
    ensures s'.outBuf == s.outBuf && s'.dstBuf == s.dstBuf && s'.prefetch == s.prefetch
  {
  }

  lemma RowsDiffer(c: Config, k: nat, j: nat)
    requires c.Ok()
    ensures k != j ==> c.RowAt(k) != c.RowAt(j)
    ensures c.RowAt(k) % c.cores == c.core
  {
    DivUnique(c.RowAt(k), c.cores, k, c.core);
    DivUnique(c.RowAt(j), c.cores, j, c.core);
  }

  /** The chunk the engine writes back is final: its owner finished it before thread 0 submitted the copy. */
  lemma SourceReady(c: Config, s: State, k: nat, i: nat)
    requires Shape(c, s) && Synced(c, s) && BuffersOk(c, s) && i < c.vlen && c.Has(k)
    requires s.threads[0].pc == Iter(k, Store) && s.threads[0].stage != Arrived
    ensures s.dstBuf[i] == Normalized(c, k, i) && s.outBuf[i] == Residual(c, k, i)
  {
    assert ChunkOk(c, s, i);
    assert StageOk(c, i % c.threads, s.threads[i % c.threads]);
  }

  lemma ExtendPrefix<T>(a: seq<T>, b: seq<T>, p: nat)
    requires |a| == |b| && p < |a| && a[..p] == b[..p]
    ensures a[p := b[p]][..p + 1] == b[..p + 1]
  {
  }

  lemma EngineTransfer(c: Config, s: State, s': State)
    requires Inv(c, s) && DmaStep(c, s) == Some(s')
    ensures Shape(c, s') && DmaOk(c, s')
  {
    EngineShape(c, s, s');
    assert StageOk(c, 0, s.threads[0]);
    if s.dma.what.DstOut? || s.dma.what.ResidualOut? {
      SourceReady(c, s, IterOf(s.threads[0].pc), s.dma.pos);
      CopiedOut(c, s, s', IterOf(s.threads[0].pc));
    } else {
      CopiedIn(c, s, s', IterOf(s.threads[0].pc));
    }
  }

  lemma CopiedIn(c: Config, s: State, s': State, k: nat)
    requires Shape(c, s) && Shape(c, s') && DmaStep(c, s) == Some(s') && Copied(c, s, s.dma.what, k, s.dma.pos)
    requires !s.dma.what.DstOut? && !s.dma.what.ResidualOut?
    ensures Copied(c, s', s.dma.what, k, s.dma.pos + 1)
  {
    var p := s.dma.pos;
    match s.dma.what
    case WeightIn => ExtendPrefix(s.weightBuf, c.weight, p);
    case AttnIn(b, r) => ExtendPrefix(s.attnSlot[b], c.attn[r], p);
    case XIn(b, r) => ExtendPrefix(s.xSlot[b], c.x[r], p);
  }

  lemma CopiedOut(c: Config, s: State, s': State, k: nat)
    requires Shape(c, s) && Shape(c, s') && DmaStep(c, s) == Some(s') && Copied(c, s, s.dma.what, k, s.dma.pos)
    requires s.dma.what.DstOut? || s.dma.what.ResidualOut?
    requires s.dstBuf[s.dma.pos] == Normalized(c, k, s.dma.pos) && s.outBuf[s.dma.pos] == Residual(c, k, s.dma.pos)
    ensures Copied(c, s', s.dma.what, k, s.dma.pos + 1)
  {
    var p := s.dma.pos;
    match s.dma.what
    case DstOut(r) => ExtendPrefix(s.ddrDst[r], NormalizedRow(c, k), p);
    case ResidualOut(r) => ExtendPrefix(s.ddrOut[r], ResidualRow(c, k), p);
  }

  lemma EngineSlots(c: Config, s: State, s': State)
    requires Shape(c, s) && Shape(c, s') && DmaOk(c, s) && SlotsOk(c, s) && DmaStep(c, s) == Some(s')
    requires StageOk(c, 0, s.threads[0]) && s'.threads == s.threads
    ensures SlotsOk(c, s')
  {
    if s.dma.what.DstOut? || s.dma.what.ResidualOut? {
      assert s'.attnSlot == s.attnSlot && s'.xSlot == s.xSlot && s'.weightBuf == s.weightBuf;
    } else {
      EngineLoads(c, s, s');
    }
  }

  lemma EngineLoads(c: Config, s: State, s': State)
    requires Shape(c, s) && Shape(c, s') && DmaOk(c, s) && SlotsOk(c, s) && DmaStep(c, s) == Some(s')
    requires StageOk(c, 0, s.threads[0]) && s'.threads == s.threads && !s.dma.what.DstOut? && !s.dma.what.ResidualOut?
    ensures SlotsOk(c, s')
  {
    SlotsDiffer(IterOf(s.threads[0].pc));
  }

  lemma EngineBuffers(c: Config, s: State, s': State)
    requires Shape(c, s) && Shape(c, s') && BuffersOk(c, s) && SumsOk(c, s)
    requires s'.threads == s.threads && s'.partial == s.partial && s'.outBuf == s.outBuf && s'.dstBuf == s.dstBuf
    ensures BuffersOk(c, s') && SumsOk(c, s')
  {
    forall i | 0 <= i < c.vlen
      ensures ChunkOk(c, s', i)
    {
      assert ChunkOk(c, s, i);
    }
    forall t | 0 <= t < c.threads
      ensures ThreadSumsOk(c, s', t)
    {
      assert ThreadSumsOk(c, s, t);
    }
  }

  lemma EngineHolds(c: Config, s: State, s': State)
    requires Inv(c, s) && DmaStep(c, s) == Some(s')
    ensures Inv(c, s')
  {
    EngineShape(c, s, s');
    EngineTransfer(c, s, s');
    assert StageOk(c, 0, s.threads[0]);
    EngineSlots(c, s, s');
    EngineDdr(c, s, s');
    EngineBuffers(c, s, s');
  }

  lemma EngineDdr(c: Config, s: State, s': State)
    requires Shape(c, s) && Shape(c, s') && DdrOk(c, s) && DmaOk(c, s) && DmaStep(c, s) == Some(s')
    requires StageOk(c, 0, s.threads[0]) && s'.threads == s.threads
    ensures DdrOk(c, s')
  {
    var k := IterOf(s.threads[0].pc);
    RowsDiffer(c, k, k);
    forall j: nat | c.Has(j)
      ensures RowOk(c, s', j)
    {
      assert RowOk(c, s, j);
      RowsDiffer(c, k, j);
    }
  }

  // ----- every reachable state -----

  lemma StepHolds(c: Config, s: State, a: Agent, s': State)
    requires Inv(c, s) && Step(c, s, a) == Some(s')
    ensures Inv(c, s')
  {
    match a
    case Worker(t) =>
      if s.threads[t].stage == Arrived {
        BarrierHolds(c, s, s', t);
      } else {
        WorkHolds(c, s, s', t);
      }
    case Engine => EngineHolds(c, s, s');
  }

  lemma {:induction false} RunHolds(c: Config, states: seq<State>, agents: seq<Agent>, n: nat)
    requires Run(c, states, agents) && n < |states|
    ensures Inv(c, states[n])
    decreases n
  {
    if n == 0 {
      InitHolds(c, states[0]);
    } else {
      RunHolds(c, states, agents, n - 1);
      StepHolds(c, states[n - 1], agents[n - 1], states[n]);
    }
  }

  // ----- results of a finished run -----

  ghost predicate Finished(c: Config, s: State)
    requires Shape(c, s)
  {
    forall t :: 0 <= t < c.threads ==> s.threads[t].pc == Done
  }

  /** The sum of squares of the first n chunks of row r's residual. */
  ghost function RowSquares(c: Config, r: nat, n: nat): real
    requires c.Ok() && r < |c.attn| && n <= c.vlen
  {
    if n == 0 then 0.0 else RowSquares(c, r, n - 1) + SumSquares(AddChunk(c.attn[r][n - 1], c.x[r][n - 1]))
  }

  /** One more chunk adds to exactly one of the first u threads, its owner. */
  lemma {:induction false} PrefixTotals(c: Config, k: nat, u: nat, n: nat)
    requires c.Ok() && c.Has(k) && n < c.vlen
    ensures PrefixTotal(c, k, u, n + 1)
         == PrefixTotal(c, k, u, n) + if n % c.threads < u then SumSquares(Residual(c, k, n)) else 0.0
    decreases u
  {
    if u > 0 {
      PrefixTotals(c, k, u - 1, n);
    }
  }

  ghost function PrefixTotal(c: Config, k: nat, u: nat, n: nat): real
    requires c.Ok() && c.Has(k) && n <= c.vlen
    decreases u
  {
    if u == 0 then 0.0 else PrefixTotal(c, k, u - 1, n) + ThreadSum(c, k, u - 1, n)
  }

  lemma {:induction false} PrefixIsPartial(c: Config, k: nat, u: nat)
    requires c.Ok() && c.Has(k)
    ensures PrefixTotal(c, k, u, c.vlen) == PartialTotal(c, k, u) && PrefixTotal(c, k, u, 0) == 0.0
  {
    if u > 0 {
      PrefixIsPartial(c, k, u - 1);
    }
  }

  /** Adding per-thread sums gives the row's sum of squares, whatever the number of threads. */
  lemma {:induction false} ThreadsShareRow(c: Config, k: nat, n: nat)
    requires c.Ok() && c.Has(k) && n <= c.vlen
    ensures PrefixTotal(c, k, c.threads, n) == RowSquares(c, c.RowAt(k), n)
    decreases n
  {
    PrefixIsPartial(c, k, c.threads);
    if n > 0 {
      ThreadsShareRow(c, k, n - 1);
      PrefixTotals(c, k, c.threads, n - 1);
    }
  }

  /** Every row belongs to exactly one core and one of its iterations. */
  lemma RowHasOneOwner(c: Config, r: nat)
    requires c.Ok() && r < |c.attn|
    ensures r == c.(core := r % c.cores).RowAt(r / c.cores) && r / c.cores < c.Iters()
    ensures forall core, k: nat :: 0 <= core < c.cores && r == c.(core := core).RowAt(k) ==> core == r % c.cores && k == r / c.cores
  {
    assert r == c.cores * (r / c.cores) + r % c.cores;
    HasWithinIters(c.(core := r % c.cores), r / c.cores);
    forall core, k: nat | 0 <= core < c.cores && r == c.(core := core).RowAt(k)
      ensures core == r % c.cores && k == r / c.cores
    {
      DivUnique(r, c.cores, k, core);
    }
  }

  /**
   When all threads of a core are done, every row the core owns holds the sum and the normalised sum of
   its inputs, and rows of other cores are as before.
   */
  lemma FinishedRunIsCorrect(c: Config, states: seq<State>, agents: seq<Agent>, r: nat)
    requires Run(c, states, agents) && r < |c.attn|
    requires Finished(c, states[|agents|])
    ensures r % c.cores == c.core ==>
      forall i :: 0 <= i < c.vlen ==>
        && states[|agents|].ddrOut[r][i] == AddChunk(c.attn[r][i], c.x[r][i])
        && states[|agents|].ddrDst[r][i] == NormChunk(AddChunk(c.attn[r][i], c.x[r][i]), c.invRms(RowSquares(c, r, c.vlen)), c.weight[i])
    ensures r % c.cores != c.core ==> states[|agents|].ddrOut[r] == c.ddrOut0[r] && states[|agents|].ddrDst[r] == c.ddrDst0[r]
  {
    var s := states[|agents|];
    RunHolds(c, states, agents, |agents|);
    if r % c.cores == c.core {
      RowHasOneOwner(c, r);
      var k := r / c.cores;
      assert c.(core := r % c.cores) == c;
      assert RowOk(c, s, k);
      ThreadsShareRow(c, k, c.vlen);
      PrefixIsPartial(c, k, c.threads);
    }
  }

  /** The sum, over the first n elements of two rows of 64-element chunks, of the squares of their sums. */
  ghost function TotalSquares(a: Row, b: Row, n: nat): real
    requires n <= 64 * |a| && n <= 64 * |b|
  {
    if n == 0 then 0.0
    else
      var sum := a[(n - 1) / 64][(n - 1) % 64] + b[(n - 1) / 64][(n - 1) % 64];
      TotalSquares(a, b, n - 1) + sum * sum
  }

  lemma {:induction false} ChunkSquares(a: Row, b: Row, i: nat, e: nat)
    requires i < |a| && i < |b| && e <= 64
    ensures TotalSquares(a, b, 64 * i + e) == TotalSquares(a, b, 64 * i) + SumSquares(AddChunk(a[i], b[i])[..e])
    decreases e
  {
    if e > 0 {
      ChunkSquares(a, b, i, e - 1);
      var n := 64 * i + e - 1;
      DivUnique(n, 64, i, e - 1);
      var sum := AddChunk(a[i], b[i]);
      assert sum[..e][..e-1] == sum[..e-1] && sum[..e][e-1] == a[i][e-1] + b[i][e-1];
    }
  }

  lemma {:induction false} RowSquaresIs(c: Config, r: nat, n: nat)
    requires c.Ok() && r < |c.attn| && n <= c.vlen
    ensures RowSquares(c, r, n) == TotalSquares(c.attn[r], c.x[r], 64 * n)
  {
    if n > 0 {
      RowSquaresIs(c, r, n - 1);
      ChunkSquares(c.attn[r], c.x[r], n - 1, 64);
      var sum := AddChunk(c.attn[r][n - 1], c.x[r][n - 1]);
      assert sum[..64] == sum;
    }
  }

  /**
   When all threads of a core are done, every element of every row the core owns is the sum of its inputs, and in
   the other matrix that sum times the inverse RMS of all the row's sums times the element's weight.
   */
  lemma FinishedElements(c: Config, states: seq<State>, agents: seq<Agent>, r: nat, i: nat, e: nat)
    requires Run(c, states, agents) && r < |c.attn| && r % c.cores == c.core && i < c.vlen && e < 64
    requires Finished(c, states[|agents|])
    ensures |states[|agents|].ddrOut| == |states[|agents|].ddrDst| == |c.attn|
    ensures |states[|agents|].ddrOut[r]| == |states[|agents|].ddrDst[r]| == c.vlen
    ensures states[|agents|].ddrOut[r][i][e] == c.attn[r][i][e] + c.x[r][i][e]
    ensures states[|agents|].ddrDst[r][i][e]
         == (c.attn[r][i][e] + c.x[r][i][e]) * c.invRms(TotalSquares(c.attn[r], c.x[r], 64 * c.vlen)) * c.weight[i][e]
  {
    RunHolds(c, states, agents, |agents|);
    FinishedRunIsCorrect(c, states, agents, r);
    RowSquaresIs(c, r, c.vlen);
  }

  // ----- barriers -----

  lemma NextBarrier(c: Config, pc: PC)
    requires c.Ok() && (pc.Iter? ==> pc.k < c.Iters()) && pc != Done
    ensures Barriers(c, NextPC(c, pc)) == Barriers(c, pc) + 1
  {
  }

  /** Barriers thread t passes in the first n steps. */
  ghost function Passed(states: seq<State>, agents: seq<Agent>, t: nat, n: nat): nat
    requires n <= |agents| && |states| == |agents| + 1
    requires forall m :: 0 <= m < |states| ==> t < |states[m].threads|
  {
    if n == 0 then 0
    else Passed(states, agents, t, n - 1) +
         if agents[n - 1] == Worker(t) && states[n - 1].threads[t].stage == Arrived then 1 else 0
  }

  /** Step n moves thread t on by one barrier or leaves it where it is. */
  ghost predicate StepCounts(c: Config, states: seq<State>, agents: seq<Agent>, t: nat, n: nat)
    requires c.cores > 0 && n < |agents| && |states| == |agents| + 1
  {
    && t < |states[n].threads| && t < |states[n + 1].threads|
    && Barriers(c, states[n + 1].threads[t].pc)
    == Barriers(c, states[n].threads[t].pc) + if agents[n] == Worker(t) && states[n].threads[t].stage == Arrived then 1 else 0
  }

  lemma {:induction false} StepsCount(c: Config, states: seq<State>, agents: seq<Agent>, t: nat, n: nat)
    requires c.cores > 0 && |states| == |agents| + 1 && n <= |agents|
    requires forall m :: 0 <= m < |states| ==> t < |states[m].threads|
    requires forall m :: 0 <= m < n ==> StepCounts(c, states, agents, t, m)
    ensures Barriers(c, states[n].threads[t].pc) == Barriers(c, states[0].threads[t].pc) + Passed(states, agents, t, n)
    decreases n
  {
    if n > 0 {
      StepsCount(c, states, agents, t, n - 1);
      assert StepCounts(c, states, agents, t, n - 1);
    }
  }

  lemma RunBarrier(c: Config, states: seq<State>, agents: seq<Agent>, t: nat, n: nat)
    requires Run(c, states, agents) && t < c.threads && n < |agents|
    ensures StepCounts(c, states, agents, t, n)
  {
    RunHolds(c, states, agents, n);
    BarrierCounted(c, states[n], agents[n], states[n + 1], t);
    RunHolds(c, states, agents, n + 1);
  }

  /** A thread's place in the program is the number of barriers it has passed. */
  lemma BarriersPassed(c: Config, states: seq<State>, agents: seq<Agent>, t: nat, n: nat)
    requires Run(c, states, agents) && t < c.threads && n <= |agents|
    requires forall m :: 0 <= m < |states| ==> t < |states[m].threads|
    ensures Passed(states, agents, t, n) == Barriers(c, states[n].threads[t].pc)
  {
    forall m | 0 <= m < n
      ensures StepCounts(c, states, agents, t, m)
    {
      RunBarrier(c, states, agents, t, m);
    }
    StepsCount(c, states, agents, t, n);
  }

  /** A thread that is done has passed 3 barriers and 4 more per iteration. */
  lemma BarriersWhenDone(c: Config, states: seq<State>, agents: seq<Agent>, t: nat, n: nat)
    requires Run(c, states, agents) && t < c.threads && n <= |agents|
    requires forall m :: 0 <= m < |states| ==> t < |states[m].threads|
    ensures states[n].threads[t].pc == Done <==> Passed(states, agents, t, n) == 3 + 4 * c.Iters()
  {
    BarriersPassed(c, states, agents, t, n);
    RunHolds(c, states, agents, n);
    var th := states[n].threads[t];
    assert StageOk(c, t, th);
  }

  /** One step moves a thread past a barrier exactly when it leaves it. */
  lemma BarrierCounted(c: Config, s: State, a: Agent, s': State, t: nat)
    requires Inv(c, s) && Step(c, s, a) == Some(s') && t < c.threads
    ensures Barriers(c, s'.threads[t].pc) == Barriers(c, s.threads[t].pc) + if a == Worker(t) && s.threads[t].stage == Arrived then 1 else 0
  {
    match a {
      case Worker(u) =>
        assert StageOk(c, u, s.threads[u]);
        if s.threads[u].stage == Arrived {
          BarrierSynced(c, s, s', u);
          NextBarrier(c, s.threads[u].pc);
        } else {
          WorkSynced(c, s, s', u);
        }
      case Engine => EngineShape(c, s, s');
    }
  }

  // ----- no deadlock -----

  lemma WorkerMoves(c: Config, s: State, t: nat)
    requires Inv(c, s) && t < c.threads && s.threads[t].stage != Arrived && s.threads[t].pc != Done
    requires s.dma.Copy? ==> s.dma.pos == c.vlen
    ensures ThreadStep(c, s, t).Some?
  {
    assert StageOk(c, t, s.threads[t]);
  }

  lemma PCsDiffer(c: Config, pc: PC)
    requires c.Ok() && (pc.Iter? ==> pc.k < c.Iters()) && pc != Done
    ensures NextPC(c, pc) != pc
    ensures NextPC(c, pc) != Done ==> NextPC(c, NextPC(c, pc)) != pc && NextPC(c, NextPC(c, pc)) != NextPC(c, pc)
  {
    NextBarrier(c, pc);
    if NextPC(c, pc) != Done {
      NextBarrier(c, NextPC(c, pc));
    }
  }

  /** Until every thread is done, some thread or the DMA engine can move. */
  lemma SomeoneMoves(c: Config, s: State) returns (a: Agent)
    requires Inv(c, s) && !Finished(c, s)
    ensures Step(c, s, a).Some?
  {
    if s.dma.Copy? && s.dma.pos < c.vlen {
      assert StageOk(c, 0, s.threads[0]);
      a := Engine;
    } else if t :| 0 <= t < c.threads && s.threads[t].stage != Arrived && s.threads[t].pc != Done {
      assert s.dma.Copy? ==> s.dma.pos <= c.vlen;
      WorkerMoves(c, s, t);
      a := Worker(t);
    } else {
      var t :| 0 <= t < c.threads && s.threads[t].pc != Done;
      var u := LastToArrive(c, s, t);
      a := Worker(u);
    }
  }

  lemma LastToArrive(c: Config, s: State, t: nat) returns (u: nat)
    requires Inv(c, s) && t < c.threads && s.threads[t].pc != Done
    requires forall v :: 0 <= v < c.threads ==> s.threads[v].stage == Arrived || s.threads[v].pc == Done
    ensures u < c.threads && ThreadStep(c, s, u).Some?
  {
    assert forall v :: 0 <= v < c.threads ==> StageOk(c, v, s.threads[v]);
    u := t;
    if !AtBarrier(c, s, s.threads[t].pc) {
      u :| 0 <= u < c.threads && s.threads[u].pc != NextPC(c, s.threads[t].pc)
        && !(s.threads[u].pc == s.threads[t].pc && s.threads[u].stage == Arrived);
      var pu := s.threads[u].pc;
      assert s.threads[t].pc == NextPC(c, pu);
      PCsDiffer(c, pu);
      forall v | 0 <= v < c.threads
        ensures (s.threads[v].pc == pu && s.threads[v].stage == Arrived) || s.threads[v].pc == NextPC(c, pu)
      {
        var pv := s.threads[v].pc;
        if pu == NextPC(c, pv) && pv != pu {
          PCsDiffer(c, pv);
        }
      }
    }
  }
}
