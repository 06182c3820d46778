/** What holds in every state of the RMS-norm kernel, whatever the interleaving. */
module RmsInvariant {
  import opened Wrappers
  import opened RmsKernel

  // ----- the results the kernel should produce -----

  ghost function Residual(c: Config, k: nat, i: nat): Chunk
    requires c.Ok() && c.Has(k) && i < c.vlen
  {
    AddChunk(c.attn[c.RowAt(k)][i], c.x[c.RowAt(k)][i])
  }

  /** Squares of the chunks below n that thread t handles. */
  ghost function ThreadSum(c: Config, k: nat, t: nat, n: nat): real
    requires c.Ok() && c.Has(k) && n <= c.vlen
  {
    if n == 0 then 0.0
    else ThreadSum(c, k, t, n - 1) + if (n - 1) % c.threads == t then SumSquares(Residual(c, k, n - 1)) else 0.0
  }

  /** The partial sums of the first u threads. */
  ghost function PartialTotal(c: Config, k: nat, u: nat): real
    requires c.Ok() && c.Has(k)
  {
    if u == 0 then 0.0 else PartialTotal(c, k, u - 1) + ThreadSum(c, k, u - 1, c.vlen)
  }

  ghost function InvRms(c: Config, k: nat): real
    requires c.Ok() && c.Has(k)
  {
    c.invRms(PartialTotal(c, k, c.threads))
  }

  ghost function Normalized(c: Config, k: nat, i: nat): Chunk
    requires c.Ok() && c.Has(k) && i < c.vlen
  {
    NormChunk(Residual(c, k, i), InvRms(c, k), c.weight[i])
  }

  ghost function ResidualRow(c: Config, k: nat): (r: Row)
    requires c.Ok() && c.Has(k)
    ensures |r| == c.vlen
  {
    seq(c.vlen, i requires 0 <= i < c.vlen => Residual(c, k, i))
  }

  ghost function NormalizedRow(c: Config, k: nat): (r: Row)
    requires c.Ok() && c.Has(k)
    ensures |r| == c.vlen
  {
    seq(c.vlen, i requires 0 <= i < c.vlen => Normalized(c, k, i))
  }

  // ----- control -----

  ghost predicate StageOk(c: Config, t: nat, th: Thread)
    requires c.Ok()
  {
    match th.pc
    case LoadWeight => th.stage in {Start, Arrived} || (t == 0 && th.stage == WaitFirst)
    case Prime => th.stage in {Start, Arrived} || (t == 0 && c.Has(0) && th.stage in {WaitFirst, Second, WaitSecond})
    case Iter(k, Add) =>
      && k < c.Iters()
      && (th.stage in {Work, Arrived} || (t == 0 && (th.stage == Start || (c.Has(k + 1) && th.stage in {WaitFirst, Second}))))
      && (th.stage != Arrived && c.Has(k) ==> th.i % c.threads == t)
    case Iter(k, Total) =>
      && k < c.Iters()
      && (th.stage == Arrived || th.stage == (if t == 0 then Work else Start))
      && (t == 0 && th.stage == Work ==> th.i <= c.threads)
    case Iter(k, Normalize) =>
      && k < c.Iters()
      && (th.stage in {Start, Arrived} || (c.Has(k) && th.stage == Work && th.i % c.threads == t))
    case Iter(k, Store) =>
      && k < c.Iters()
      && (th.stage in {Start, Arrived} || (t == 0 && (th.stage == Second || (c.Has(k) && th.stage in {WaitFirst, Third, WaitSecond}))))
    case Final => th.stage in {Start, Arrived}
    case Done => th.stage == Start
  }

  /** No thread is ahead of another by more than the one barrier the other has arrived at. */
  ghost predicate Synced(c: Config, s: State)
    requires Shape(c, s)
  {
    && (forall t :: 0 <= t < c.threads ==> StageOk(c, t, s.threads[t]))
    && forall t, u :: 0 <= t < c.threads && 0 <= u < c.threads ==>
         s.threads[t].pc == s.threads[u].pc
         || (s.threads[t].pc == NextPC(c, s.threads[u].pc) && s.threads[u].stage == Arrived)
         || (s.threads[u].pc == NextPC(c, s.threads[t].pc) && s.threads[t].stage == Arrived)
  }

  // ----- DMA and slots, as thread 0 left them -----

  /** The transfer thread 0 has in flight. */
  function InFlight(c: Config, z: Thread): Option<Transfer> {
    match z.pc
    case LoadWeight => if z.stage == WaitFirst then Some(WeightIn) else None
    case Prime =>
      if z.stage == WaitFirst then Some(AttnIn(0, c.RowAt(0)))
      else if z.stage == WaitSecond then Some(XIn(0, c.RowAt(0)))
      else None
    case Iter(k, Add) =>
      if z.stage == WaitFirst then Some(AttnIn(Slot(k + 1), c.RowAt(k + 1)))
      else if z.stage in {Work, Arrived} then Prefetching(c, k)
      else None
    case Iter(k, Total) => Prefetching(c, k)
    case Iter(k, Normalize) => Prefetching(c, k)
    case Iter(k, Store) =>
      if z.stage == Start then Prefetching(c, k)
      else if z.stage == WaitFirst then Some(DstOut(c.RowAt(k)))
      else if z.stage == WaitSecond then Some(ResidualOut(c.RowAt(k)))
      else None
    case _ => None
  }

  function Prefetching(c: Config, k: nat): Option<Transfer> {
    if c.Has(k + 1) then Some(XIn(Slot(k + 1), c.RowAt(k + 1))) else None
  }

  /** The first p chunks of a transfer of iteration k have reached their destination. */
  ghost predicate Copied(c: Config, s: State, what: Transfer, k: nat, p: nat)
    requires Shape(c, s) && p <= c.vlen
  {
    && TransferOk(c, what)
    && match what
       case WeightIn => s.weightBuf[..p] == c.weight[..p]
       case AttnIn(b, r) => s.attnSlot[b][..p] == c.attn[r][..p]
       case XIn(b, r) => s.xSlot[b][..p] == c.x[r][..p]
       case DstOut(r) => c.Has(k) && r == c.RowAt(k) && s.ddrDst[r][..p] == NormalizedRow(c, k)[..p]
       case ResidualOut(r) => c.Has(k) && r == c.RowAt(k) && s.ddrOut[r][..p] == ResidualRow(c, k)[..p]
  }

  function IterOf(pc: PC): nat { if pc.Iter? then pc.k else 0 }

  ghost predicate DmaOk(c: Config, s: State)
    requires Shape(c, s)
  {
    var z := s.threads[0];
    && (match InFlight(c, z)
        case None => s.dma == Idle
        case Some(what) => s.dma.Copy? && s.dma.what == what && s.dma.pos <= c.vlen && Copied(c, s, what, IterOf(z.pc), s.dma.pos))
    && (InPrefetch(z) ==> s.prefetch == c.Has(z.pc.k + 1))
  }

  predicate InPrefetch(z: Thread) {
    z.pc.Iter? && match z.pc.phase
      case Add => z.stage in {Work, Arrived}
      case Store => z.stage == Start
      case _ => true
  }

  /** Iteration k's inputs are in their slot. */
  ghost predicate SlotHolds(c: Config, s: State, k: nat)
    requires Shape(c, s)
  {
    c.Has(k) ==> s.attnSlot[Slot(k)] == c.attn[c.RowAt(k)] && s.xSlot[Slot(k)] == c.x[c.RowAt(k)]
  }

  ghost predicate AttnHolds(c: Config, s: State, k: nat)
    requires Shape(c, s)
  {
    c.Has(k) ==> s.attnSlot[Slot(k)] == c.attn[c.RowAt(k)]
  }

  ghost predicate SlotsOk(c: Config, s: State)
    requires Shape(c, s)
  {
    var z := s.threads[0];
    match z.pc
    case LoadWeight => z.stage == Arrived ==> s.weightBuf == c.weight
    case Prime =>
      && s.weightBuf == c.weight
      && (z.stage in {Second, WaitSecond} ==> AttnHolds(c, s, 0))
      && (z.stage == Arrived ==> SlotHolds(c, s, 0))
    case Iter(k, phase) =>
      && s.weightBuf == c.weight
      && SlotHolds(c, s, k)
      && (!(phase == Add && z.stage in {Start, WaitFirst}) ==> AttnHolds(c, s, k + 1))
      && (phase == Store && z.stage != Start ==> SlotHolds(c, s, k + 1))
    case _ => true
  }

  // ----- shared buffers, as the owner of each chunk left them -----

  /** The thread that handles chunk i has added it in its current iteration. */
  predicate Added(th: Thread, i: nat) {
    th.pc.Iter? && (th.pc.phase == Add ==> th.stage == Arrived || (th.stage == Work && th.i > i))
  }

  predicate Scaled(th: Thread, i: nat) {
    th.pc.Iter? && th.pc.phase in {Normalize, Store} &&
    (th.pc.phase == Normalize ==> th.stage == Arrived || (th.stage == Work && th.i > i))
  }

  ghost predicate ChunkOk(c: Config, s: State, i: nat)
    requires Shape(c, s) && i < c.vlen
  {
    var th := s.threads[i % c.threads];
    && (Added(th, i) && c.Has(th.pc.k) ==> s.outBuf[i] == Residual(c, th.pc.k, i))
    && (Scaled(th, i) && c.Has(th.pc.k) ==> s.dstBuf[i] == Normalized(c, th.pc.k, i))
  }

  ghost predicate BuffersOk(c: Config, s: State)
    requires Shape(c, s)
  {
    forall i :: 0 <= i < c.vlen ==> ChunkOk(c, s, i)
  }

  /** Accumulators, partial sums and the inverse RMS. */
  ghost predicate ThreadSumsOk(c: Config, s: State, t: nat)
    requires Shape(c, s) && t < c.threads
  {
    var th := s.threads[t];
    th.pc.Iter? && c.Has(th.pc.k) ==>
      var k := th.pc.k;
      match th.pc.phase
      case Add =>
        if th.stage == Arrived then s.partial[t] == ThreadSum(c, k, t, c.vlen)
        else th.acc == ThreadSum(c, k, t, if th.i <= c.vlen then th.i else c.vlen) && (th.stage != Work ==> th.i == t)
      case Total =>
        if t == 0 && th.stage == Arrived then s.partial[0] == InvRms(c, k)
        else s.partial[t] == ThreadSum(c, k, t, c.vlen) && (t == 0 ==> th.acc == PartialTotal(c, k, th.i))
      case Normalize =>
        && (t == 0 ==> s.partial[0] == InvRms(c, k))
        && (th.stage == Work ==> th.inv == InvRms(c, k))
      case Store => true
  }

  ghost predicate SumsOk(c: Config, s: State)
    requires Shape(c, s)
  {
    forall t :: 0 <= t < c.threads ==> ThreadSumsOk(c, s, t)
  }

  // ----- results in DDR -----

  predicate RowDone(z: Thread, k: nat) {
    match z.pc
    case Iter(j, phase) => k < j || (k == j && phase == Store && z.stage == Arrived)
    case Final => true
    case Done => true
    case _ => false
  }

  predicate DstRowDone(z: Thread, k: nat) {
    RowDone(z, k) || (z.pc == Iter(k, Store) && z.stage in {Third, WaitSecond})
  }

  ghost predicate RowOk(c: Config, s: State, k: nat)
    requires Shape(c, s) && c.Has(k)
  {
    var z := s.threads[0];
    && (DstRowDone(z, k) ==> s.ddrDst[c.RowAt(k)] == NormalizedRow(c, k))
    && (RowDone(z, k) ==> s.ddrOut[c.RowAt(k)] == ResidualRow(c, k))
  }

  ghost predicate OthersUntouched(c: Config, s: State)
    requires Shape(c, s)
  {
    forall r :: 0 <= r < |c.attn| && r % c.cores != c.core ==> s.ddrOut[r] == c.ddrOut0[r] && s.ddrDst[r] == c.ddrDst0[r]
  }

  ghost predicate DdrOk(c: Config, s: State)
    requires Shape(c, s)
  {
    && (forall k: nat :: c.Has(k) ==> RowOk(c, s, k))
    && OthersUntouched(c, s)
  }

  /** Once thread 0 has loaded the weights the status word says so, and it never changes again. */
  ghost predicate StatusOk(c: Config, s: State)
    requires Shape(c, s)
  {
    var z := s.threads[0];
    z.pc != LoadWeight || z.stage == Arrived ==> s.status == Success
  }

  /** Status word, transfer in flight, input slots and results: what only thread 0 and the engine change. */
  ghost predicate TransferOkay(c: Config, s: State)
    requires Shape(c, s)
  {
    StatusOk(c, s) && DmaOk(c, s) && SlotsOk(c, s) && DdrOk(c, s)
  }

  ghost predicate Inv(c: Config, s: State) {
    Shape(c, s) && Synced(c, s) && TransferOkay(c, s) && BuffersOk(c, s) && SumsOk(c, s)
  }
}
