/**
 The fused add + RMS-norm kernel as a step system: the threads of one core, the barriers between their
 phases, and the DMA engine, which copies one 64-element chunk at a time whenever it likes.
 Every DMA succeeds and arithmetic is exact.
 */
module RmsKernel {
  import opened Wrappers

  type Chunk = c: seq<real> | |c| == 64 witness seq(64, _ => 0.0)
  type Row = seq<Chunk>

  function AddChunk(a: Chunk, b: Chunk): Chunk {
    seq(64, i requires 0 <= i < 64 => a[i] + b[i])
  }

  function SumSquares(c: seq<real>): real {
    if c == [] then 0.0 else SumSquares(c[..|c|-1]) + c[|c|-1] * c[|c|-1]
  }

  function NormChunk(c: Chunk, inv: real, weight: Chunk): Chunk {
    seq(64, i requires 0 <= i < 64 => c[i] * inv * weight[i])
  }

  /**
   One core's view of a launch: `invRms` stands for 1 / sqrt(sum / N + epsilon); ddrOut0 and ddrDst0
   are the output matrices before the launch.
   */
  datatype Config = Config(threads: nat, cores: nat, core: nat, vlen: nat, attn: seq<Row>, x: seq<Row>, weight: Row,
                           invRms: real -> real, ddrOut0: seq<Row>, ddrDst0: seq<Row>)
  {
    ghost predicate Ok() {
      && threads > 0 && core < cores
      && |attn| == |x| == |ddrOut0| == |ddrDst0|
      && |weight| == vlen
      && forall r :: 0 <= r < |attn| ==> |attn[r]| == |x[r]| == |ddrOut0[r]| == |ddrDst0[r]| == vlen
    }

    function Iters(): nat requires cores > 0 { (|attn| + cores - 1) / cores }

    /** The row this core handles in iteration k. */
    function RowAt(k: nat): nat { k * cores + core }

    predicate Has(k: nat) { RowAt(k) < |attn| }
  }

  datatype Phase = Add | Total | Normalize | Store

  /** Where a thread is, counted in barriers. */
  datatype PC = LoadWeight | Prime | Iter(k: nat, phase: Phase) | Final | Done

  datatype Stage = Start | WaitFirst | Second | WaitSecond | Work | Third | Arrived

  datatype Thread = Thread(pc: PC, stage: Stage, i: nat, acc: real, inv: real)

  datatype Transfer = WeightIn | AttnIn(slot: nat, row: nat) | XIn(slot: nat, row: nat) | DstOut(row: nat) | ResidualOut(row: nat)

  datatype Dma = Idle | Copy(what: Transfer, pos: nat)

  /** The shared status word. */
  datatype Status = Success | Failure

  /** The shared memory, the transfer in flight and the threads; `prefetch` says whether the handle in VTCM is valid. */
  datatype State = State(attnSlot: seq<Row>, xSlot: seq<Row>, weightBuf: Row, outBuf: Row, dstBuf: Row, partial: seq<real>,
                         status: Status, prefetch: bool, dma: Dma, ddrOut: seq<Row>, ddrDst: seq<Row>, threads: seq<Thread>)

  function Slot(k: nat): nat { k % 2 }

  // ----- control -----

  function NextPC(c: Config, pc: PC): PC
    requires c.cores > 0
  {
    match pc
    case LoadWeight => Prime
    case Prime => if c.Iters() > 0 then Iter(0, Add) else Final
    case Iter(k, Add) => Iter(k, Total)
    case Iter(k, Total) => Iter(k, Normalize)
    case Iter(k, Normalize) => Iter(k, Store)
    case Iter(k, Store) => if k + 1 < c.Iters() then Iter(k + 1, Add) else Final
    case Final => Done
    case Done => Done
  }

  /** The number of barriers passed before a program point. */
  function Barriers(c: Config, pc: PC): nat
    requires c.cores > 0
  {
    match pc
    case LoadWeight => 0
    case Prime => 1
    case Iter(k, phase) => 2 + 4 * k + (match phase case Add => 0 case Total => 1 case Normalize => 2 case Store => 3)
    case Final => 2 + 4 * c.Iters()
    case Done => 3 + 4 * c.Iters()
  }

  /** A thread entering a program point; thread 0 has DMA or totalling to do where the others go on. */
  function Enter(t: nat, pc: PC): Thread {
    match pc
    case Iter(_, Add) => Thread(pc, if t == 0 then Start else Work, t, 0.0, 0.0)
    case Iter(_, Total) => Thread(pc, if t == 0 then Work else Start, 0, 0.0, 0.0)
    case _ => Thread(pc, Start, 0, 0.0, 0.0)
  }

  predicate AtBarrier(c: Config, s: State, pc: PC)
    requires c.cores > 0
  {
    forall u :: 0 <= u < |s.threads| ==>
      (s.threads[u].pc == pc && s.threads[u].stage == Arrived) || s.threads[u].pc == NextPC(c, pc)
  }

  predicate DmaDone(c: Config, s: State) { s.dma.Copy? && s.dma.pos == c.vlen }

  ghost predicate Shape(c: Config, s: State) {
    && c.Ok()
    && |s.attnSlot| == |s.xSlot| == 2
    && (forall b :: 0 <= b < 2 ==> |s.attnSlot[b]| == |s.xSlot[b]| == c.vlen)
    && |s.weightBuf| == |s.outBuf| == |s.dstBuf| == c.vlen
    && |s.partial| == |s.threads| == c.threads
    && |s.ddrOut| == |s.ddrDst| == |c.attn|
    && forall r :: 0 <= r < |c.attn| ==> |s.ddrOut[r]| == |s.ddrDst[r]| == c.vlen
  }

  /** A step of thread t keeps all shapes and the other threads. */
  ghost predicate OnlyThread(c: Config, s: State, t: nat, r: Option<State>)
    requires Shape(c, s) && t < c.threads
  {
    r.Some? ==> Shape(c, r.value) && r.value.threads == s.threads[t := r.value.threads[t]]
  }

  function SetThread(s: State, t: nat, th: Thread): State
    requires t < |s.threads|
  {
    s.(threads := s.threads[t := th])
  }

  /** Submit a transfer and go on to the given stage. */
  function Submit(s: State, t: nat, what: Transfer, stage: Stage): State
    requires t < |s.threads|
  {
    SetThread(s, t, s.threads[t].(stage := stage)).(dma := Copy(what, 0))
  }

  /** Wait for the transfer in flight, then go on. */
  function Await(c: Config, s: State, t: nat, stage: Stage): Option<State>
    requires t < |s.threads|
  {
    if DmaDone(c, s) then Some(SetThread(s, t, s.threads[t].(stage := stage)).(dma := Idle)) else None
  }

  /** Wait for the transfer in flight and store its status. */
  function AwaitStatus(c: Config, s: State, t: nat, stage: Stage): Option<State>
    requires t < |s.threads|
  {
    if DmaDone(c, s) then Some(SetThread(s, t, s.threads[t].(stage := stage)).(dma := Idle, status := Success)) else None
  }

  function Go(s: State, t: nat, stage: Stage): Option<State>
    requires t < |s.threads|
  {
    Some(SetThread(s, t, s.threads[t].(stage := stage)))
  }

  /** After these barriers every thread looks at the status word. */
  predicate ChecksStatus(pc: PC) {
    pc == LoadWeight || pc == Prime || (pc.Iter? && pc.phase == Store)
  }

  /** One action of thread t, or None while it is blocked; returning early because of a bad status counts as blocked. */
  function ThreadStep(c: Config, s: State, t: nat): (r: Option<State>)
    requires Shape(c, s) && t < c.threads
    ensures OnlyThread(c, s, t, r)
  {
    if s.threads[t].stage == Arrived then BarrierStep(c, s, t)
    else match s.threads[t].pc
      case LoadWeight => LoadStep(c, s, t)
      case Prime => PrimeStep(c, s, t)
      case Iter(k, Add) => AddStep(c, s, t, k)
      case Iter(k, Total) => TotalStep(c, s, t, k)
      case Iter(k, Normalize) => NormalizeStep(c, s, t, k)
      case Iter(k, Store) => StoreStep(c, s, t, k)
      case Final => Go(s, t, Arrived)
      case Done => None
  }

  function BarrierStep(c: Config, s: State, t: nat): (r: Option<State>)
    requires Shape(c, s) && t < c.threads
    ensures OnlyThread(c, s, t, r)
  {
    var pc := s.threads[t].pc;
    if pc != Done && AtBarrier(c, s, pc) && (ChecksStatus(pc) ==> s.status == Success)
    then Some(SetThread(s, t, Enter(t, NextPC(c, pc)))) else None
  }

  function LoadStep(c: Config, s: State, t: nat): (r: Option<State>)
    requires Shape(c, s) && t < c.threads
    ensures OnlyThread(c, s, t, r)
  {
    if t != 0 then Go(s, t, Arrived)
    else if s.threads[t].stage == Start then Some(Submit(s, t, WeightIn, WaitFirst))
    else AwaitStatus(c, s, t, Arrived)
  }

  /** Thread 0 loads the first row and leaves no valid prefetch handle. */
  function PrimeStep(c: Config, s: State, t: nat): (r: Option<State>)
    requires Shape(c, s) && t < c.threads
    ensures OnlyThread(c, s, t, r)
  {
    if t != 0 then Go(s, t, Arrived)
    else if !c.Has(0) then Some(SetThread(s, t, s.threads[t].(stage := Arrived)).(status := Success, prefetch := false))
    else match s.threads[t].stage
      case Start => Some(Submit(s, t, AttnIn(0, c.RowAt(0)), WaitFirst))
      case WaitFirst => AwaitStatus(c, s, t, Second)
      case Second =>
        if s.status == Success then Some(Submit(s, t, XIn(0, c.RowAt(0)), WaitSecond))
        else Some(SetThread(s, t, s.threads[t].(stage := Arrived)).(prefetch := false))
      case _ =>
        if DmaDone(c, s) then AwaitStatus(c, s.(prefetch := false), t, Arrived) else None
  }

  /** Thread 0 first prefetches the next row's attention part and leaves its x part in flight. */
  function AddStep(c: Config, s: State, t: nat, k: nat): (r: Option<State>)
    requires Shape(c, s) && t < c.threads
    ensures OnlyThread(c, s, t, r)
  {
    var th := s.threads[t];
    var next := Slot(k + 1);
    match th.stage
    case Start =>
      if c.Has(k + 1) then Some(Submit(s, t, AttnIn(next, c.RowAt(k + 1)), WaitFirst))
      else Some(SetThread(s, t, th.(stage := Work)).(prefetch := false))
    case WaitFirst => Await(c, s, t, Second)
    case Second => Some(Submit(s, t, XIn(next, c.RowAt(k + 1)), Work).(prefetch := true))
    case _ =>
      if !c.Has(k) then Go(s, t, Arrived)
      else if th.i < c.vlen then
        var sum := AddChunk(s.attnSlot[Slot(k)][th.i], s.xSlot[Slot(k)][th.i]);
        Some(SetThread(s, t, th.(i := th.i + c.threads, acc := th.acc + SumSquares(sum))).(outBuf := s.outBuf[th.i := sum]))
      else Some(SetThread(s, t, th.(stage := Arrived)).(partial := s.partial[t := th.acc]))
  }

  function TotalStep(c: Config, s: State, t: nat, k: nat): (r: Option<State>)
    requires Shape(c, s) && t < c.threads
    ensures OnlyThread(c, s, t, r)
  {
    var th := s.threads[t];
    if t != 0 || !c.Has(k) then Go(s, t, Arrived)
    else if th.i < c.threads then Some(SetThread(s, t, th.(i := th.i + 1, acc := th.acc + s.partial[th.i])))
    else Some(SetThread(s, t, th.(stage := Arrived)).(partial := s.partial[0 := c.invRms(th.acc)]))
  }

  function NormalizeStep(c: Config, s: State, t: nat, k: nat): (r: Option<State>)
    requires Shape(c, s) && t < c.threads
    ensures OnlyThread(c, s, t, r)
  {
    var th := s.threads[t];
    if !c.Has(k) then Go(s, t, Arrived)
    else if th.stage == Start then Some(SetThread(s, t, th.(stage := Work, inv := s.partial[0], i := t)))
    else if th.i < c.vlen then
      Some(SetThread(s, t, th.(i := th.i + c.threads)).(dstBuf := s.dstBuf[th.i := NormChunk(s.outBuf[th.i], th.inv, s.weightBuf[th.i])]))
    else Go(s, t, Arrived)
  }

  /** Thread 0 waits for the prefetch, then writes both results back. */
  function StoreStep(c: Config, s: State, t: nat, k: nat): (r: Option<State>)
    requires Shape(c, s) && t < c.threads
    ensures OnlyThread(c, s, t, r)
  {
    if t != 0 then Go(s, t, Arrived)
    else match s.threads[t].stage
      case Start => if s.prefetch then Await(c, s, t, Second) else Go(s, t, Second)
      case Second => if c.Has(k) && s.status == Success then Some(Submit(s, t, DstOut(c.RowAt(k)), WaitFirst)) else Go(s, t, Arrived)
      case WaitFirst => AwaitStatus(c, s, t, Third)
      case Third => if s.status == Success then Some(Submit(s, t, ResidualOut(c.RowAt(k)), WaitSecond)) else Go(s, t, Arrived)
      case _ => AwaitStatus(c, s, t, Arrived)
  }

  /** The DMA engine copies the next chunk of the transfer in flight. */
  function DmaStep(c: Config, s: State): Option<State>
    requires Shape(c, s)
  {
    if s.dma.Copy? && s.dma.pos < c.vlen && TransferOk(c, s.dma.what) then
      var p := s.dma.pos;
      var s1 := s.(dma := s.dma.(pos := p + 1));
      match s.dma.what
      case WeightIn => Some(s1.(weightBuf := s.weightBuf[p := c.weight[p]]))
      case AttnIn(b, r) => Some(s1.(attnSlot := s.attnSlot[b := s.attnSlot[b][p := c.attn[r][p]]]))
      case XIn(b, r) => Some(s1.(xSlot := s.xSlot[b := s.xSlot[b][p := c.x[r][p]]]))
      case DstOut(r) => Some(s1.(ddrDst := s.ddrDst[r := s.ddrDst[r][p := s.dstBuf[p]]]))
      case ResidualOut(r) => Some(s1.(ddrOut := s.ddrOut[r := s.ddrOut[r][p := s.outBuf[p]]]))
    else None
  }

  predicate TransferOk(c: Config, what: Transfer) {
    match what
    case WeightIn => true
    case AttnIn(b, r) => b < 2 && r < |c.attn|
    case XIn(b, r) => b < 2 && r < |c.attn|
    case DstOut(r) => r < |c.attn|
    case ResidualOut(r) => r < |c.attn|
  }

  datatype Agent = Worker(t: nat) | Engine

  function Step(c: Config, s: State, a: Agent): Option<State>
    requires Shape(c, s)
  {
    match a
    case Worker(t) => if t < c.threads then ThreadStep(c, s, t) else None
    case Engine => DmaStep(c, s)
  }

  ghost predicate Init(c: Config, s: State) {
    && Shape(c, s)
    && s.dma == Idle
    && s.ddrOut == c.ddrOut0 && s.ddrDst == c.ddrDst0
    && forall t :: 0 <= t < c.threads ==> s.threads[t] == Enter(t, LoadWeight)
  }

  /** Any interleaving of threads and DMA engine. */
  ghost predicate Run(c: Config, states: seq<State>, agents: seq<Agent>) {
    && |states| == |agents| + 1
    && Init(c, states[0])
    && (forall n :: 0 <= n < |states| ==> Shape(c, states[n]))
    && forall n :: 0 <= n < |agents| ==> Step(c, states[n], agents[n]) == Some(states[n + 1])
  }
}
