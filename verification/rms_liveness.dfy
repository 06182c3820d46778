/** Which memory the agents of the RMS-norm kernel touch at the same time, and termination. */
module RmsLiveness {
  import opened Wrappers
  import opened RmsKernel
  import opened RmsInvariant
  import opened RmsProof
  import opened RmsTheorems

  // ----- shared memory -----

  /** The cells of the memory that agents share. */
  datatype Place = AttnCell(slot: nat, i: nat) | XCell(slot: nat, i: nat) | WeightCell(i: nat) | OutCell(i: nat) | DstCell(i: nat)
    | PartialCell(t: nat) | DdrOutCell(r: nat, i: nat) | DdrDstCell(r: nat, i: nat) | StatusWord | Handle

  datatype Content = Nothing | Lanes(c: Chunk) | Number(r: real) | Word(status: Status) | Valid(valid: bool)

  function InRow(row: Row, i: nat): Content { if i < |row| then Lanes(row[i]) else Nothing }

  function InRows(rows: seq<Row>, r: nat, i: nat): Content { if r < |rows| then InRow(rows[r], i) else Nothing }

  /** What a cell holds. */
  function At(s: State, p: Place): Content {
    match p
    case AttnCell(b, i) => InRows(s.attnSlot, b, i)
    case XCell(b, i) => InRows(s.xSlot, b, i)
    case WeightCell(i) => InRow(s.weightBuf, i)
    case OutCell(i) => InRow(s.outBuf, i)
    case DstCell(i) => InRow(s.dstBuf, i)
    case PartialCell(t) => if t < |s.partial| then Number(s.partial[t]) else Nothing
    case DdrOutCell(r, i) => InRows(s.ddrOut, r, i)
    case DdrDstCell(r, i) => InRows(s.ddrDst, r, i)
    case StatusWord => Word(s.status)
    case Handle => Valid(s.prefetch)
  }

  /** The cell the engine's next chunk goes to. */
  function Target(what: Transfer, p: nat): Place {
    match what
    case WeightIn => WeightCell(p)
    case AttnIn(b, _) => AttnCell(b, p)
    case XIn(b, _) => XCell(b, p)
    case DstOut(r) => DdrDstCell(r, p)
    case ResidualOut(r) => DdrOutCell(r, p)
  }

  function Source(what: Transfer, p: nat): set<Place> {
    match what
    case DstOut(_) => {DstCell(p)}
    case ResidualOut(_) => {OutCell(p)}
    case _ => {}
  }

  predicate Copying(c: Config, s: State) { s.dma.Copy? && s.dma.pos < c.vlen && TransferOk(c, s.dma.what) }

  /** Cells the agent's next action writes. */
  function Writes(c: Config, s: State, a: Agent): set<Place> {
    match a
    case Engine => if Copying(c, s) then {Target(s.dma.what, s.dma.pos)} else {}
    case Worker(t) => if t < |s.threads| then WorkerWrites(c, s, t, s.threads[t]) else {}
  }

  function WorkerWrites(c: Config, s: State, t: nat, th: Thread): set<Place> {
    if th.stage == Arrived then {}
    else match th.pc
      case LoadWeight => if t == 0 && th.stage != Start then {StatusWord} else {}
      case Prime =>
        if t != 0 then {}
        else if !c.Has(0) then {StatusWord, Handle}
        else (match th.stage
          case Start => {}
          case WaitFirst => {StatusWord}
          case Second => if s.status == Success then {} else {Handle}
          case _ => {StatusWord, Handle})
      case Iter(k, Add) =>
        (match th.stage
          case Start => if c.Has(k + 1) then {} else {Handle}
          case WaitFirst => {}
          case Second => {Handle}
          case _ => if !c.Has(k) then {} else if th.i < c.vlen then {OutCell(th.i)} else {PartialCell(t)})
      case Iter(k, Total) => if t != 0 || !c.Has(k) || th.i < c.threads then {} else {PartialCell(0)}
      case Iter(k, Normalize) => if c.Has(k) && th.stage != Start && th.i < c.vlen then {DstCell(th.i)} else {}
      case Iter(k, Store) => if t == 0 && th.stage !in {Start, Second, Third} then {StatusWord} else {}
      case _ => {}
  }

  /** Cells the agent's next action reads; a thread held at a barrier reads nothing before it opens. */
  function Reads(c: Config, s: State, a: Agent): set<Place>
    requires c.cores > 0
  {
    match a
    case Engine => if Copying(c, s) then Source(s.dma.what, s.dma.pos) else {}
    case Worker(t) => if t < |s.threads| then WorkerReads(c, s, t, s.threads[t]) else {}
  }

  function WorkerReads(c: Config, s: State, t: nat, th: Thread): set<Place>
    requires c.cores > 0
  {
    if th.stage == Arrived then (if ChecksStatus(th.pc) && AtBarrier(c, s, th.pc) then {StatusWord} else {})
    else match th.pc
      case Prime => if t == 0 && c.Has(0) && th.stage == Second then {StatusWord} else {}
      case Iter(k, Add) =>
        if th.stage !in {Start, WaitFirst, Second} && c.Has(k) && th.i < c.vlen then {AttnCell(Slot(k), th.i), XCell(Slot(k), th.i)} else {}
      case Iter(k, Total) => if t == 0 && c.Has(k) && th.i < c.threads then {PartialCell(th.i)} else {}
      case Iter(k, Normalize) =>
        if !c.Has(k) then {}
        else if th.stage == Start then {PartialCell(0)}
        else if th.i < c.vlen then {OutCell(th.i), WeightCell(th.i)}
        else {}
      case Iter(k, Store) =>
        if t != 0 then {}
        else if th.stage == Start then {Handle}
        else if th.stage in {Second, Third} then {StatusWord}
        else {}
      case _ => {}
  }

  // ----- Writes and Reads are what the steps write and read -----

  /** An action changes no cell outside Writes. */
  lemma WritesCoverChanges(c: Config, s: State, a: Agent, s': State, p: Place)
    requires Shape(c, s) && Step(c, s, a) == Some(s') && p !in Writes(c, s, a)
    ensures At(s', p) == At(s, p)
  {
    match a
    case Engine => EngineChanges(c, s, s', p);
    case Worker(t) => WorkerChanges(c, s, t, s', p);
  }

  lemma EngineChanges(c: Config, s: State, s': State, p: Place)
    requires Shape(c, s) && DmaStep(c, s) == Some(s') && p != Target(s.dma.what, s.dma.pos)
    ensures At(s', p) == At(s, p)
  {
    if s.dma.what.DstOut? || s.dma.what.ResidualOut? {
      OutputChanges(c, s, s', p);
    } else {
      InputChanges(c, s, s', p);
    }
  }

  lemma InputChanges(c: Config, s: State, s': State, p: Place)
    requires Shape(c, s) && DmaStep(c, s) == Some(s') && p != Target(s.dma.what, s.dma.pos)
    requires !s.dma.what.DstOut? && !s.dma.what.ResidualOut?
    ensures At(s', p) == At(s, p)
  {
    match s.dma.what
    case WeightIn =>
    case AttnIn(b, r) => CellsKept(s.attnSlot, s'.attnSlot, b, s.dma.pos);
    case XIn(b, r) => CellsKept(s.xSlot, s'.xSlot, b, s.dma.pos);
  }

  lemma OutputChanges(c: Config, s: State, s': State, p: Place)
    requires Shape(c, s) && DmaStep(c, s) == Some(s') && p != Target(s.dma.what, s.dma.pos)
    requires s.dma.what.DstOut? || s.dma.what.ResidualOut?
    ensures At(s', p) == At(s, p)
  {
    match s.dma.what
    case DstOut(r) => CellsKept(s.ddrDst, s'.ddrDst, r, s.dma.pos);
    case ResidualOut(r) => CellsKept(s.ddrOut, s'.ddrOut, r, s.dma.pos);
  }

  lemma CellsKept(rows: seq<Row>, rows': seq<Row>, r: nat, i: nat)
    requires r < |rows| == |rows'| && |rows'[r]| == |rows[r]| && (forall q :: 0 <= q < |rows| && q != r ==> rows'[q] == rows[q])
    requires forall j :: 0 <= j < |rows[r]| && j != i ==> rows'[r][j] == rows[r][j]
    ensures forall q: nat, j: nat :: q != r || j != i ==> InRows(rows', q, j) == InRows(rows, q, j)
  {
  }

  lemma WorkerChanges(c: Config, s: State, t: nat, s': State, p: Place)
    requires Shape(c, s) && t < c.threads && ThreadStep(c, s, t) == Some(s') && p !in WorkerWrites(c, s, t, s.threads[t])
    ensures At(s', p) == At(s, p)
  {
    if s.threads[t].stage != Arrived {
      match s.threads[t].pc
      case Prime => PrimeChanges(c, s, t, s', p);
      case Iter(k, Add) => AddChanges(c, s, t, k, s', p);
      case Iter(k, Total) => TotalChanges(c, s, t, k, s', p);
      case Iter(k, Normalize) => NormalizeChanges(c, s, t, k, s', p);
      case Iter(k, Store) => StoreChanges(c, s, t, k, s', p);
      case _ =>
    }
  }

  lemma PrimeChanges(c: Config, s: State, t: nat, s': State, p: Place)
    requires Shape(c, s) && t < c.threads && s.threads[t].pc == Prime && s.threads[t].stage != Arrived
    requires PrimeStep(c, s, t) == Some(s') && p !in WorkerWrites(c, s, t, s.threads[t])
    ensures At(s', p) == At(s, p)
  {
  }

  lemma AddChanges(c: Config, s: State, t: nat, k: nat, s': State, p: Place)
    requires Shape(c, s) && t < c.threads && s.threads[t].pc == Iter(k, Add) && s.threads[t].stage != Arrived
    requires AddStep(c, s, t, k) == Some(s') && p !in WorkerWrites(c, s, t, s.threads[t])
    ensures At(s', p) == At(s, p)
  {
  }

  lemma TotalChanges(c: Config, s: State, t: nat, k: nat, s': State, p: Place)
    requires Shape(c, s) && t < c.threads && s.threads[t].pc == Iter(k, Total) && s.threads[t].stage != Arrived
    requires TotalStep(c, s, t, k) == Some(s') && p !in WorkerWrites(c, s, t, s.threads[t])
    ensures At(s', p) == At(s, p)
  {
  }

  lemma NormalizeChanges(c: Config, s: State, t: nat, k: nat, s': State, p: Place)
    requires Shape(c, s) && t < c.threads && s.threads[t].pc == Iter(k, Normalize) && s.threads[t].stage != Arrived
    requires NormalizeStep(c, s, t, k) == Some(s') && p !in WorkerWrites(c, s, t, s.threads[t])
    ensures At(s', p) == At(s, p)
  {
  }

  lemma StoreChanges(c: Config, s: State, t: nat, k: nat, s': State, p: Place)
    requires Shape(c, s) && t < c.threads && s.threads[t].pc == Iter(k, Store) && s.threads[t].stage != Arrived
    requires StoreStep(c, s, t, k) == Some(s') && p !in WorkerWrites(c, s, t, s.threads[t])
    ensures At(s', p) == At(s, p)
  {
  }

  /** Two states agree on what agent a can see: the threads, the transfer in flight and the cells it reads. */
  ghost predicate SameView(c: Config, s: State, r: State, a: Agent)
    requires c.cores > 0
  {
    && s.threads == r.threads && s.dma == r.dma
    && forall p :: p in Reads(c, s, a) ==> At(s, p) == At(r, p)
  }

  /** Both steps are possible or neither; they write the cells w alike and leave the same threads and transfer. */
  ghost predicate SameOutcome(o: Option<State>, q: Option<State>, w: set<Place>) {
    match (o, q)
    case (None, None) => true
    case (Some(s), Some(r)) => s.threads == r.threads && s.dma == r.dma && forall p :: p in w ==> At(s, p) == At(r, p)
    case _ => false
  }

  /** An action depends on no cell outside Reads. */
  lemma ReadsSuffice(c: Config, s: State, r: State, a: Agent)
    requires Shape(c, s) && Shape(c, r) && SameView(c, s, r, a)
    ensures Writes(c, s, a) == Writes(c, r, a)
    ensures SameOutcome(Step(c, s, a), Step(c, r, a), Writes(c, s, a))
  {
    match a
    case Engine =>
      if Copying(c, s) {
        EngineSame(c, s, r);
      }
    case Worker(t) =>
      if t < c.threads {
        WorkerSame(c, s, r, t);
      }
  }

  lemma EngineSame(c: Config, s: State, r: State)
    requires Shape(c, s) && Shape(c, r) && s.threads == r.threads && s.dma == r.dma && Copying(c, s)
    requires forall p :: p in Source(s.dma.what, s.dma.pos) ==> At(s, p) == At(r, p)
    ensures SameOutcome(DmaStep(c, s), DmaStep(c, r), {Target(s.dma.what, s.dma.pos)})
  {
    var i := s.dma.pos;
    match s.dma.what
    case DstOut(_) => assert At(s, DstCell(i)) == At(r, DstCell(i));
    case ResidualOut(_) => assert At(s, OutCell(i)) == At(r, OutCell(i));
    case _ =>
  }

  lemma WorkerSame(c: Config, s: State, r: State, t: nat)
    requires Shape(c, s) && Shape(c, r) && t < c.threads && SameView(c, s, r, Worker(t))
    ensures WorkerWrites(c, s, t, s.threads[t]) == WorkerWrites(c, r, t, s.threads[t])
    ensures SameOutcome(ThreadStep(c, s, t), ThreadStep(c, r, t), WorkerWrites(c, s, t, s.threads[t]))
  {
    var th := s.threads[t];
    assert forall p :: p in WorkerReads(c, s, t, th) ==> At(s, p) == At(r, p);
    if th.stage == Arrived {
      assert ChecksStatus(th.pc) && AtBarrier(c, s, th.pc) ==> At(s, StatusWord) == At(r, StatusWord);
    } else {
      match th.pc
      case Prime => PrimeSame(c, s, r, t);
      case Iter(_, _) => IterSame(c, s, r, t);
      case _ =>
    }
  }

  lemma IterSame(c: Config, s: State, r: State, t: nat)
    requires t < |s.threads| && Inside(c, s, r, t, s.threads[t].pc) && s.threads[t].pc.Iter?
    ensures WorkerWrites(c, s, t, s.threads[t]) == WorkerWrites(c, r, t, s.threads[t])
    ensures SameOutcome(ThreadStep(c, s, t), ThreadStep(c, r, t), WorkerWrites(c, s, t, s.threads[t]))
  {
    match s.threads[t].pc
    case Iter(k, Add) => AddSame(c, s, r, t, k);
    case Iter(k, Total) => TotalSame(c, s, r, t, k);
    case Iter(k, Normalize) => NormalizeSame(c, s, r, t, k);
    case Iter(k, Store) => StoreSame(c, s, r, t, k);
  }

  /** Thread t is inside a phase, and both states agree on the cells it reads there. */
  ghost predicate Inside(c: Config, s: State, r: State, t: nat, pc: PC) {
    && Shape(c, s) && Shape(c, r) && t < c.threads && s.threads == r.threads && s.dma == r.dma
    && s.threads[t].pc == pc && s.threads[t].stage != Arrived
    && forall p :: p in WorkerReads(c, s, t, s.threads[t]) ==> At(s, p) == At(r, p)
  }

  lemma PrimeSame(c: Config, s: State, r: State, t: nat)
    requires Inside(c, s, r, t, Prime)
    ensures WorkerWrites(c, s, t, s.threads[t]) == WorkerWrites(c, r, t, s.threads[t])
    ensures SameOutcome(PrimeStep(c, s, t), PrimeStep(c, r, t), WorkerWrites(c, s, t, s.threads[t]))
  {
    if t == 0 && c.Has(0) && s.threads[t].stage == Second {
      SecondSame(c, s, r);
    }
  }

  lemma SecondSame(c: Config, s: State, r: State)
    requires Inside(c, s, r, 0, Prime) && c.Has(0) && s.threads[0].stage == Second
    ensures s.status == r.status
    ensures SameOutcome(PrimeStep(c, s, 0), PrimeStep(c, r, 0), WorkerWrites(c, s, 0, s.threads[0]))
  {
    assert At(s, StatusWord) == At(r, StatusWord);
  }

  lemma AddSame(c: Config, s: State, r: State, t: nat, k: nat)
    requires Inside(c, s, r, t, Iter(k, Add))
    ensures SameOutcome(AddStep(c, s, t, k), AddStep(c, r, t, k), WorkerWrites(c, s, t, s.threads[t]))
  {
    var th := s.threads[t];
    if th.stage !in {Start, WaitFirst, Second} && c.Has(k) && th.i < c.vlen {
      SumSame(c, s, r, t, k);
    }
  }

  lemma SumSame(c: Config, s: State, r: State, t: nat, k: nat)
    requires Inside(c, s, r, t, Iter(k, Add))
    requires s.threads[t].stage !in {Start, WaitFirst, Second} && c.Has(k) && s.threads[t].i < c.vlen
    ensures SameOutcome(AddStep(c, s, t, k), AddStep(c, r, t, k), {OutCell(s.threads[t].i)})
  {
    var i := s.threads[t].i;
    assert Slot(k) < 2;
    assert s.attnSlot[Slot(k)][i] == r.attnSlot[Slot(k)][i] by {
      assert At(s, AttnCell(Slot(k), i)) == At(r, AttnCell(Slot(k), i));
    }
    assert s.xSlot[Slot(k)][i] == r.xSlot[Slot(k)][i] by {
      assert At(s, XCell(Slot(k), i)) == At(r, XCell(Slot(k), i));
    }
  }

  lemma TotalSame(c: Config, s: State, r: State, t: nat, k: nat)
    requires Inside(c, s, r, t, Iter(k, Total))
    ensures SameOutcome(TotalStep(c, s, t, k), TotalStep(c, r, t, k), WorkerWrites(c, s, t, s.threads[t]))
  {
    var th := s.threads[t];
    if t == 0 && c.Has(k) && th.i < c.threads {
      assert At(s, PartialCell(th.i)) == At(r, PartialCell(th.i));
    }
  }

  lemma NormalizeSame(c: Config, s: State, r: State, t: nat, k: nat)
    requires Inside(c, s, r, t, Iter(k, Normalize))
    ensures SameOutcome(NormalizeStep(c, s, t, k), NormalizeStep(c, r, t, k), WorkerWrites(c, s, t, s.threads[t]))
  {
    var th := s.threads[t];
    if c.Has(k) && th.stage == Start {
      assert At(s, PartialCell(0)) == At(r, PartialCell(0));
    } else if c.Has(k) && th.i < c.vlen {
      ScaleSame(c, s, r, t, k);
    }
  }

  lemma ScaleSame(c: Config, s: State, r: State, t: nat, k: nat)
    requires Inside(c, s, r, t, Iter(k, Normalize)) && c.Has(k) && s.threads[t].stage != Start && s.threads[t].i < c.vlen
    ensures SameOutcome(NormalizeStep(c, s, t, k), NormalizeStep(c, r, t, k), {DstCell(s.threads[t].i)})
  {
    var i := s.threads[t].i;
    assert At(s, OutCell(i)) == At(r, OutCell(i));
    assert At(s, WeightCell(i)) == At(r, WeightCell(i));
  }

  lemma StoreSame(c: Config, s: State, r: State, t: nat, k: nat)
    requires Inside(c, s, r, t, Iter(k, Store))
    ensures SameOutcome(StoreStep(c, s, t, k), StoreStep(c, r, t, k), WorkerWrites(c, s, t, s.threads[t]))
  {
    var th := s.threads[t];
    assert t == 0 && th.stage == Start ==> At(s, Handle) == At(r, Handle);
    assert t == 0 && th.stage in {Second, Third} ==> At(s, StatusWord) == At(r, StatusWord);
  }

  // ----- data races -----

  /** Cells that one agent's next action writes and the other's reads or writes. */
  function Shared(c: Config, s: State, a: Agent, b: Agent): set<Place>
    requires c.cores > 0
  {
    Writes(c, s, a) * (Reads(c, s, b) + Writes(c, s, b))
  }

  /** Thread 0 is priming slot 0 and about to store a status. */
  predicate PrimesStatus(c: Config, z: Thread) {
    z.pc == Prime && z.stage != Arrived && (!c.Has(0) || z.stage in {WaitFirst, WaitSecond})
  }

  /** Another thread has yet to look at the status of the weight copy. */
  predicate LagsBehind(th: Thread) { th.pc == LoadWeight && th.stage == Arrived }

  /** The only cell two threads' next actions share is the status word, just after the weight copy. */
  lemma WorkersShare(c: Config, s: State, t: nat, u: nat)
    requires Inv(c, s) && t < c.threads && u < c.threads && t != u
    ensures Shared(c, s, Worker(t), Worker(u))
         == if t == 0 && PrimesStatus(c, s.threads[0]) && LagsBehind(s.threads[u]) then {StatusWord} else {}
  {
    var z := s.threads[0];
    assert StageOk(c, t, s.threads[t]) && StageOk(c, u, s.threads[u]) && StageOk(c, 0, z);
    forall p | p in WorkerWrites(c, s, t, s.threads[t]) && p in WorkerReads(c, s, u, s.threads[u]) + WorkerWrites(c, s, u, s.threads[u])
      ensures p == StatusWord && t == 0 && PrimesStatus(c, z) && LagsBehind(s.threads[u])
    {
      if s.threads[t].pc == s.threads[u].pc {
        ApartTogether(c, s, t, u, p);
      } else {
        ApartOneAhead(c, s, t, u, p);
      }
    }
  }

  /** Threads at the same point share nothing: chunks and partial sums have owners, the rest belongs to thread 0. */
  lemma ApartTogether(c: Config, s: State, t: nat, u: nat, p: Place)
    requires Shape(c, s) && t < c.threads && u < c.threads && t != u && s.threads[t].pc == s.threads[u].pc
    requires StageOk(c, t, s.threads[t]) && StageOk(c, u, s.threads[u]) && s.threads[t].stage != Arrived
    requires s.status == Success || s.threads[0].pc == LoadWeight
    requires p in WorkerWrites(c, s, t, s.threads[t])
    ensures p !in WorkerReads(c, s, u, s.threads[u]) && p !in WorkerWrites(c, s, u, s.threads[u])
  {
    var pc := s.threads[t].pc;
    PCsDiffer(c, pc);
    assert !AtBarrier(c, s, pc);
  }

  /** One barrier apart, the thread behind has only the check after the barrier left. */
  lemma ApartOneAhead(c: Config, s: State, t: nat, u: nat, p: Place)
    requires Shape(c, s) && Synced(c, s) && t < c.threads && u < c.threads && s.threads[t].pc != s.threads[u].pc
    requires p in WorkerWrites(c, s, t, s.threads[t]) && StageOk(c, t, s.threads[t])
    requires p in WorkerReads(c, s, u, s.threads[u]) + WorkerWrites(c, s, u, s.threads[u])
    ensures p == StatusWord && t == 0 && PrimesStatus(c, s.threads[0]) && LagsBehind(s.threads[u])
  {
    assert s.threads[u].stage == Arrived && s.threads[t].pc == NextPC(c, s.threads[u].pc);
    assert p == StatusWord && ChecksStatus(s.threads[u].pc);
  }

  lemma EngineSharesNothing(c: Config, s: State, t: nat)
    requires Inv(c, s) && t < c.threads
    ensures Shared(c, s, Worker(t), Engine) == {} && Shared(c, s, Engine, Worker(t)) == {}
  {
    assert StageOk(c, t, s.threads[t]) && StageOk(c, 0, s.threads[0]);
    if Copying(c, s) {
      ReadsApart(c, s, t);
      WritesApart(c, s, t);
    }
  }

  /** What the engine writes no thread reads: a slot is loaded for the next row, results leave after the last read. */
  lemma WritesApart(c: Config, s: State, t: nat)
    requires Inv(c, s) && t < c.threads && Copying(c, s)
    requires StageOk(c, t, s.threads[t]) && StageOk(c, 0, s.threads[0])
    ensures Target(s.dma.what, s.dma.pos) !in WorkerReads(c, s, t, s.threads[t])
    ensures Target(s.dma.what, s.dma.pos) !in WorkerWrites(c, s, t, s.threads[t])
  {
    SlotsDiffer(IterOf(s.threads[0].pc));
  }

  /** What the engine reads no thread writes: all threads have finished the row. */
  lemma ReadsApart(c: Config, s: State, t: nat)
    requires Inv(c, s) && t < c.threads && Copying(c, s)
    requires StageOk(c, t, s.threads[t]) && StageOk(c, 0, s.threads[0])
    ensures Source(s.dma.what, s.dma.pos) !! WorkerWrites(c, s, t, s.threads[t])
  {
  }

  /** The store while priming writes the value that is there already. */
  lemma StatusRewritten(c: Config, s: State, s': State)
    requires Inv(c, s) && PrimesStatus(c, s.threads[0]) && Step(c, s, Worker(0)) == Some(s')
    ensures s.status == s'.status == Success
  {
  }

  /**
   In a reachable state the next actions of two agents touch a cell that one of them writes exactly when
   thread 0 stores a status while priming and the other has not yet looked at the status of the weight copy.
   That store writes SUCCESS over SUCCESS, so either order of the two actions has the same outcome.
   */
  lemma OnlyStatusRace(c: Config, states: seq<State>, agents: seq<Agent>, n: nat, a: Agent, b: Agent)
    requires Run(c, states, agents) && n < |states| && a != b
    ensures Shared(c, states[n], a, b) != {}
       <==> a == Worker(0) && b.Worker? && b.t < c.threads && PrimesStatus(c, states[n].threads[0]) && LagsBehind(states[n].threads[b.t])
    ensures Shared(c, states[n], a, b) <= {StatusWord}
    ensures forall s' :: Shared(c, states[n], a, b) != {} && Step(c, states[n], a) == Some(s') ==> s'.status == states[n].status == Success
  {
    RunHolds(c, states, agents, n);
    var s := states[n];
    match (a, b) {
      case (Worker(t), Worker(u)) =>
        if t < c.threads && u < c.threads {
          WorkersShare(c, s, t, u);
        }
      case (Worker(t), Engine) => if t < c.threads { EngineSharesNothing(c, s, t); }
      case (Engine, Worker(t)) => if t < c.threads { EngineSharesNothing(c, s, t); }
      case (Engine, Engine) =>
    }
    forall s' | Shared(c, s, a, b) != {} && Step(c, s, a) == Some(s')
      ensures s'.status == s.status == Success
    {
      StatusRewritten(c, s, s');
    }
  }

  // ----- every run ends -----

  function Above(n: nat, i: nat): nat { if i < n then n - i else 0 }

  /** Actions thread t has left in its phase. */
  function StageRank(c: Config, t: nat, th: Thread): nat {
    if th.stage == Arrived then 0
    else match th.pc
      case LoadWeight => if th.stage == Start then 2 else 1
      case Prime => (match th.stage case Start => 4 case WaitFirst => 3 case Second => 2 case _ => 1)
      case Iter(_, Add) =>
        if th.stage == Start then 4 + c.vlen else if th.stage == WaitFirst then 3 + c.vlen else if th.stage == Second then 2 + c.vlen
        else 1 + Above(c.vlen, th.i)
      case Iter(_, Total) => 1 + Above(c.threads, th.i)
      case Iter(_, Normalize) => if th.stage == Start then 2 + c.vlen else 1 + Above(c.vlen, th.i)
      case Iter(_, Store) =>
        (match th.stage case Start => 5 case Second => 4 case WaitFirst => 3 case Third => 2 case _ => 1)
      case Final => 1
      case Done => 0
  }

  function PhaseWidth(c: Config): nat { 6 + c.vlen + c.threads }

  function ThreadRank(c: Config, t: nat, th: Thread): int
    requires c.cores > 0
  {
    (Barriers(c, Done) - Barriers(c, th.pc)) * PhaseWidth(c) + StageRank(c, t, th)
  }

  function TotalRank(c: Config, threads: seq<Thread>, n: nat): int
    requires c.cores > 0 && n <= |threads|
  {
    if n == 0 then 0 else TotalRank(c, threads, n - 1) + ThreadRank(c, n - 1, threads[n - 1])
  }

  /** Work left in a state: threads first, then the chunks of the transfer in flight. */
  function Measure(c: Config, s: State): int
    requires c.cores > 0 && c.threads <= |s.threads|
  {
    TotalRank(c, s.threads, c.threads) * (c.vlen + 1) + DmaLeft(c, s)
  }

  lemma {:induction false} RankUpdate(c: Config, threads: seq<Thread>, t: nat, th: Thread, n: nat)
    requires c.cores > 0 && t < |threads| && n <= |threads|
    ensures TotalRank(c, threads[t := th], n)
         == TotalRank(c, threads, n) + if t < n then ThreadRank(c, t, th) - ThreadRank(c, t, threads[t]) else 0
    decreases n
  {
    if n > 0 {
      RankUpdate(c, threads, t, th, n - 1);
    }
  }

  lemma BarriersBound(c: Config, pc: PC)
    requires c.Ok() && (pc.Iter? ==> pc.k < c.Iters())
    ensures Barriers(c, pc) <= Barriers(c, Done)
  {
  }

  lemma ThreadRankNonNegative(c: Config, t: nat, th: Thread)
    requires c.Ok() && (th.pc.Iter? ==> th.pc.k < c.Iters())
    ensures ThreadRank(c, t, th) >= 0
  {
    BarriersBound(c, th.pc);
    assert (Barriers(c, Done) - Barriers(c, th.pc)) * PhaseWidth(c) >= 0;
  }

  lemma {:induction false} RankNonNegative(c: Config, threads: seq<Thread>, n: nat)
    requires c.Ok() && n <= |threads|
    requires forall t :: 0 <= t < |threads| && threads[t].pc.Iter? ==> threads[t].pc.k < c.Iters()
    ensures TotalRank(c, threads, n) >= 0
    decreases n
  {
    if n > 0 {
      RankNonNegative(c, threads, n - 1);
      ThreadRankNonNegative(c, n - 1, threads[n - 1]);
    }
  }

  lemma ThreadsRank(c: Config, s: State)
    requires Shape(c, s) && Synced(c, s)
    ensures TotalRank(c, s.threads, c.threads) >= 0
  {
    forall t | 0 <= t < c.threads && s.threads[t].pc.Iter?
      ensures s.threads[t].pc.k < c.Iters()
    {
      assert StageOk(c, t, s.threads[t]);
    }
    RankNonNegative(c, s.threads, c.threads);
  }

  lemma WorkerRank(c: Config, s: State, t: nat, s': State)
    requires Inv(c, s) && t < c.threads && ThreadStep(c, s, t) == Some(s')
    ensures Shape(c, s') && s'.threads == s.threads[t := s'.threads[t]]
    ensures ThreadRank(c, t, s'.threads[t]) <= ThreadRank(c, t, s.threads[t]) - 1
  {
    assert StageOk(c, t, s.threads[t]);
    assert OnlyThread(c, s, t, ThreadStep(c, s, t));
    if s.threads[t].stage == Arrived {
      BarrierSynced(c, s, s', t);
      BarrierRank(c, t, s.threads[t]);
    } else {
      WorkSynced(c, s, s', t);
      StageRankDrops(c, s, t, s');
    }
  }

  /** Passing a barrier is worth more than any phase. */
  lemma BarrierRank(c: Config, t: nat, th: Thread)
    requires c.Ok() && t < c.threads && StageOk(c, t, th) && th.stage == Arrived && th.pc != Done
    ensures ThreadRank(c, t, Enter(t, NextPC(c, th.pc))) <= ThreadRank(c, t, th) - 1
  {
    NextBarrier(c, th.pc);
    var left := Barriers(c, Done) - Barriers(c, th.pc);
    assert left * PhaseWidth(c) == (left - 1) * PhaseWidth(c) + PhaseWidth(c);
    assert StageRank(c, t, Enter(t, NextPC(c, th.pc))) < PhaseWidth(c);
  }

  lemma StageRankDrops(c: Config, s: State, t: nat, s': State)
    requires Shape(c, s) && t < c.threads && s.threads[t].stage != Arrived && StageOk(c, t, s.threads[t])
    requires ThreadStep(c, s, t) == Some(s') && |s'.threads| == c.threads
    ensures StageRank(c, t, s'.threads[t]) < StageRank(c, t, s.threads[t])
  {
    match s.threads[t].pc
    case Prime => PrimeRankDrops(c, s, t, s');
    case Iter(k, Add) => AddRankDrops(c, s, t, k, s');
    case Iter(k, Total) =>
    case Iter(k, Normalize) =>
    case Iter(k, Store) => StoreRankDrops(c, s, t, k, s');
    case _ =>
  }

  lemma PrimeRankDrops(c: Config, s: State, t: nat, s': State)
    requires Shape(c, s) && t < c.threads && s.threads[t].pc == Prime && s.threads[t].stage != Arrived && StageOk(c, t, s.threads[t])
    requires PrimeStep(c, s, t) == Some(s') && |s'.threads| == c.threads
    ensures StageRank(c, t, s'.threads[t]) < StageRank(c, t, s.threads[t])
  {
  }

  lemma AddRankDrops(c: Config, s: State, t: nat, k: nat, s': State)
    requires Shape(c, s) && t < c.threads && s.threads[t].pc == Iter(k, Add) && s.threads[t].stage != Arrived && StageOk(c, t, s.threads[t])
    requires AddStep(c, s, t, k) == Some(s') && |s'.threads| == c.threads
    ensures StageRank(c, t, s'.threads[t]) < StageRank(c, t, s.threads[t])
  {
  }

  lemma StoreRankDrops(c: Config, s: State, t: nat, k: nat, s': State)
    requires Shape(c, s) && t < c.threads && s.threads[t].pc == Iter(k, Store) && s.threads[t].stage != Arrived && StageOk(c, t, s.threads[t])
    requires StoreStep(c, s, t, k) == Some(s') && |s'.threads| == c.threads
    ensures StageRank(c, t, s'.threads[t]) < StageRank(c, t, s.threads[t])
  {
  }

  lemma Lexicographic(r: int, r': int, d: int, d': int, n: nat)
    requires 0 <= r' && 0 <= d <= n && 0 <= d' <= n
    requires r' < r || (r' == r && d' < d)
    ensures 0 <= r' * (n + 1) + d' < r * (n + 1) + d
  {
    assert (r - 1 - r') * (n + 1) >= 0 || r' == r;
    assert r' * (n + 1) >= 0;
  }

  function DmaLeft(c: Config, s: State): int { if s.dma.Copy? then c.vlen - s.dma.pos else 0 }

  lemma DmaLeftBound(c: Config, s: State)
    requires Inv(c, s)
    ensures 0 <= DmaLeft(c, s) <= c.vlen
  {
    assert StageOk(c, 0, s.threads[0]);
  }

  /** Every step of every agent leaves less to do. */
  lemma MeasureDrops(c: Config, s: State, a: Agent, s': State)
    requires Inv(c, s) && Step(c, s, a) == Some(s')
    ensures Inv(c, s') && 0 <= Measure(c, s') < Measure(c, s)
  {
    StepHolds(c, s, a, s');
    ThreadsRank(c, s');
    DmaLeftBound(c, s);
    DmaLeftBound(c, s');
    LessLeft(c, s, a, s');
    Lexicographic(TotalRank(c, s.threads, c.threads), TotalRank(c, s'.threads, c.threads), DmaLeft(c, s), DmaLeft(c, s'), c.vlen);
  }

  lemma LessLeft(c: Config, s: State, a: Agent, s': State)
    requires Inv(c, s) && Shape(c, s') && Step(c, s, a) == Some(s')
    ensures var r, r' := TotalRank(c, s.threads, c.threads), TotalRank(c, s'.threads, c.threads);
            r' < r || (r' == r && DmaLeft(c, s') < DmaLeft(c, s))
  {
    match a
    case Worker(t) =>
      WorkerRank(c, s, t, s');
      RankUpdate(c, s.threads, t, s'.threads[t], c.threads);
    case Engine => EngineShape(c, s, s');
  }

  /** No run is longer than the measure of its first state. */
  lemma {:induction false} RunsAreBounded(c: Config, states: seq<State>, agents: seq<Agent>, n: nat)
    requires Run(c, states, agents) && n < |states|
    ensures n + Measure(c, states[n]) <= Measure(c, states[0]) && Measure(c, states[n]) >= 0
    decreases n
  {
    if n > 0 {
      RunsAreBounded(c, states, agents, n - 1);
      RunHolds(c, states, agents, n - 1);
      MeasureDrops(c, states[n - 1], agents[n - 1], states[n]);
    } else {
      RunHolds(c, states, agents, 0);
      ThreadsRank(c, states[0]);
      DmaLeftBound(c, states[0]);
      Lexicographic(TotalRank(c, states[0].threads, c.threads) + 1, TotalRank(c, states[0].threads, c.threads),
                    DmaLeft(c, states[0]), DmaLeft(c, states[0]), c.vlen);
    }
  }

  /** A run that can go no further has finished: there is no deadlock, whatever the interleaving. */
  lemma MaximalRunFinishes(c: Config, states: seq<State>, agents: seq<Agent>)
    requires Run(c, states, agents)
    requires forall a :: Step(c, states[|agents|], a).None?
    ensures Finished(c, states[|agents|])
    ensures |agents| <= Measure(c, states[0])
  {
    RunHolds(c, states, agents, |agents|);
    RunsAreBounded(c, states, agents, |agents|);
    if !Finished(c, states[|agents|]) {
      var a := SomeoneMoves(c, states[|agents|]);
    }
  }
}
