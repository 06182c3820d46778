/**
 The producer at its finest grain: between two chunks of a running batch other threads complete exec objects of
 earlier batches one at a time, and each of them is free before its context bucket is cleared.
 */
module ExecInterleaving {
  import opened ExecModel

  /** Between batches, or inside one whose chunks run with `chosen` and of which `left` are still to be submitted. */
  datatype Phase = Idle | Running(chosen: nat, left: nat)

  /**
   `s.bucket` is the table of active buckets.  `stale` are exec objects that have been returned but whose entry has
   not been cleared yet; `runs` is the bucket each exec object was last submitted with.
   */
  datatype Fine = Fine(s: Slots, phase: Phase, stale: multiset<nat>, runs: map<nat, nat>)

  /** The main thread begins a batch or submits a chunk; whoever waits for a batch returns, clears and marks. */
  datatype Action = Begin(own: nat, chunks: nat) | NextChunk | Return(b: nat) | Clear(e: nat) | Mark(b: nat)

  /** A batch that others may wait for: the running one has no output yet. */
  predicate Awaitable(f: Fine, b: nat) {
    b < |f.s.queues| && (f.phase.Running? ==> b + 1 < |f.s.queues|)
  }

  predicate Allowed(f: Fine, a: Action) {
    match a
    case Begin(_, chunks) => f.phase.Idle? && chunks > 0 && f.s.free != []
    case NextChunk => f.phase.Running? && f.phase.left > 0
    case Return(b) => Awaitable(f, b) && f.s.queues[b] != []
    case Clear(e) => e in f.stale
    case Mark(b) => Awaitable(f, b) && f.s.queues[b] == []
  }

  datatype Result = Halted | To(f: Fine)

  /** The oldest exec object of batch b is free again; its bucket is still on record. */
  function ReturnOne(s: Slots, b: nat): Slots
    requires b < |s.queues| && s.queues[b] != []
  {
    s.(free := s.free + [s.queues[b][0]], queues := s.queues[b := s.queues[b][1..]])
  }

  /** The exec object the next chunk runs on. */
  function NextExec(s: Slots): nat
    requires s.queues != [] && (s.free != [] || s.queues[Last(s)] != [])
  {
    if s.free == [] then s.queues[Last(s)][0] else s.free[0]
  }

  /** Halted: a chunk waits for its own batch's empty queue. */
  function Act(f: Fine, a: Action): Result
    requires Allowed(f, a)
  {
    match a
    case Begin(own, chunks) =>
      var t := NewBatch(f.s);
      To(f.(s := t, phase := Running(ChosenBucket(own, t), chunks)))
    case NextChunk =>
      if f.s.queues != [] && (f.s.free != [] || f.s.queues[Last(f.s)] != []) then
        var left, chosen := f.phase.left - 1, f.phase.chosen;
        To(f.(s := Chunk(f.s, chosen), phase := if left == 0 then Idle else Running(chosen, left), runs := f.runs[NextExec(f.s) := chosen]))
      else Halted
    case Return(b) => To(f.(s := ReturnOne(f.s, b), stale := f.stale + multiset{f.s.queues[b][0]}))
    case Clear(e) => To(f.(s := f.s.(bucket := f.s.bucket[e := 0]), stale := f.stale - multiset{e}))
    case Mark(b) => To(f.(s := f.s.(cached := f.s.cached + {b})))
  }

  // ----- placement, whatever the interleaving -----

  ghost predicate FineInv(f: Fine) {
    && Placed(f.s) && CanProceed(f.s)
    && (forall e: nat :: e in f.s.bucket ==> e < f.s.count) && (forall e: nat :: e in f.stale ==> e < f.s.count)
    && (f.phase.Running? ==> f.phase.left > 0 && f.s.queues != [])
  }

  lemma ReturnPlaced(s: Slots, b: nat)
    requires Placed(s) && b < |s.queues| && s.queues[b] != []
    ensures s.queues[b][0] < s.count && s.queues[b][0] !in InFlight(ReturnOne(s, b).queues) && Placed(ReturnOne(s, b))
  {
    CompletePlaced(s, b);
    assert ReturnOne(s, b).queues == CompleteOne(s, b).queues && ReturnOne(s, b).free == CompleteOne(s, b).free;
  }

  /** What a chunk does to the queues: its exec object leaves wherever it was and is the newest in flight. */
  lemma ChunkPlaced(s: Slots, chosen: nat)
    requires Placed(s) && CanProceed(s) && s.queues != []
    ensures Placed(Chunk(s, chosen)) && CanProceed(Chunk(s, chosen)) && NextExec(s) < s.count
    ensures var older := if s.free == [] then InFlight(CompleteOne(s, Last(s)).queues) else InFlight(s.queues);
            InFlight(Chunk(s, chosen).queues) == older + [NextExec(s)] && NextExec(s) !in older
  {
    if s.free == [] {
      var t := CompleteOne(s, Last(s));
      CompletePlaced(s, Last(s));
      assert t.free[0] == NextExec(s);
      TakePlaced(t, chosen);
    } else {
      TakePlaced(s, chosen);
    }
  }

  lemma NewBatchPlaced(s: Slots)
    requires Placed(s)
    ensures InFlight(NewBatch(s).queues) == InFlight(s.queues) && Placed(NewBatch(s))
  {
    assert (s.queues + [[]])[..|s.queues|] == s.queues;
  }

  /** No allowed action ever halts, and each keeps every exec object in one place. */
  lemma ActHolds(f: Fine, a: Action)
    requires FineInv(f) && Allowed(f, a)
    ensures Act(f, a).To? && FineInv(Act(f, a).f) && Act(f, a).f.s.count == f.s.count
  {
    match a
    case Begin(own, chunks) => NewBatchPlaced(f.s);
    case NextChunk => ChunkInv(f);
    case Return(b) => ReturnInv(f, b);
    case Clear(e) =>
    case Mark(b) =>
  }

  lemma ChunkInv(f: Fine)
    requires FineInv(f) && Allowed(f, NextChunk)
    ensures Act(f, NextChunk).To? && FineInv(Act(f, NextChunk).f) && Act(f, NextChunk).f.s.count == f.s.count
  {
    ChunkPlaced(f.s, f.phase.chosen);
    ChunkBucket(f.s, f.phase.chosen);
  }

  /** A chunk overwrites the entry of its exec object and no other. */
  lemma ChunkBucket(s: Slots, chosen: nat)
    requires CanProceed(s) && s.queues != []
    ensures Chunk(s, chosen).bucket == s.bucket[NextExec(s) := chosen] && Chunk(s, chosen).count == s.count
  {
  }

  lemma ReturnInv(f: Fine, b: nat)
    requires FineInv(f) && Allowed(f, Return(b))
    ensures FineInv(Act(f, Return(b)).f)
  {
    ReturnPlaced(f.s, b);
  }

  // ----- every interleaving -----

  function Start(count: nat): Fine { Fine(Initial(count), Idle, multiset{}, Initial(count).bucket) }

  ghost predicate Run(count: nat, actions: seq<Action>, fs: seq<Fine>) {
    && |fs| == |actions| + 1
    && fs[0] == Start(count)
    && forall n :: 0 <= n < |actions| ==> RunStep(actions, fs, n)
  }

  ghost predicate RunStep(actions: seq<Action>, fs: seq<Fine>, n: nat)
    requires n < |actions| && |fs| == |actions| + 1
  {
    Allowed(fs[n], actions[n]) && Act(fs[n], actions[n]) == To(fs[n + 1])
  }

  lemma {:induction false} RunHolds(count: nat, actions: seq<Action>, fs: seq<Fine>, n: nat)
    requires count > 0 && Run(count, actions, fs) && n <= |actions|
    ensures FineInv(fs[n]) && fs[n].s.count == count
  {
    if n == 0 {
      InitialHolds(count);
    } else {
      RunHolds(count, actions, fs, n - 1);
      assert RunStep(actions, fs, n - 1);
      ActHolds(fs[n - 1], actions[n - 1]);
    }
  }

  /**
   Whatever the other threads do, a running batch can always submit its next chunk; between batches an exec object
   is free, or the latest batch has one to return.
   */
  lemma NeverBlocked(count: nat, actions: seq<Action>, fs: seq<Fine>)
    requires count > 0 && Run(count, actions, fs)
    ensures var f := fs[|actions|];
            && (f.phase.Running? ==> Allowed(f, NextChunk) && Act(f, NextChunk).To?)
            && (f.phase.Idle? && f.s.free == [] ==> f.s.queues != [] && Allowed(f, Return(Last(f.s))))
            && (f.phase.Idle? && f.s.free != [] ==> forall own: nat, chunks: nat :: chunks > 0 ==> Allowed(f, Begin(own, chunks)))
  {
    RunHolds(count, actions, fs, |actions|);
    if fs[|actions|].phase.Running? {
      ActHolds(fs[|actions|], NextChunk);
    }
  }

  /** In every state of every interleaving each exec object is free or pending in exactly one batch. */
  lemma InterleavedSafe(count: nat, actions: seq<Action>, fs: seq<Fine>, n: nat)
    requires count > 0 && Run(count, actions, fs) && n <= |actions|
    ensures forall e: nat :: multiset(fs[n].s.free)[e] + multiset(InFlight(fs[n].s.queues))[e] == if e < count then 1 else 0
  {
    RunHolds(count, actions, fs, n);
    PlacedOnce(fs[n].s);
  }

  // ----- the order of buckets -----

  /** The table of active buckets is right about everything in flight. */
  ghost predicate RecordsRight(f: Fine) {
    forall e :: e in InFlight(f.s.queues) ==> e in f.runs && e in f.s.bucket && f.s.bucket[e] == f.runs[e]
  }

  /** A clear comes in time if its exec object has not been taken again, or runs with no bucket anyway. */
  ghost predicate InTime(f: Fine, a: Action) {
    a.Clear? ==> a.e !in InFlight(f.s.queues) || (a.e in f.runs && f.runs[a.e] == 0)
  }

  /** One action keeps the records right exactly when it is not a clear that comes too late. */
  lemma RecordsStayIff(f: Fine, a: Action)
    requires FineInv(f) && Allowed(f, a) && Act(f, a).To? && RecordsRight(f)
    ensures RecordsRight(Act(f, a).f) <==> InTime(f, a)
  {
    match a
    case Begin(own, chunks) => NewBatchPlaced(f.s);
    case NextChunk => ChunkRecords(f);
    case Return(b) => ReturnRecords(f, b);
    case Clear(e) =>
    case Mark(b) =>
  }

  /** A popped queue leaves a part of what was in flight. */
  lemma PopSubset(queues: seq<seq<nat>>, b: nat)
    requires b < |queues| && queues[b] != []
    ensures forall e :: e in InFlight(queues[b := queues[b][1..]]) ==> e in InFlight(queues)
  {
    var k := PopPlace(queues, b);
  }

  lemma ReturnRecords(f: Fine, b: nat)
    requires FineInv(f) && Allowed(f, Return(b)) && RecordsRight(f)
    ensures RecordsRight(Act(f, Return(b)).f)
  {
    PopSubset(f.s.queues, b);
  }

  lemma ChunkRecords(f: Fine)
    requires FineInv(f) && Allowed(f, NextChunk) && Act(f, NextChunk).To? && RecordsRight(f)
    ensures RecordsRight(Act(f, NextChunk).f)
  {
    var s, chosen := f.s, f.phase.chosen;
    ChunkPlaced(s, chosen);
    ChunkBucket(s, chosen);
    var older := if s.free == [] then InFlight(CompleteOne(s, Last(s)).queues) else InFlight(s.queues);
    if s.free == [] {
      PopSubset(s.queues, Last(s));
    }
    RecordsWithNewest(older, s.bucket, f.runs, NextExec(s), chosen);
  }

  lemma RecordsWithNewest(older: seq<nat>, bucket: map<nat, nat>, runs: map<nat, nat>, e: nat, chosen: nat)
    requires e !in older && forall d :: d in older ==> d in runs && d in bucket && bucket[d] == runs[d]
    ensures var bucket', runs' := bucket[e := chosen], runs[e := chosen];
            forall d :: d in older + [e] ==> d in runs' && d in bucket' && bucket'[d] == runs'[d]
  {
  }

  /** Over a run the records are right in every state exactly when every clear comes in time. */
  lemma RecordsRightIff(count: nat, actions: seq<Action>, fs: seq<Fine>)
    requires count > 0 && Run(count, actions, fs)
    ensures (forall n :: 0 <= n <= |actions| ==> RecordsRight(fs[n])) <==> (forall n :: 0 <= n < |actions| ==> InTime(fs[n], actions[n]))
  {
    if forall n :: 0 <= n < |actions| ==> InTime(fs[n], actions[n]) {
      forall n | 0 <= n <= |actions|
        ensures RecordsRight(fs[n])
      {
        InTimeSoFar(count, actions, fs, n);
      }
    }
    if forall n :: 0 <= n <= |actions| ==> RecordsRight(fs[n]) {
      forall n | 0 <= n < |actions|
        ensures InTime(fs[n], actions[n])
      {
        RunHolds(count, actions, fs, n);
        assert RunStep(actions, fs, n) && RecordsRight(fs[n]) && RecordsRight(fs[n + 1]);
        RecordsStayIff(fs[n], actions[n]);
      }
    }
  }

  lemma {:induction false} InTimeSoFar(count: nat, actions: seq<Action>, fs: seq<Fine>, n: nat)
    requires count > 0 && Run(count, actions, fs) && n <= |actions|
    requires forall m :: 0 <= m < n ==> InTime(fs[m], actions[m])
    ensures RecordsRight(fs[n])
    decreases n
  {
    if n > 0 {
      var m := n - 1;
      InTimeSoFar(count, actions, fs, m);
      RunHolds(count, actions, fs, m);
      assert RunStep(actions, fs, m);
      NextRecords(fs[m], actions[m], fs[n]);
    }
  }

  lemma NextRecords(f: Fine, a: Action, g: Fine)
    requires FineInv(f) && RecordsRight(f) && Goes(f, a, g) && InTime(f, a)
    ensures RecordsRight(g)
  {
    RecordsStayIff(f, a);
  }

  /** With the records right, nothing in flight runs with more than the chosen bucket, and buckets do not decrease. */
  ghost predicate Ordered(f: Fine) {
    && NonDecreasing(InFlight(f.s.queues), f.runs)
    && (f.phase.Running? ==> forall e :: e in InFlight(f.s.queues) && e in f.runs ==> f.runs[e] <= f.phase.chosen)
  }

  lemma OrderedNext(f: Fine, a: Action)
    requires FineInv(f) && RecordsRight(f) && Ordered(f) && Allowed(f, a) && Act(f, a).To?
    ensures Ordered(Act(f, a).f)
  {
    match a
    case Begin(own, chunks) => BeginOrdered(f, own, chunks);
    case NextChunk => ChunkOrdered(f);
    case Return(b) => ReturnOrdered(f, b);
    case Clear(e) =>
    case Mark(b) =>
  }

  lemma BeginOrdered(f: Fine, own: nat, chunks: nat)
    requires FineInv(f) && RecordsRight(f) && Ordered(f) && Allowed(f, Begin(own, chunks))
    ensures Ordered(Act(f, Begin(own, chunks)).f)
  {
    NewBatchPlaced(f.s);
    PlacedOnce(f.s);
    assert forall e :: e in InFlight(f.s.queues) ==> 0 <= e < f.s.count && f.s.bucket[e] <= MaxBucket(f.s.bucket, f.s.count);
  }

  /** Taking one exec object out of the submission order leaves the others in order. */
  lemma PopOrdered(queues: seq<seq<nat>>, b: nat, runs: map<nat, nat>)
    requires b < |queues| && queues[b] != [] && NonDecreasing(InFlight(queues), runs)
    ensures NonDecreasing(InFlight(queues[b := queues[b][1..]]), runs)
  {
    var k := PopPlace(queues, b);
    var order, order' := InFlight(queues), InFlight(queues[b := queues[b][1..]]);
    assert forall i :: 0 <= i < |order'| ==> order'[i] == order[if i < k then i else i + 1];
  }

  lemma ReturnOrdered(f: Fine, b: nat)
    requires FineInv(f) && Ordered(f) && Allowed(f, Return(b))
    ensures Ordered(Act(f, Return(b)).f)
  {
    PopOrdered(f.s.queues, b, f.runs);
    PopSubset(f.s.queues, b);
  }

  lemma ChunkOrdered(f: Fine)
    requires FineInv(f) && Ordered(f) && Allowed(f, NextChunk) && Act(f, NextChunk).To?
    ensures Ordered(Act(f, NextChunk).f)
  {
    var s, chosen := f.s, f.phase.chosen;
    ChunkPlaced(s, chosen);
    var older := if s.free == [] then InFlight(CompleteOne(s, Last(s)).queues) else InFlight(s.queues);
    if s.free == [] {
      PopOrdered(s.queues, Last(s), f.runs);
      PopSubset(s.queues, Last(s));
    }
    NewestLargest(older, f.runs, NextExec(s), chosen);
  }

  lemma NewestLargest(older: seq<nat>, runs: map<nat, nat>, e: nat, chosen: nat)
    requires NonDecreasing(older, runs) && e !in older && forall d :: d in older && d in runs ==> runs[d] <= chosen
    ensures NonDecreasing(older + [e], runs[e := chosen])
    ensures forall d :: d in older + [e] && d in runs[e := chosen] ==> runs[e := chosen][d] <= chosen
  {
    forall i | 0 <= i < |older|
      ensures older[i] != e
    {
      assert older[i] in older;
    }
  }

  /** As long as every clear has come in time, chunks in flight run with non-decreasing buckets in submission order. */
  lemma {:induction false} OrderedSoFar(count: nat, actions: seq<Action>, fs: seq<Fine>, n: nat)
    requires count > 0 && Run(count, actions, fs) && n <= |actions|
    requires forall m :: 0 <= m < n ==> InTime(fs[m], actions[m])
    ensures Ordered(fs[n])
    decreases n
  {
    if n > 0 {
      OrderedSoFar(count, actions, fs, n - 1);
      InTimeSoFar(count, actions, fs, n - 1);
      RunHolds(count, actions, fs, n - 1);
      assert RunStep(actions, fs, n - 1);
      OrderedNext(fs[n - 1], actions[n - 1]);
    }
  }

  // ----- a clear that comes too late -----

  lemma MaxOfTwo(bucket: map<nat, nat>)
    requires 0 in bucket && 1 in bucket
    ensures MaxBucket(bucket, 2) == if bucket[0] >= bucket[1] then bucket[0] else bucket[1]
  {
    assert MaxBucket(bucket, 1) == bucket[0];
  }

  /** A state of two exec objects. */
  function Two(free: seq<nat>, queues: seq<seq<nat>>, b0: nat, b1: nat, phase: Phase, stale: multiset<nat>, r0: nat, r1: nat): Fine {
    Fine(Slots(2, free, queues, map[0 := b0, 1 := b1], {}), phase, stale, map[0 := r0, 1 := r1])
  }

  ghost predicate Replaced(queues: seq<seq<nat>>, queues': seq<seq<nat>>, b: nat, q: seq<nat>) {
    b < |queues| == |queues'| && queues'[b] == q && forall i :: 0 <= i < |queues| && i != b ==> queues'[i] == queues[i]
  }

  lemma ReplacedIs(queues: seq<seq<nat>>, queues': seq<seq<nat>>, b: nat, q: seq<nat>)
    requires Replaced(queues, queues', b, q)
    ensures queues' == queues[b := q]
  {
  }

  ghost predicate Goes(f: Fine, a: Action, g: Fine) { Allowed(f, a) && Act(f, a) == To(g) }

  lemma Begins(free: seq<nat>, queues: seq<seq<nat>>, b0: nat, b1: nat, stale: multiset<nat>, r0: nat, r1: nat, own: nat, chunks: nat, chosen: nat)
    requires free != [] && chunks > 0 && chosen >= own && chosen >= b0 && chosen >= b1 && chosen in {own, b0, b1}
    ensures Goes(Two(free, queues, b0, b1, Idle, stale, r0, r1), Begin(own, chunks),
                 Two(free, queues + [[]], b0, b1, Running(chosen, chunks), stale, r0, r1))
  {
    MaxOfTwo(map[0 := b0, 1 := b1]);
  }

  lemma Submits(free: seq<nat>, queues: seq<seq<nat>>, b0: nat, b1: nat, stale: multiset<nat>, r0: nat, r1: nat, chosen: nat, left: nat,
                free': seq<nat>, queues': seq<seq<nat>>)
    requires free != [] && free[0] < 2 && free[1..] == free' && queues != [] && left > 0
    requires Replaced(queues, queues', |queues| - 1, queues[|queues| - 1] + [free[0]])
    ensures var e := free[0];
            Goes(Two(free, queues, b0, b1, Running(chosen, left), stale, r0, r1), NextChunk,
                 Two(free', queues', if e == 0 then chosen else b0, if e == 1 then chosen else b1,
                     if left == 1 then Idle else Running(chosen, left - 1), stale, if e == 0 then chosen else r0, if e == 1 then chosen else r1))
  {
    ReplacedIs(queues, queues', |queues| - 1, queues[|queues| - 1] + [free[0]]);
  }

  lemma Returns(free: seq<nat>, queues: seq<seq<nat>>, b0: nat, b1: nat, stale: multiset<nat>, r0: nat, r1: nat, b: nat, queues': seq<seq<nat>>)
    requires b < |queues| && queues[b] != [] && Replaced(queues, queues', b, queues[b][1..])
    ensures Goes(Two(free, queues, b0, b1, Idle, stale, r0, r1), Return(b),
                 Two(free + [queues[b][0]], queues', b0, b1, Idle, stale + multiset{queues[b][0]}, r0, r1))
  {
    ReplacedIs(queues, queues', b, queues[b][1..]);
  }

  lemma Clears(free: seq<nat>, queues: seq<seq<nat>>, b0: nat, b1: nat, stale: multiset<nat>, r0: nat, r1: nat, e: nat)
    requires e in stale && e < 2
    ensures Goes(Two(free, queues, b0, b1, Idle, stale, r0, r1), Clear(e),
                 Two(free, queues, if e == 0 then 0 else b0, if e == 1 then 0 else b1, Idle, stale - multiset{e}, r0, r1))
  {
  }

  /**
   Two exec objects, three batches.  The first batch's exec object 0 is returned, the second batch runs on both with
   bucket 7, and only then is 0 cleared; once 1 is back, the third batch finds nothing on record and runs on it with
   bucket 1, although the chunk before it is still running with 7.
   */
  lemma LateClearExample() returns (actions: seq<Action>, fs: seq<Fine>)
    ensures Run(2, actions, fs) && !NonDecreasing(InFlight(fs[|actions|].s.queues), fs[|actions|].runs)
  {
    var a1, f1 := FirstRuns();
    var a2, f2 := SecondRuns();
    var a3, f3 := ThirdRuns();
    actions, fs := a1 + a2, f1[..|a1|] + f2;
    Joined(a1, f1, a2, f2);
    Joined(actions, fs, a3, f3);
    actions, fs := actions + a3, fs[..|actions|] + f3;
    var last := fs[|actions|];
    assert last == f3[|a3|];
    InFlightThree([], [0], [1]);
    var order := InFlight(last.s.queues);
    assert order == [0, 1] && order[0] == 0 && order[1] == 1;
    assert last.runs[0] == 7 && last.runs[1] == 1;
  }

  lemma InFlightThree(a: seq<nat>, b: seq<nat>, c: seq<nat>)
    ensures InFlight([a, b, c]) == a + b + c
  {
    assert [a, b, c][..2] == [a, b] && [a, b][..1] == [a] && [a][..0] == [];
    assert InFlight([a]) == [] + a == a;
    assert InFlight([a, b]) == a + b;
  }

  ghost predicate Steps(actions: seq<Action>, fs: seq<Fine>) {
    |fs| == |actions| + 1 && forall n :: 0 <= n < |actions| ==> RunStep(actions, fs, n)
  }

  lemma Joined(a1: seq<Action>, f1: seq<Fine>, a2: seq<Action>, f2: seq<Fine>)
    requires Steps(a1, f1) && Steps(a2, f2) && f1[|a1|] == f2[0]
    ensures Steps(a1 + a2, f1[..|a1|] + f2)
  {
    var actions, fs := a1 + a2, f1[..|a1|] + f2;
    forall n | 0 <= n < |actions|
      ensures RunStep(actions, fs, n)
    {
      if n < |a1| {
        assert RunStep(a1, f1, n);
        assert fs[n + 1] == f1[n + 1];
      } else {
        assert RunStep(a2, f2, n - |a1|);
      }
    }
  }

  lemma ThreeSteps(a: Action, b: Action, c: Action, f: Fine, g: Fine, h: Fine, i: Fine)
    requires Goes(f, a, g) && Goes(g, b, h) && Goes(h, c, i)
    ensures Steps([a, b, c], [f, g, h, i])
  {
  }

  /** The first batch runs on exec object 0, which is returned. */
  lemma FirstRuns() returns (actions: seq<Action>, fs: seq<Fine>)
    ensures Steps(actions, fs) && fs[0] == Start(2) && fs[|actions|] == Two([1, 0], [[]], 5, 0, Idle, multiset{0}, 5, 0)
  {
    var none: multiset<nat> := multiset{};
    StartOfTwo();
    Begins([0, 1], [], 0, 0, none, 0, 0, 5, 1, 5);
    Submits([0, 1], [[]], 0, 0, none, 0, 0, 5, 1, [1], [[0]]);
    Returns([1], [[0]], 5, 0, none, 5, 0, 0, [[]]);
    actions := [Begin(5, 1), NextChunk, Return(0)];
    fs := [Two([0, 1], [], 0, 0, Idle, none, 0, 0), Two([0, 1], [[]], 0, 0, Running(5, 1), none, 0, 0),
           Two([1], [[0]], 5, 0, Idle, none, 5, 0), Two([1, 0], [[]], 5, 0, Idle, multiset{0}, 5, 0)];
    ThreeSteps(actions[0], actions[1], actions[2], fs[0], fs[1], fs[2], fs[3]);
  }

  /** The second batch runs on both with bucket 7. */
  lemma SecondRuns() returns (actions: seq<Action>, fs: seq<Fine>)
    ensures Steps(actions, fs) && fs[0] == Two([1, 0], [[]], 5, 0, Idle, multiset{0}, 5, 0)
    ensures fs[|actions|] == Two([], [[], [1, 0]], 7, 7, Idle, multiset{0}, 7, 7)
  {
    Begins([1, 0], [[]], 5, 0, multiset{0}, 5, 0, 7, 2, 7);
    Submits([1, 0], [[], []], 5, 0, multiset{0}, 5, 0, 7, 2, [0], [[], [1]]);
    Submits([0], [[], [1]], 5, 7, multiset{0}, 5, 7, 7, 1, [], [[], [1, 0]]);
    actions := [Begin(7, 2), NextChunk, NextChunk];
    fs := [Two([1, 0], [[]], 5, 0, Idle, multiset{0}, 5, 0), Two([1, 0], [[], []], 5, 0, Running(7, 2), multiset{0}, 5, 0),
           Two([0], [[], [1]], 5, 7, Running(7, 1), multiset{0}, 5, 7), Two([], [[], [1, 0]], 7, 7, Idle, multiset{0}, 7, 7)];
    ThreeSteps(actions[0], actions[1], actions[2], fs[0], fs[1], fs[2], fs[3]);
  }

  lemma StartOfTwo()
    ensures Start(2) == Two([0, 1], [], 0, 0, Idle, multiset{}, 0, 0)
  {
    IdsBelow(2);
    assert Ids(2) == [0, 1];
  }

  /** The late clear and the return of 1, after which nothing is on record; the third batch then runs with bucket 1. */
  lemma ThirdRuns() returns (actions: seq<Action>, fs: seq<Fine>)
    ensures Steps(actions, fs) && fs[0] == Two([], [[], [1, 0]], 7, 7, Idle, multiset{0}, 7, 7)
    ensures fs[|actions|] == Two([], [[], [0], [1]], 0, 1, Idle, multiset{}, 7, 1)
  {
    var a1, f1 := LateClear();
    var none: multiset<nat> := multiset{};
    Clears([1], [[], [0]], 0, 7, multiset{1}, 7, 7, 1);
    Begins([1], [[], [0]], 0, 0, none, 7, 7, 1, 1, 1);
    Submits([1], [[], [0], []], 0, 0, none, 7, 7, 1, 1, [], [[], [0], [1]]);
    var a2 := [Clear(1), Begin(1, 1), NextChunk];
    var f2 := [Two([1], [[], [0]], 0, 7, Idle, multiset{1}, 7, 7), Two([1], [[], [0]], 0, 0, Idle, none, 7, 7),
               Two([1], [[], [0], []], 0, 0, Running(1, 1), none, 7, 7), Two([], [[], [0], [1]], 0, 1, Idle, none, 7, 1)];
    ThreeSteps(a2[0], a2[1], a2[2], f2[0], f2[1], f2[2], f2[3]);
    Joined(a1, f1, a2, f2);
    actions, fs := a1 + a2, f1[..|a1|] + f2;
  }

  lemma LateClear() returns (actions: seq<Action>, fs: seq<Fine>)
    ensures Steps(actions, fs) && fs[0] == Two([], [[], [1, 0]], 7, 7, Idle, multiset{0}, 7, 7)
    ensures fs[|actions|] == Two([1], [[], [0]], 0, 7, Idle, multiset{1}, 7, 7)
  {
    var none: multiset<nat> := multiset{};
    Clears([], [[], [1, 0]], 7, 7, multiset{0}, 7, 7, 0);
    Returns([], [[], [1, 0]], 0, 7, none, 7, 7, 1, [[], [0]]);
    actions := [Clear(0), Return(1)];
    fs := [Two([], [[], [1, 0]], 7, 7, Idle, multiset{0}, 7, 7), Two([], [[], [1, 0]], 0, 7, Idle, none, 7, 7),
           Two([1], [[], [0]], 0, 7, Idle, multiset{1}, 7, 7)];
    assert Goes(fs[0], actions[0], fs[1]) && Goes(fs[1], actions[1], fs[2]);
  }

  // ----- whole batches -----

  /** A return and its clear with nothing in between are one completion. */
  lemma ReturnThenClear(f: Fine, b: nat)
    requires Allowed(f, Return(b)) && f.stale == multiset{}
    ensures var e := f.s.queues[b][0];
            && Allowed(Act(f, Return(b)).f, Clear(e))
            && Act(Act(f, Return(b)).f, Clear(e)).f == f.(s := CompleteOne(f.s, b))
  {
  }

  /** Draining batch b one exec object after the other, then marking it, without interruption. */
  function DrainRow(f: Fine, b: nat): Fine
    requires Awaitable(f, b) && f.stale == multiset{}
    ensures Awaitable(DrainRow(f, b), b) && DrainRow(f, b).s.queues[b] == []
    decreases |f.s.queues[b]|
  {
    if f.s.queues[b] == [] then f
    else
      ReturnThenClear(f, b);
      DrainRow(Act(Act(f, Return(b)).f, Clear(f.s.queues[b][0])).f, b)
  }

  lemma {:induction false} DrainRowIs(f: Fine, b: nat)
    requires Awaitable(f, b) && f.stale == multiset{}
    ensures DrainRow(f, b) == f.(s := Drain(f.s, b))
    decreases |f.s.queues[b]|
  {
    if f.s.queues[b] != [] {
      ReturnThenClear(f, b);
      DrainRowIs(f.(s := CompleteOne(f.s, b)), b);
    }
  }

  /** n chunks in a row from f. */
  function ChunkRow(f: Fine, n: nat): Result {
    if n == 0 then To(f)
    else
      match ChunkRow(f, n - 1)
      case Halted => Halted
      case To(g) => if Allowed(g, NextChunk) then Act(g, NextChunk) else Halted
  }

  lemma {:induction false} ChunkRowIs(f: Fine, chosen: nat, total: nat, n: nat)
    requires f.s.queues != [] && CanProceed(f.s) && f.phase == Running(chosen, total) && n <= total && total > 0
    ensures ChunkRow(f, n).To?
    ensures ChunkRow(f, n).f.s == Chunks(f.s, chosen, n) && ChunkRow(f, n).f.phase == if n == total then Idle else Running(chosen, total - n)
  {
    if n > 0 {
      ChunkRowIs(f, chosen, total, n - 1);
      OneMore(ChunkRow(f, n - 1).f, chosen, total - n + 1);
      assert Chunks(f.s, chosen, n) == Chunk(Chunks(f.s, chosen, n - 1), chosen);
    }
  }

  lemma OneMore(f: Fine, chosen: nat, left: nat)
    requires f.s.queues != [] && CanProceed(f.s) && f.phase == Running(chosen, left) && left > 0
    ensures Allowed(f, NextChunk) && Act(f, NextChunk).To?
    ensures Act(f, NextChunk).f.s == Chunk(f.s, chosen)
    ensures Act(f, NextChunk).f.phase == if left == 1 then Idle else Running(chosen, left - 1)
  {
  }

  /** The whole-batch event is draining the latest batch if nothing is free, beginning, and submitting chunk by chunk. */
  lemma SubmitIsChunks(f: Fine, own: nat, n: nat)
    requires Inv(f.s) && CanProceed(f.s) && f.phase == Idle && f.stale == multiset{} && n > 0
    ensures Apply(f.s, Submit(own, n)).Next?
    ensures f.s.free == [] ==> f.s.queues != [] && Last(f.s) !in f.s.cached && Awaitable(f, Last(f.s))
    ensures var g := if f.s.free == [] then Act(DrainRow(f, Last(f.s)), Mark(Last(f.s))).f else f;
            && Allowed(g, Begin(own, n))
            && ChunkRow(Act(g, Begin(own, n)).f, n).To?
            && ChunkRow(Act(g, Begin(own, n)).f, n).f.s == Apply(f.s, Submit(own, n)).s
            && ChunkRow(Act(g, Begin(own, n)).f, n).f.phase == Idle
  {
    ApplyHolds(f.s, Submit(own, n));
    SynchronizeHolds(f.s);
    var g := f;
    if f.s.free == [] {
      DrainRowIs(f, Last(f.s));
      g := Act(DrainRow(f, Last(f.s)), Mark(Last(f.s))).f;
    }
    assert g.s == Synchronize(f.s);
    var t := NewBatch(Synchronize(f.s));
    ChunkRowIs(Act(g, Begin(own, n)).f, ChosenBucket(own, t), n, n);
  }
}
