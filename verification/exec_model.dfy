/**
 Prefill exec objects of a KV producer with asynchronous scheduling, as values: a free queue, one queue of
 pending exec objects per batch in submission order, and the context bucket each exec object runs with.
 */
module ExecModel {
  import opened Arithmetic

  /** cached: batches whose output has been produced; a second request for it does nothing. */
  datatype Slots = Slots(count: nat, free: seq<nat>, queues: seq<seq<nat>>, bucket: map<nat, nat>, cached: set<nat>)

  // ----- the steps -----

  /** Pending exec objects of all batches, oldest submission first. */
  function InFlight(queues: seq<seq<nat>>): seq<nat> {
    if queues == [] then [] else InFlight(queues[..|queues|-1]) + queues[|queues|-1]
  }

  function Last(s: Slots): (b: nat)
    requires s.queues != []
    ensures b < |s.queues|
  {
    |s.queues| - 1
  }

  function Ids(count: nat): seq<nat> { seq(count, i => i) }

  /** Every exec object is idle at start. */
  function Initial(count: nat): Slots {
    Slots(count, Ids(count), [], map e | e in Ids(count) :: 0, {})
  }

  /** The oldest exec object of batch b completes and becomes free. */
  function CompleteOne(s: Slots, b: nat): Slots
    requires b < |s.queues| && s.queues[b] != []
  {
    var e := s.queues[b][0];
    s.(free := s.free + [e], queues := s.queues[b := s.queues[b][1..]], bucket := s.bucket[e := 0])
  }

  /** The first free exec object runs a chunk of the latest batch. */
  function Take(s: Slots, chosen: nat): Slots
    requires s.queues != [] && s.free != []
  {
    var e := s.free[0];
    s.(free := s.free[1..], queues := s.queues[Last(s) := s.queues[Last(s)] + [e]], bucket := s.bucket[e := chosen])
  }

  /** Between batches: an exec object is free, or draining the latest batch frees one. */
  ghost predicate CanProceed(s: Slots) {
    s.free != [] || (s.queues != [] && s.queues[Last(s)] != [])
  }

  /** Submits one chunk; with no free exec object the batch first waits for its own oldest chunk. */
  function Chunk(s: Slots, chosen: nat): Slots
    requires s.queues != [] && CanProceed(s)
  {
    Take(if s.free == [] then CompleteOne(s, Last(s)) else s, chosen)
  }

  /** n chunks in a row. */
  function Chunks(s: Slots, chosen: nat, n: nat): (s': Slots)
    requires s.queues != [] && CanProceed(s)
    ensures CanProceed(s') && |s'.queues| == |s.queues| && s'.count == s.count
    ensures n > 0 ==> s'.queues[Last(s')] != []
  {
    if n == 0 then s else Chunk(Chunks(s, chosen, n - 1), chosen)
  }

  /** The largest bucket of exec objects below n. */
  function MaxBucket(bucket: map<nat, nat>, n: nat): (m: nat)
    ensures forall e :: 0 <= e < n && e in bucket ==> bucket[e] <= m
    ensures m == 0 || exists e :: 0 <= e < n && e in bucket && bucket[e] == m
  {
    if n == 0 then 0
    else
      var m := MaxBucket(bucket, n - 1);
      if n - 1 in bucket && bucket[n - 1] > m then bucket[n - 1] else m
  }

  /** The bucket of a batch: its own need, raised to whatever is still in flight. */
  function ChosenBucket(own: nat, s: Slots): (c: nat) {
    var m := MaxBucket(s.bucket, s.count);
    if own >= m then own else m
  }

  /** Waits for all of batch b. */
  function Drain(s: Slots, b: nat): (s': Slots)
    requires b < |s.queues|
    ensures s'.queues == s.queues[b := []] && s'.count == s.count && s'.cached == s.cached
    ensures s.free != [] || s.queues[b] != [] ==> s'.free != []
    decreases |s.queues[b]|
  {
    if s.queues[b] == [] then s else Drain(CompleteOne(s, b), b)
  }

  function GetOutput(s: Slots, b: nat): (s': Slots)
    requires b < |s.queues|
    ensures |s'.queues| == |s.queues| && s'.count == s.count
  {
    if b in s.cached then s else Drain(s, b).(cached := s.cached + {b})
  }

  /** Before a batch: with no exec object free, the latest batch's output is produced first. */
  function Synchronize(s: Slots): (s': Slots)
    ensures |s'.queues| == |s.queues| && s'.count == s.count
  {
    if s.queues != [] && s.free == [] then GetOutput(s, Last(s)) else s
  }

  function NewBatch(s: Slots): Slots { s.(queues := s.queues + [[]]) }

  /** A batch of n chunks whose prompts need bucket `own`, or the output of batch b is asked for. */
  datatype Event = Submit(own: nat, chunks: nat) | Output(b: nat)

  /** Stuck: a batch waits for its own empty queue. */
  datatype Outcome = Stuck | Next(s: Slots)

  predicate Legal(s: Slots, e: Event) {
    match e
    case Submit(_, chunks) => chunks > 0
    case Output(b) => b < |s.queues|
  }

  function Apply(s: Slots, e: Event): Outcome
    requires Legal(s, e)
  {
    match e
    case Submit(own, chunks) =>
      var t := NewBatch(Synchronize(s));
      if t.free == [] then Stuck else Next(Chunks(t, ChosenBucket(own, t), chunks))
    case Output(b) => Next(GetOutput(s, b))
  }

  // ----- invariant -----

  /** Exec objects are numbered below the pool size, each in one place. */
  ghost predicate Placed(s: Slots) {
    multiset(s.free) + multiset(InFlight(s.queues)) == multiset(Ids(s.count))
  }

  ghost predicate NonDecreasing(order: seq<nat>, bucket: map<nat, nat>) {
    forall i, j :: 0 <= i < j < |order| && order[i] in bucket && order[j] in bucket ==> bucket[order[i]] <= bucket[order[j]]
  }

  /** What every step keeps. */
  ghost predicate Inv(s: Slots) {
    && Placed(s)
    && (forall e: nat :: e in s.bucket <==> e < s.count)
    && (forall e :: e in s.free ==> e in s.bucket && s.bucket[e] == 0)
    && NonDecreasing(InFlight(s.queues), s.bucket)
    && (forall b: nat :: b in s.cached ==> b < |s.queues| && s.queues[b] == [])
  }

  // ----- where exec objects are -----

  lemma {:induction false} IdsOnce(n: nat)
    ensures forall e: nat :: multiset(Ids(n))[e] == if e < n then 1 else 0
  {
    if n > 0 {
      IdsOnce(n - 1);
      assert Ids(n) == Ids(n - 1) + [n - 1];
    }
  }

  /** No exec object is in two places, and each of them is somewhere. */
  lemma PlacedOnce(s: Slots)
    requires Placed(s)
    ensures forall e: nat :: multiset(s.free)[e] + multiset(InFlight(s.queues))[e] == if e < s.count then 1 else 0
    ensures forall e: nat :: e in s.free || e in InFlight(s.queues) <==> e < s.count
    ensures forall e: nat :: !(e in s.free && e in InFlight(s.queues))
    ensures |s.free| + |InFlight(s.queues)| == s.count
  {
    IdsOnce(s.count);
    forall e: nat
      ensures multiset(s.free)[e] + multiset(InFlight(s.queues))[e] == if e < s.count then 1 else 0
      ensures e in s.free || e in InFlight(s.queues) <==> e < s.count
      ensures !(e in s.free && e in InFlight(s.queues))
    {
      assert (multiset(s.free) + multiset(InFlight(s.queues)))[e] == multiset(Ids(s.count))[e];
      assert e in s.free <==> multiset(s.free)[e] > 0;
      assert e in InFlight(s.queues) <==> multiset(InFlight(s.queues))[e] > 0;
    }
    assert |multiset(s.free) + multiset(InFlight(s.queues))| == |multiset(Ids(s.count))|;
  }

  /** The first exec object of queue b sits somewhere in the submission order. */
  lemma {:induction false} PopPlace(queues: seq<seq<nat>>, b: nat) returns (k: nat)
    requires b < |queues| && queues[b] != []
    ensures k < |InFlight(queues)| && InFlight(queues)[k] == queues[b][0]
    ensures InFlight(queues[b := queues[b][1..]]) == InFlight(queues)[..k] + InFlight(queues)[k+1..]
    decreases |queues|
  {
    var n := |queues| - 1;
    var popped := queues[b := queues[b][1..]];
    if b == n {
      k := |InFlight(queues[..n])|;
      assert popped[..n] == queues[..n];
      assert InFlight(popped) == InFlight(queues[..n]) + queues[n][1..];
    } else {
      k := PopPlace(queues[..n], b);
      assert popped[..n] == queues[..n][b := queues[b][1..]];
      assert popped[n] == queues[n];
      var whole, front := InFlight(queues), InFlight(queues[..n]);
      assert whole[..k] == front[..k] && whole[k+1..] == front[k+1..] + queues[n];
    }
  }

  lemma PushPlace(queues: seq<seq<nat>>, e: nat)
    requires queues != []
    ensures InFlight(queues[|queues|-1 := queues[|queues|-1] + [e]]) == InFlight(queues) + [e]
  {
    var n := |queues| - 1;
    assert queues[n := queues[n] + [e]][..n] == queues[..n];
  }

  lemma {:induction false} InFlightHas(queues: seq<seq<nat>>, b: nat, e: nat)
    requires b < |queues| && e in queues[b]
    ensures e in InFlight(queues)
    decreases |queues|
  {
    if b < |queues| - 1 {
      InFlightHas(queues[..|queues|-1], b, e);
    }
  }

  // ----- each step keeps the invariant -----

  lemma CompletePlaced(s: Slots, b: nat)
    requires Placed(s) && b < |s.queues| && s.queues[b] != []
    ensures s.queues[b][0] < s.count && s.queues[b][0] !in InFlight(CompleteOne(s, b).queues)
    ensures Placed(CompleteOne(s, b))
  {
    var e, order := s.queues[b][0], InFlight(s.queues);
    InFlightHas(s.queues, b, e);
    PlacedOnce(s);
    var k := PopPlace(s.queues, b);
    var s' := CompleteOne(s, b);
    assert order == order[..k] + [e] + order[k+1..];
    assert multiset(order) == multiset(InFlight(s'.queues)) + multiset{e};
    assert multiset(s'.free) == multiset(s.free) + multiset{e};
    assert multiset(order)[e] <= 1;
  }

  lemma CompleteOrder(s: Slots, b: nat)
    requires NonDecreasing(InFlight(s.queues), s.bucket) && b < |s.queues| && s.queues[b] != []
    requires s.queues[b][0] !in InFlight(CompleteOne(s, b).queues)
    ensures NonDecreasing(InFlight(CompleteOne(s, b).queues), CompleteOne(s, b).bucket)
  {
    var k := PopPlace(s.queues, b);
    var order, order' := InFlight(s.queues), InFlight(CompleteOne(s, b).queues);
    forall i | 0 <= i < |order'|
      ensures order'[i] == order[if i < k then i else i + 1] && order'[i] != s.queues[b][0]
    {
      assert order'[i] in order';
    }
  }

  lemma CompleteHolds(s: Slots, b: nat)
    requires Inv(s) && b < |s.queues| && s.queues[b] != []
    ensures Inv(CompleteOne(s, b))
  {
    CompletePlaced(s, b);
    CompleteOrder(s, b);
  }

  lemma TakePlaced(s: Slots, chosen: nat)
    requires Placed(s) && s.queues != [] && s.free != []
    ensures s.free[0] < s.count && s.free[0] !in Take(s, chosen).free && s.free[0] !in InFlight(s.queues)
    ensures Placed(Take(s, chosen)) && InFlight(Take(s, chosen).queues) == InFlight(s.queues) + [s.free[0]]
  {
    var e := s.free[0];
    PlacedOnce(s);
    assert e in s.free;
    PushPlace(s.queues, e);
    assert s.free == [e] + s.free[1..];
    assert multiset(s.free) == multiset{e} + multiset(s.free[1..]);
    assert multiset(s.free)[e] <= 1;
  }

  lemma TakeHolds(s: Slots, chosen: nat)
    requires Inv(s) && s.queues != [] && s.free != [] && Last(s) !in s.cached
    requires forall e :: e in s.bucket ==> s.bucket[e] <= chosen
    ensures Inv(Take(s, chosen))
  {
    TakePlaced(s, chosen);
    TakeOrder(s.bucket, InFlight(s.queues), s.free[0], chosen);
    var s' := Take(s, chosen);
    forall e | e in s'.free
      ensures e in s'.bucket && s'.bucket[e] == 0
    {
      assert e in s.free;
    }
  }

  /** The newest chunk may have the largest bucket. */
  lemma TakeOrder(bucket: map<nat, nat>, order: seq<nat>, e: nat, chosen: nat)
    requires NonDecreasing(order, bucket) && e !in order && forall d :: d in bucket ==> bucket[d] <= chosen
    ensures NonDecreasing(order + [e], bucket[e := chosen])
  {
    forall i | 0 <= i < |order|
      ensures order[i] != e
    {
      assert order[i] in order;
    }
  }

  lemma {:induction false} DrainHolds(s: Slots, b: nat)
    requires Inv(s) && b < |s.queues|
    ensures Inv(Drain(s, b))
    decreases |s.queues[b]|
  {
    if s.queues[b] != [] {
      CompleteHolds(s, b);
      DrainHolds(CompleteOne(s, b), b);
    }
  }

  lemma OutputHolds(s: Slots, b: nat)
    requires Inv(s) && CanProceed(s) && b < |s.queues|
    ensures Inv(GetOutput(s, b)) && CanProceed(GetOutput(s, b))
    ensures b == Last(s) ==> GetOutput(s, b).free != []
  {
    if b !in s.cached {
      DrainHolds(s, b);
      MarkHolds(Drain(s, b), b);
    }
  }

  lemma MarkHolds(s: Slots, b: nat)
    requires Inv(s) && b < |s.queues| && s.queues[b] == []
    ensures Inv(s.(cached := s.cached + {b}))
  {
  }

  lemma SynchronizeHolds(s: Slots)
    requires Inv(s) && CanProceed(s)
    ensures Inv(Synchronize(s)) && Synchronize(s).free != []
  {
    if s.queues != [] {
      OutputHolds(s, Last(s));
    }
  }

  /** The latest batch is open, and nothing runs with more than the chosen bucket. */
  ghost predicate Open(s: Slots, chosen: nat) {
    s.queues != [] && Last(s) !in s.cached && forall e :: e in s.bucket ==> s.bucket[e] <= chosen
  }

  lemma NewBatchHolds(s: Slots, own: nat)
    requires Inv(s)
    ensures InFlight(NewBatch(s).queues) == InFlight(s.queues) && Inv(NewBatch(s))
    ensures Open(NewBatch(s), ChosenBucket(own, NewBatch(s)))
  {
    assert (s.queues + [[]])[..|s.queues|] == s.queues;
  }

  lemma OpenTake(s: Slots, chosen: nat)
    requires Inv(s) && s.free != [] && Open(s, chosen)
    ensures Inv(Take(s, chosen)) && Open(Take(s, chosen), chosen)
  {
    TakeHolds(s, chosen);
  }

  lemma OpenComplete(s: Slots, chosen: nat)
    requires Inv(s) && s.queues != [] && s.queues[Last(s)] != [] && Open(s, chosen)
    ensures Inv(CompleteOne(s, Last(s))) && Open(CompleteOne(s, Last(s)), chosen)
  {
    CompleteHolds(s, Last(s));
  }

  lemma ChunkHolds(s: Slots, chosen: nat)
    requires Inv(s) && CanProceed(s) && Open(s, chosen)
    ensures Inv(Chunk(s, chosen)) && Open(Chunk(s, chosen), chosen)
  {
    if s.free == [] {
      OpenComplete(s, chosen);
      OpenTake(CompleteOne(s, Last(s)), chosen);
    } else {
      OpenTake(s, chosen);
    }
  }

  /** The latest batch can go on with the chosen bucket. */
  ghost predicate Going(s: Slots, chosen: nat) { Inv(s) && CanProceed(s) && Open(s, chosen) }

  lemma ChunkGoes(s: Slots, chosen: nat)
    requires Going(s, chosen)
    ensures Going(Chunk(s, chosen), chosen)
  {
    ChunkHolds(s, chosen);
  }

  /** Whatever every chunk keeps, any number of chunks keeps. */
  lemma {:induction false} ChunksKeep(s: Slots, chosen: nat, n: nat, keeps: Slots -> bool)
    requires s.queues != [] && CanProceed(s) && keeps(s)
    requires forall t: Slots :: t.queues != [] && CanProceed(t) && keeps(t) ==> keeps(Chunk(t, chosen))
    ensures keeps(Chunks(s, chosen, n))
  {
    if n > 0 {
      ChunksKeep(s, chosen, n - 1, keeps);
    }
  }

  lemma ChunksHold(s: Slots, chosen: nat, n: nat)
    requires s.queues != [] && CanProceed(s) && Going(s, chosen)
    ensures Going(Chunks(s, chosen, n), chosen)
  {
    var keeps := (t: Slots) => Going(t, chosen);
    forall t: Slots | t.queues != [] && CanProceed(t) && keeps(t)
      ensures keeps(Chunk(t, chosen))
    {
      ChunkGoes(t, chosen);
    }
    ChunksKeep(s, chosen, n, keeps);
  }

  /** No event leaves the producer stuck. */
  lemma ApplyHolds(s: Slots, e: Event)
    requires Inv(s) && CanProceed(s) && Legal(s, e)
    ensures Apply(s, e).Next? && Inv(Apply(s, e).s) && CanProceed(Apply(s, e).s) && Apply(s, e).s.count == s.count
  {
    match e
    case Submit(own, chunks) =>
      SynchronizeHolds(s);
      NewBatchHolds(Synchronize(s), own);
      var t := NewBatch(Synchronize(s));
      ChunksHold(t, ChosenBucket(own, t), chunks);
    case Output(b) =>
      OutputHolds(s, b);
  }

  // ----- every run -----

  ghost predicate Run(count: nat, events: seq<Event>, states: seq<Slots>) {
    && |states| == |events| + 1
    && states[0] == Initial(count)
    && forall n :: 0 <= n < |events| ==> RunStep(events, states, n)
  }

  ghost predicate RunStep(events: seq<Event>, states: seq<Slots>, n: nat)
    requires n < |events| && |states| == |events| + 1
  {
    Legal(states[n], events[n]) && Apply(states[n], events[n]) == Next(states[n + 1])
  }

  lemma InitialHolds(count: nat)
    requires count > 0
    ensures Inv(Initial(count)) && CanProceed(Initial(count))
  {
    IdsOnce(count);
    IdsBelow(count);
  }

  lemma IdsBelow(count: nat)
    ensures forall e: nat :: e in Ids(count) <==> e < count
  {
    forall e: nat | e < count
      ensures e in Ids(count)
    {
      assert Ids(count)[e] == e;
    }
  }

  lemma {:induction false} RunHolds(count: nat, events: seq<Event>, states: seq<Slots>, n: nat)
    requires count > 0 && Run(count, events, states) && n <= |events|
    ensures Inv(states[n]) && CanProceed(states[n]) && states[n].count == count
  {
    if n == 0 {
      InitialHolds(count);
    } else {
      RunHolds(count, events, states, n - 1);
      assert RunStep(events, states, n - 1);
      ApplyHolds(states[n - 1], events[n - 1]);
    }
  }

  /**
   In every state of every run each exec object is free or pending in exactly one batch, buckets in flight
   do not decrease in submission order, and free ones have no bucket.
   */
  lemma ProducerSafe(count: nat, events: seq<Event>, states: seq<Slots>, n: nat)
    requires count > 0 && Run(count, events, states) && n <= |events|
    ensures forall e: nat :: multiset(states[n].free)[e] + multiset(InFlight(states[n].queues))[e] == if e < count then 1 else 0
    ensures NonDecreasing(InFlight(states[n].queues), states[n].bucket)
    ensures forall e :: e in states[n].free ==> e in states[n].bucket && states[n].bucket[e] == 0
  {
    RunHolds(count, events, states, n);
    PlacedOnce(states[n]);
  }

  /** After any run the next batch finds a free exec object once synchronised, and no batch waits for itself. */
  lemma NeverStuck(count: nat, events: seq<Event>, states: seq<Slots>, e: Event)
    requires count > 0 && Run(count, events, states) && Legal(states[|events|], e)
    ensures Synchronize(states[|events|]).free != [] && Apply(states[|events|], e).Next?
  {
    RunHolds(count, events, states, |events|);
    SynchronizeHolds(states[|events|]);
    ApplyHolds(states[|events|], e);
  }

  // ----- how far buckets agree -----

  /** All chunks in flight run with bucket c. */
  ghost predicate OneBucket(s: Slots, c: nat) {
    forall e :: e in InFlight(s.queues) && e in s.bucket ==> s.bucket[e] == c
  }

  ghost predicate LatestRuns(s: Slots, chosen: nat) {
    s.queues != [] && forall e :: e in s.queues[Last(s)] && e in s.bucket ==> s.bucket[e] == chosen
  }

  /** Exec objects of older batches, of the latest one and free ones are all different. */
  lemma Apart(s: Slots, e: nat)
    requires Placed(s) && s.queues != []
    ensures multiset(s.free)[e] + multiset(InFlight(s.queues[..Last(s)]))[e] + multiset(s.queues[Last(s)])[e] <= 1
  {
    PlacedOnce(s);
    assert multiset(InFlight(s.queues)) == multiset(InFlight(s.queues[..Last(s)])) + multiset(s.queues[Last(s)]);
  }

  lemma Repeats(q: seq<nat>)
    requires q != [] && multiset(q)[q[0]] <= 1
    ensures q[0] !in q[1..]
  {
    assert q == [q[0]] + q[1..];
    assert multiset(q) == multiset{q[0]} + multiset(q[1..]);
  }

  /** Exec objects of the batches before the latest keep their bucket. */
  ghost predicate OlderKept(s: Slots, s': Slots) {
    && s.queues != [] && |s'.queues| == |s.queues| && s'.queues[..Last(s)] == s.queues[..Last(s)]
    && forall e :: e in InFlight(s.queues[..Last(s)]) && e in s.bucket ==> e in s'.bucket && s'.bucket[e] == s.bucket[e]
  }

  lemma CompleteFrame(s: Slots, chosen: nat)
    requires Placed(s) && s.queues != [] && s.queues[Last(s)] != [] && LatestRuns(s, chosen)
    ensures LatestRuns(CompleteOne(s, Last(s)), chosen) && OlderKept(s, CompleteOne(s, Last(s)))
  {
    var q := s.queues[Last(s)];
    Apart(s, q[0]);
    assert multiset(q)[q[0]] >= 1;
    Repeats(q);
    assert CompleteOne(s, Last(s)).queues[..Last(s)] == s.queues[..Last(s)];
  }

  lemma TakeFrame(s: Slots, chosen: nat)
    requires Placed(s) && s.queues != [] && s.free != [] && LatestRuns(s, chosen)
    ensures LatestRuns(Take(s, chosen), chosen) && OlderKept(s, Take(s, chosen))
  {
    Apart(s, s.free[0]);
    assert multiset(s.free)[s.free[0]] >= 1;
    assert Take(s, chosen).queues[..Last(s)] == s.queues[..Last(s)];
  }

  lemma ChunkFrame(s: Slots, chosen: nat)
    requires Inv(s) && CanProceed(s) && s.queues != [] && LatestRuns(s, chosen)
    ensures LatestRuns(Chunk(s, chosen), chosen) && OlderKept(s, Chunk(s, chosen))
  {
    if s.free == [] {
      CompleteFrame(s, chosen);
      CompleteHolds(s, Last(s));
      TakeFrame(CompleteOne(s, Last(s)), chosen);
    } else {
      TakeFrame(s, chosen);
    }
  }

  /** t is a state in the middle of the batch that began in s. */
  ghost predicate Midway(s: Slots, t: Slots, chosen: nat) {
    Inv(t) && CanProceed(t) && Open(t, chosen) && LatestRuns(t, chosen) && OlderKept(s, t)
  }

  lemma MidwayNext(s: Slots, t: Slots, chosen: nat)
    requires Midway(s, t, chosen)
    ensures Midway(s, Chunk(t, chosen), chosen)
  {
    ChunkHolds(t, chosen);
    ChunkFrame(t, chosen);
    KeptTwice(s, t, Chunk(t, chosen));
  }

  /** While a batch is submitted older chunks keep their bucket, and all its own run with the chosen one. */
  lemma ChunksFrame(s: Slots, chosen: nat, n: nat)
    requires s.queues != [] && CanProceed(s) && Midway(s, s, chosen)
    ensures Midway(s, Chunks(s, chosen, n), chosen)
  {
    var keeps := (t: Slots) => Midway(s, t, chosen);
    forall t: Slots | t.queues != [] && CanProceed(t) && keeps(t)
      ensures keeps(Chunk(t, chosen))
    {
      MidwayNext(s, t, chosen);
    }
    ChunksKeep(s, chosen, n, keeps);
  }

  lemma KeptTwice(s: Slots, t: Slots, u: Slots)
    requires OlderKept(s, t) && OlderKept(t, u)
    ensures OlderKept(s, u)
  {
    assert s.queues[..Last(s)] == t.queues[..Last(t)];
  }

  /** With all chunks in flight on bucket c, the next batch runs on the larger of c and its own bucket. */
  lemma ChosenOver(t: Slots, c: nat, own: nat)
    requires Inv(t) && InFlight(t.queues) != [] && OneBucket(t, c)
    ensures ChosenBucket(own, t) == if own <= c then c else own
  {
    PlacedOnce(t);
    var first := InFlight(t.queues)[0];
    assert first in InFlight(t.queues) && t.bucket[first] == c;
    var m := MaxBucket(t.bucket, t.count);
    if m != 0 {
      var e :| 0 <= e < t.count && e in t.bucket && t.bucket[e] == m;
      assert e in InFlight(t.queues);
    }
  }

  lemma LatestMixed(s': Slots, older: seq<nat>, c: nat, chosen: nat)
    requires Inv(s') && LatestRuns(s', chosen) && s'.queues[Last(s')] != [] && InFlight(s'.queues[..Last(s')]) == older != []
    requires forall e :: e in older && e in s'.bucket ==> s'.bucket[e] == c
    ensures (exists d :: OneBucket(s', d)) <==> chosen == c
  {
    PlacedOnce(s');
    var order := InFlight(s'.queues);
    assert order == older + s'.queues[Last(s')];
    assert older[0] in order && s'.queues[Last(s')][0] in order;
    assert older[0] in older && s'.queues[Last(s')][0] in s'.queues[Last(s')];
    if chosen == c {
      assert OneBucket(s', c);
    }
  }

  lemma FreshMixed(t: Slots, s': Slots, chosen: nat, c: nat)
    requires Inv(t) && Inv(s') && OlderKept(t, s') && LatestRuns(s', chosen) && s'.queues[Last(s')] != []
    requires t.queues[Last(t)] == [] && InFlight(t.queues) != [] && OneBucket(t, c)
    ensures (exists d :: OneBucket(s', d)) <==> chosen == c
  {
    var older := InFlight(t.queues[..Last(t)]);
    assert InFlight(t.queues) == older + [] == older;
    PlacedOnce(t);
    LatestMixed(s', older, c, chosen);
  }

  lemma BatchDone(s: Slots, own: nat, n: nat) returns (t: Slots, s': Slots)
    requires Inv(s) && CanProceed(s) && n > 0
    ensures t == NewBatch(Synchronize(s)) && Apply(s, Submit(own, n)) == Next(s')
    ensures Inv(t) && Inv(s') && OlderKept(t, s') && LatestRuns(s', ChosenBucket(own, t)) && s'.queues[Last(s')] != []
    ensures t.queues[Last(t)] == [] && InFlight(t.queues) == InFlight(Synchronize(s).queues)
  {
    SynchronizeHolds(s);
    NewBatchHolds(Synchronize(s), own);
    t := NewBatch(Synchronize(s));
    ChunksFrame(t, ChosenBucket(own, t), n);
    s' := Chunks(t, ChosenBucket(own, t), n);
  }

  /** Draining a batch frees its exec objects in the order they were submitted, behind those that were free. */
  lemma {:induction false} DrainFrees(s: Slots, b: nat)
    requires b < |s.queues|
    ensures Drain(s, b).free == s.free + s.queues[b]
    ensures forall e :: e in s.bucket && e !in s.queues[b] ==> e in Drain(s, b).bucket && Drain(s, b).bucket[e] == s.bucket[e]
    ensures forall e :: e in s.queues[b] ==> e in Drain(s, b).bucket && Drain(s, b).bucket[e] == 0
    decreases |s.queues[b]|
  {
    if s.queues[b] != [] {
      var e := s.queues[b][0];
      DrainFrees(CompleteOne(s, b), b);
      assert s.queues[b] == [e] + s.queues[b][1..];
    } else {
      assert s.free + s.queues[b] == s.free;
    }
  }

  /** With nothing idle a new batch first waits for the whole latest one, whose exec objects are then idle in submission order. */
  lemma SynchronizeFrees(s: Slots)
    requires Inv(s) && CanProceed(s)
    ensures Synchronize(s).free == if s.free == [] then s.queues[Last(s)] else s.free
    ensures s.free == [] ==> Synchronize(s).queues == s.queues[Last(s) := []] && Last(s) in Synchronize(s).cached
    ensures s.free != [] ==> Synchronize(s) == s
  {
    if s.free == [] {
      DrainFrees(s, Last(s));
    }
  }

  /** The exec object whose turn it is at chunk c. */
  ghost function Turn(free: seq<nat>, c: nat): nat
    requires free != []
  {
    free[c % |free|]
  }

  /** After n chunks of a batch that began with `free` idle: the chunks it still waits for, oldest first, and what is idle. */
  ghost predicate Rotated(free: seq<nat>, n: nat, queue: seq<nat>, idle: seq<nat>)
    requires free != []
  {
    && |queue| == (if n <= |free| then n else |free|)
    && (forall i :: 0 <= i < |queue| ==> queue[i] == Turn(free, n - |queue| + i))
    && idle == if n <= |free| then free[n..] else []
  }

  /** Chunk c of a batch runs on exec object c modulo the number of free ones: they are used in turn, for any number of chunks. */
  lemma {:induction false} RoundRobin(s: Slots, chosen: nat, n: nat)
    requires s.queues != [] && CanProceed(s) && s.queues[Last(s)] == []
    ensures s.free != [] && Rotated(s.free, n, Chunks(s, chosen, n).queues[Last(s)], Chunks(s, chosen, n).free)
  {
    if n > 0 {
      RoundRobin(s, chosen, n - 1);
      var t := Chunks(s, chosen, n - 1);
      RotatedNext(s.free, n - 1, t.queues[Last(s)], t.free);
    }
  }

  lemma RotatedNext(free: seq<nat>, n: nat, queue: seq<nat>, idle: seq<nat>)
    requires free != [] && Rotated(free, n, queue, idle)
    ensures if idle == [] then queue != [] && Rotated(free, n + 1, queue[1..] + [queue[0]], []) else Rotated(free, n + 1, queue + [idle[0]], idle[1..])
  {
    if n < |free| {
      TurnFirst(free, n);
    } else {
      TurnAgain(free, n);
    }
  }

  lemma TurnFirst(free: seq<nat>, c: nat)
    requires c < |free|
    ensures Turn(free, c) == free[c]
  {
    DivUnique(c, |free|, 0, c);
  }

  lemma TurnAgain(free: seq<nat>, c: nat)
    requires 0 < |free| <= c
    ensures Turn(free, c) == Turn(free, c - |free|)
  {
    Wraps(c, |free|);
  }

  lemma Wraps(n: nat, m: nat)
    requires 0 < m <= n
    ensures n % m == (n - m) % m
  {
    var q := n / m;
    assert n == m * q + n % m;
    assert n - m == m * (q - 1) + n % m;
    DivUnique(n - m, m, q - 1, n % m);
  }

  /** All chunks of a batch run with one bucket, which is its own need or one already in flight, and covers its need and everything in flight. */
  ghost predicate OneChoice(before: Slots, own: nat, queue: seq<nat>, after: Slots, c: nat) {
    && (forall e :: e in queue ==> e in after.bucket && after.bucket[e] == c)
    && own <= c
    && (forall e :: e in InFlight(before.queues) && e in before.bucket ==> before.bucket[e] <= c)
    && (c == own || exists e :: e in InFlight(before.queues) && e in before.bucket && before.bucket[e] == c)
  }

  lemma SubmitRuns(s: Slots, own: nat, n: nat)
    requires Inv(s) && CanProceed(s) && n > 0
    ensures Apply(s, Submit(own, n)).Next?
    ensures var s' := Apply(s, Submit(own, n)).s;
            |s'.queues| == |s.queues| + 1 && exists c: nat :: OneChoice(Synchronize(s), own, s'.queues[|s.queues|], s', c)
  {
    var t, s' := BatchDone(s, own, n);
    var c := ChosenBucket(own, t);
    Chosen(t, own);
    LatestTracked(s');
    assert OneChoice(Synchronize(s), own, s'.queues[|s.queues|], s', c);
  }

  lemma LatestTracked(s: Slots)
    requires Inv(s) && s.queues != []
    ensures forall e :: e in s.queues[Last(s)] ==> e in s.bucket
  {
    PlacedOnce(s);
    forall e | e in s.queues[Last(s)]
      ensures e in s.bucket
    {
      assert e in InFlight(s.queues);
    }
  }

  /** Its chunks take the idle exec objects in turn. */
  lemma SubmitTurns(s: Slots, own: nat, n: nat)
    requires Inv(s) && CanProceed(s) && n > 0
    ensures Apply(s, Submit(own, n)).Next? && Synchronize(s).free != []
    ensures var s' := Apply(s, Submit(own, n)).s;
            |s'.queues| == |s.queues| + 1 && Rotated(Synchronize(s).free, n, s'.queues[|s.queues|], s'.free)
  {
    SynchronizeHolds(s);
    var t := NewBatch(Synchronize(s));
    var c := ChosenBucket(own, t);
    RoundRobin(t, c, n);
    assert Apply(s, Submit(own, n)) == Next(Chunks(t, c, n));
  }

  lemma Chosen(t: Slots, own: nat)
    requires Inv(t)
    ensures own <= ChosenBucket(own, t)
    ensures forall e :: e in InFlight(t.queues) && e in t.bucket ==> t.bucket[e] <= ChosenBucket(own, t)
    ensures ChosenBucket(own, t) == own || exists e :: e in InFlight(t.queues) && e in t.bucket && t.bucket[e] == ChosenBucket(own, t)
  {
    PlacedOnce(t);
    var m := MaxBucket(t.bucket, t.count);
    if own < m {
      var e :| 0 <= e < t.count && e in t.bucket && t.bucket[e] == m;
      assert e in InFlight(t.queues);
    }
  }

  /**
   A batch does not always share one bucket with the chunks before it: with all earlier chunks on bucket c,
   it does exactly when its own prompts need no more than c.
   */
  lemma OneBucketIff(s: Slots, own: nat, n: nat, c: nat)
    requires Inv(s) && CanProceed(s) && n > 0
    requires InFlight(Synchronize(s).queues) != [] && OneBucket(Synchronize(s), c)
    ensures Apply(s, Submit(own, n)).Next?
    ensures (exists d :: OneBucket(Apply(s, Submit(own, n)).s, d)) <==> own <= c
  {
    var t, s' := BatchDone(s, own, n);
    ChosenOver(t, c, own);
    FreshMixed(t, s', ChosenBucket(own, t), c);
  }

  lemma FirstBatch()
    ensures Apply(Initial(2), Submit(1, 1)) == Next(Slots(2, [1], [[0]], map[0 := 1, 1 := 0], {}))
  {
    IdsBelow(2);
    var t := NewBatch(Initial(2));
    assert Ids(2) == [0, 1] && t == Slots(2, [0, 1], [[]], map[0 := 0, 1 := 0], {});
    assert ChosenBucket(1, t) == 1;
    assert Take(t, 1) == Slots(2, [1], [[0]], map[0 := 1, 1 := 0], {}) by {
      assert t.queues[0] + [0] == [0];
      assert [0, 1][1..] == [1] && t.queues[0 := [0]] == [[0]];
    }
    assert Chunks(t, 1, 1) == Chunk(Chunks(t, 1, 0), 1) == Take(t, 1);
  }

  lemma SecondBatch()
    ensures var s := Slots(2, [1], [[0]], map[0 := 1, 1 := 0], {});
            && Inv(s) && CanProceed(s)
            && Apply(s, Submit(5, 1)).Next? && !exists d :: OneBucket(Apply(s, Submit(5, 1)).s, d)
  {
    InitialHolds(2);
    FirstBatch();
    ApplyHolds(Initial(2), Submit(1, 1));
    assert InFlight([[0]]) == InFlight([[0]][..0]) + [0] == [0];
    OneBucketIff(Slots(2, [1], [[0]], map[0 := 1, 1 := 0], {}), 5, 1, 1);
  }

  lemma TwoEvents(count: nat, d: Event, e: Event, s: Slots, t: Slots)
    requires Legal(Initial(count), d) && Apply(Initial(count), d) == Next(s) && Legal(s, e) && Apply(s, e) == Next(t)
    ensures Run(count, [d, e], [Initial(count), s, t])
  {
    var events, states := [d, e], [Initial(count), s, t];
    assert RunStep(events, states, 0) && RunStep(events, states, 1);
  }

  /** Two short batches, the second with a longer prompt: their chunks run at once with buckets 1 and 5. */
  lemma BucketsCanDiffer() returns (states: seq<Slots>)
    ensures Run(2, [Submit(1, 1), Submit(5, 1)], states) && !exists d :: OneBucket(states[2], d)
  {
    var s := Slots(2, [1], [[0]], map[0 := 1, 1 := 0], {});
    FirstBatch();
    SecondBatch();
    states := [Initial(2), s, Apply(s, Submit(5, 1)).s];
    TwoEvents(2, Submit(1, 1), Submit(5, 1), s, Apply(s, Submit(5, 1)).s);
  }
}
