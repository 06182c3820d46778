/** Which launches of the RMS-norm kernel race: exactly those with more than one thread. */
module RmsRaces {
  import opened Wrappers
  import opened RmsKernel
  import opened RmsInvariant
  import opened RmsProof
  import opened RmsTheorems
  import opened RmsLiveness

  /** s is the last state of some run. */
  ghost predicate Reached(c: Config, s: State) {
    exists states, agents :: RunTo(c, states, agents, s)
  }

  ghost predicate RunTo(c: Config, states: seq<State>, agents: seq<Agent>, s: State) {
    Run(c, states, agents) && states[|agents|] == s
  }

  /** No state of any run has two agents whose next actions touch a cell that one of them writes. */
  ghost predicate RaceFree(c: Config)
    requires c.cores > 0
  {
    forall states, agents :: Run(c, states, agents) ==> RunRaceFree(c, states)
  }

  ghost predicate RunRaceFree(c: Config, states: seq<State>)
    requires c.cores > 0
  {
    forall n, a, b :: 0 <= n < |states| && a != b ==> Shared(c, states[n], a, b) == {}
  }

  lemma ReachedInv(c: Config, s: State)
    requires Reached(c, s)
    ensures Inv(c, s)
  {
    var states, agents :| RunTo(c, states, agents, s);
    RunHolds(c, states, agents, |agents|);
  }

  lemma ReachedNext(c: Config, s: State, a: Agent, s': State)
    requires Reached(c, s) && Shape(c, s) && Step(c, s, a) == Some(s')
    ensures Reached(c, s') && Inv(c, s')
  {
    ReachedInv(c, s);
    StepHolds(c, s, a, s');
    var states, agents :| RunTo(c, states, agents, s);
    RunLonger(c, states, agents, a, s');
    assert RunTo(c, states + [s'], agents + [a], s');
  }

  lemma RunLonger(c: Config, states: seq<State>, agents: seq<Agent>, a: Agent, s': State)
    requires Run(c, states, agents) && Shape(c, s') && Step(c, states[|agents|], a) == Some(s')
    ensures Run(c, states + [s'], agents + [a])
  {
    var states', agents' := states + [s'], agents + [a];
    forall n | 0 <= n < |agents'|
      ensures Step(c, states'[n], agents'[n]) == Some(states'[n + 1])
    {
    }
  }

  // ----- a run of any launch to the race -----

  function Blank(): Chunk { seq(64, _ => 0.0) }

  function BlankRow(n: nat): (r: Row)
    ensures |r| == n
  {
    seq(n, _ => Blank())
  }

  /** Some state in which the launch may start. */
  function Start(c: Config): State {
    State([BlankRow(c.vlen), BlankRow(c.vlen)], [BlankRow(c.vlen), BlankRow(c.vlen)], BlankRow(c.vlen), BlankRow(c.vlen), BlankRow(c.vlen),
          seq(c.threads, _ => 0.0), Failure, false, Idle, c.ddrOut0, c.ddrDst0, seq(c.threads, t requires t >= 0 => Enter(t, LoadWeight)))
  }

  lemma StartReached(c: Config)
    requires c.Ok()
    ensures Reached(c, Start(c)) && Shape(c, Start(c))
  {
    assert Init(c, Start(c));
    assert RunTo(c, [Start(c)], [], Start(c));
  }

  /** The engine finishes the transfer in flight while the threads stand still. */
  lemma EngineFinishes(c: Config, s: State) returns (s': State)
    requires Reached(c, s) && Inv(c, s) && s.dma.Copy? && TransferOk(c, s.dma.what)
    ensures Reached(c, s') && Inv(c, s') && s'.threads == s.threads && DmaDone(c, s')
    decreases c.vlen - s.dma.pos
  {
    DmaLeftBound(c, s);
    if s.dma.pos == c.vlen {
      s' := s;
    } else {
      var next := DmaStep(c, s).value;
      EngineShape(c, s, next);
      ReachedNext(c, s, Engine, next);
      s' := EngineFinishes(c, next);
    }
  }

  /** Threads below n have arrived at the first barrier, the others have not moved. */
  ghost predicate Arriving(c: Config, s: State, n: nat)
    requires Shape(c, s)
  {
    forall t :: 0 <= t < c.threads ==>
      s.threads[t] == if t < n then Enter(t, LoadWeight).(stage := Arrived) else Enter(t, LoadWeight)
  }

  /** Thread 0 loads the weights and arrives at the first barrier. */
  lemma WeightsLoaded(c: Config) returns (s: State)
    requires c.Ok()
    ensures Reached(c, s) && Inv(c, s) && Arriving(c, s, 1)
  {
    StartReached(c);
    ReachedInv(c, Start(c));
    var s1 := Submit(Start(c), 0, WeightIn, WaitFirst);
    assert Step(c, Start(c), Worker(0)) == Some(s1);
    ReachedNext(c, Start(c), Worker(0), s1);
    var s2 := EngineFinishes(c, s1);
    s := LoadStep(c, s2, 0).value;
    assert Step(c, s2, Worker(0)) == Some(s);
    ReachedNext(c, s2, Worker(0), s);
  }

  /** The other threads arrive one after the other. */
  lemma {:induction false} AllArrive(c: Config, n: nat) returns (s: State)
    requires c.Ok() && 1 <= n <= c.threads
    ensures Reached(c, s) && Inv(c, s) && Arriving(c, s, n)
  {
    if n == 1 {
      s := WeightsLoaded(c);
    } else {
      var before := AllArrive(c, n - 1);
      var t := n - 1;
      s := SetThread(before, t, before.threads[t].(stage := Arrived));
      assert Step(c, before, Worker(t)) == Some(s);
      ReachedNext(c, before, Worker(t), s);
    }
  }

  /** Thread 0 passes the first barrier before the others do. */
  lemma FirstPasses(c: Config) returns (s: State)
    requires c.Ok()
    ensures Reached(c, s) && Inv(c, s)
    ensures s.threads[0] == Enter(0, Prime)
    ensures forall t :: 1 <= t < c.threads ==> s.threads[t] == Enter(t, LoadWeight).(stage := Arrived)
  {
    var before := AllArrive(c, c.threads);
    assert AtBarrier(c, before, LoadWeight);
    s := SetThread(before, 0, Enter(0, Prime));
    assert Step(c, before, Worker(0)) == Some(s);
    ReachedNext(c, before, Worker(0), s);
  }

  /** Thread 0 has submitted the first row's attention part, and the engine has copied it. */
  lemma FirstPartLoaded(c: Config, s: State) returns (s': State)
    requires Reached(c, s) && Inv(c, s) && c.Has(0) && s.threads[0] == Enter(0, Prime)
    ensures Reached(c, s') && Inv(c, s') && DmaDone(c, s')
    ensures s'.threads == s.threads[0 := Enter(0, Prime).(stage := WaitFirst)]
  {
    var loading := Submit(s, 0, AttnIn(0, c.RowAt(0)), WaitFirst);
    assert Step(c, s, Worker(0)) == Some(loading);
    ReachedNext(c, s, Worker(0), loading);
    s' := EngineFinishes(c, loading);
  }

  lemma StatusCanBeStored(c: Config, s: State)
    requires Inv(c, s) && PrimesStatus(c, s.threads[0]) && (c.Has(0) ==> DmaDone(c, s))
    ensures ThreadStep(c, s, 0).Some?
  {
  }

  /** Whoever lags behind can look at the status once all others have arrived. */
  lemma LaggingCanGo(c: Config, s: State, t: nat)
    requires Inv(c, s) && 0 < t < c.threads && LagsBehind(s.threads[t]) && s.threads[0].pc == Prime
    requires forall u :: 1 <= u < c.threads ==> LagsBehind(s.threads[u])
    ensures ThreadStep(c, s, t).Some?
  {
    assert AtBarrier(c, s, LoadWeight);
  }

  /**
   With a second thread, some run gets where thread 0 can store a status that thread 1 can read: right after the
   barrier if the core has no rows, otherwise once the engine has copied the first row's attention part.
   */
  lemma RaceReached(c: Config) returns (s: State)
    requires c.Ok() && c.threads > 1
    ensures Reached(c, s) && Inv(c, s) && PrimesStatus(c, s.threads[0]) && LagsBehind(s.threads[1])
    ensures Step(c, s, Worker(0)).Some? && Step(c, s, Worker(1)).Some?
  {
    s := FirstPasses(c);
    if c.Has(0) {
      s := FirstPartLoaded(c, s);
    }
    StatusCanBeStored(c, s);
    LaggingCanGo(c, s, 1);
  }

  /** A launch is free of races exactly when it has one thread per core; with more, only the status word is raced for. */
  lemma RaceFreeIffOneThread(c: Config)
    requires c.Ok()
    ensures RaceFree(c) <==> c.threads == 1
  {
    if c.threads == 1 {
      forall states, agents | Run(c, states, agents)
        ensures RunRaceFree(c, states)
      {
        OneThreadRaceFree(c, states, agents);
      }
    } else {
      var s := RaceReached(c);
      WorkersShare(c, s, 0, 1);
      assert Shared(c, s, Worker(0), Worker(1)) != {};
      var states, agents :| RunTo(c, states, agents, s);
      assert !RunRaceFree(c, states);
    }
  }

  lemma OneThreadRaceFree(c: Config, states: seq<State>, agents: seq<Agent>)
    requires c.Ok() && c.threads == 1 && Run(c, states, agents)
    ensures RunRaceFree(c, states)
  {
    forall n, a, b | 0 <= n < |states| && a != b
      ensures Shared(c, states[n], a, b) == {}
    {
      OnlyStatusRace(c, states, agents, n, a, b);
    }
  }
}
