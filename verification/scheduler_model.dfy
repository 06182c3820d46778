/**
 The CI scheduler as a state machine over its two atomic events, both under the scheduler's condition:
 dispatching one ready job, and completing one running job.
 */
module SchedulerModel {
  import opened Wrappers
  import opened DevicePool

  datatype Job = Job(model: Option<nat>, config: nat, devices: nat)

  /** The first job of a model exports it; a job without a model always does its own export. */
  predicate ExportCold(jobs: seq<Job>, j: nat)
    requires j < |jobs|
  {
    jobs[j].model.None? || forall i :: 0 <= i < j ==> jobs[i].model != jobs[j].model
  }

  /** The first job of an exact configuration compiles it. */
  predicate CompileCold(jobs: seq<Job>, j: nat)
    requires j < |jobs|
  {
    forall i :: 0 <= i < j ==> jobs[i].config != jobs[j].config
  }

  /** Job i owns the export gate that job j waits for. */
  predicate OwnsExport(jobs: seq<Job>, i: nat, j: nat)
    requires i < |jobs| && j < |jobs|
  {
    i != j && jobs[j].model.Some? && jobs[i].model == jobs[j].model && ExportCold(jobs, i)
  }

  predicate OwnsCompile(jobs: seq<Job>, i: nat, j: nat)
    requires i < |jobs| && j < |jobs|
  {
    i != j && jobs[i].config == jobs[j].config && CompileCold(jobs, i)
  }

  /** Scheduler state, with the history of dispatches, finished jobs and last release times. */
  datatype World = World(pool: Pool, pending: seq<nat>, running: set<nat>, deviceIds: seq<seq<nat>>, exportOpen: set<nat>,
                         compileOpen: set<nat>, done: set<nat>, dispatched: seq<nat>, lastRelease: map<nat, int>)

  predicate Ready(jobs: seq<Job>, w: World, j: nat)
    requires j < |jobs|
  {
    && (ExportCold(jobs, j) || jobs[j].model.None? || jobs[j].model.value in w.exportOpen)
    && (CompileCold(jobs, j) || jobs[j].config in w.compileOpen)
  }

  datatype Event =
    | Dispatch(j: nat, now: int, chosen: seq<nat>)
    | Complete(j: nat, now: int, ready: set<nat>, order: seq<nat>)

  /** A pending job that is ready gets devices and starts. */
  ghost predicate Dispatches(jobs: seq<Job>, w: World, j: nat, now: int, chosen: seq<nat>, w': World)
  {
    && j in w.pending && j < |jobs| == |w.deviceIds| && Ready(jobs, w, j)
    && Acquired(w.pool, jobs[j].devices, now, chosen, w'.pool)
    && Dropped(w.pending, j, w'.pending)
    && w' == w.(pool := w'.pool, pending := w'.pending, running := w.running + {j}, deviceIds := w.deviceIds[j := chosen],
                dispatched := w.dispatched + [j])
  }

  /** s without j, in the same order. */
  ghost predicate Dropped(s: seq<nat>, j: nat, r: seq<nat>) {
    exists k :: 0 <= k < |s| && s[k] == j && r == s[..k] + s[k+1..]
  }

  /** A running job ends, passed or failed: its gates open and its devices go back. */
  ghost predicate Completes(jobs: seq<Job>, cooldown: nat, w: World, j: nat, now: int, ready: set<nat>, order: seq<nat>, w': World)
  {
    && j in w.running && j < |jobs| == |w.deviceIds|
    && Released(w.pool, w.deviceIds[j], ready, order, now, cooldown, w'.pool)
    && (forall d: nat :: d in w'.lastRelease <==> d in w.lastRelease || d in w.deviceIds[j])
    && (forall d: nat :: d in w'.lastRelease ==> w'.lastRelease[d] == if d in w.deviceIds[j] then now else w.lastRelease[d])
    && w' == w.(pool := w'.pool, running := w.running - {j}, done := w.done + {j}, lastRelease := w'.lastRelease,
                exportOpen := if ExportCold(jobs, j) && jobs[j].model.Some? then w.exportOpen + {jobs[j].model.value} else w.exportOpen,
                compileOpen := if CompileCold(jobs, j) then w.compileOpen + {jobs[j].config} else w.compileOpen)
  }

  ghost predicate Step(jobs: seq<Job>, cooldown: nat, w: World, e: Event, w': World) {
    match e
    case Dispatch(j, now, chosen) => Dispatches(jobs, w, j, now, chosen, w')
    case Complete(j, now, ready, order) => Completes(jobs, cooldown, w, j, now, ready, order, w')
  }

  // ----- invariant -----

  /** Devices held by running jobs below n. */
  ghost function Held(running: set<nat>, deviceIds: seq<seq<nat>>, n: nat): multiset<nat>
    requires n <= |deviceIds|
  {
    if n == 0 then multiset{} else Held(running, deviceIds, n - 1) + if n - 1 in running then multiset(deviceIds[n - 1]) else multiset{}
  }

  /** Each job is pending (in queue order), running or done, and was dispatched once it left the queue. */
  ghost predicate JobsPlaced(jobs: seq<Job>, w: World) {
    && |w.deviceIds| == |jobs|
    && (forall i, k :: 0 <= i < k < |w.pending| ==> w.pending[i] < w.pending[k])
    && (forall j: nat :: j in w.pending || j in w.running || j in w.done <==> j < |jobs|)
    && (forall j: nat :: j in w.pending ==> j !in w.running && j !in w.done)
    && w.running !! w.done
    && Unique(w.dispatched)
    && (forall j: nat :: j in w.dispatched <==> j in w.running || j in w.done)
  }

  /** Every device is free, quarantined or held by one running job. */
  ghost predicate DevicesPlaced(devices: seq<nat>, w: World) {
    Inside(w.pool) + Held(w.running, w.deviceIds, |w.deviceIds|) == multiset(devices)
  }

  ghost predicate Cooling(cooldown: nat, clock: int, w: World) {
    && (forall d: nat :: d in w.lastRelease ==> w.lastRelease[d] <= clock)
    && (forall d: nat :: d in w.pool.free && d in w.lastRelease ==> CoolAt(w.pool.cooldownUntil, d) >= w.lastRelease[d] + cooldown)
  }

  /** A gate is open exactly when its owner is done, and whoever waited for it came after. */
  ghost predicate GatesOk(jobs: seq<Job>, w: World) {
    && (forall i: nat :: i < |jobs| && ExportCold(jobs, i) && jobs[i].model.Some? ==> (jobs[i].model.value in w.exportOpen <==> i in w.done))
    && (forall i: nat :: i < |jobs| && CompileCold(jobs, i) ==> (jobs[i].config in w.compileOpen <==> i in w.done))
    && (forall i: nat, j: nat :: i < |jobs| && j < |jobs| && OwnsExport(jobs, i, j) && j !in w.pending ==> i in w.done)
    && (forall i: nat, j: nat :: i < |jobs| && j < |jobs| && OwnsCompile(jobs, i, j) && j !in w.pending ==> i in w.done)
  }

  ghost predicate Inv(jobs: seq<Job>, devices: seq<nat>, cooldown: nat, clock: int, w: World) {
    JobsPlaced(jobs, w) && Unique(devices) && DevicesPlaced(devices, w) && Cooling(cooldown, clock, w) && GatesOk(jobs, w)
  }

  ghost predicate Init(jobs: seq<Job>, devices: seq<nat>, w: World) {
    && Unique(devices)
    && w.pool == Pool(devices, {}, map[])
    && w.pending == seq(|jobs|, i => i)
    && w.running == {} && w.done == {} && w.dispatched == [] && w.lastRelease == map[]
    && w.exportOpen == {} && w.compileOpen == {}
    && |w.deviceIds| == |jobs|
  }

  lemma {:induction false} HeldNone(deviceIds: seq<seq<nat>>, n: nat)
    requires n <= |deviceIds|
    ensures Held({}, deviceIds, n) == multiset{}
  {
    if n > 0 {
      HeldNone(deviceIds, n - 1);
    }
  }

  lemma {:induction false} HeldStart(running: set<nat>, deviceIds: seq<seq<nat>>, j: nat, chosen: seq<nat>, n: nat)
    requires n <= |deviceIds| && j < |deviceIds| && j !in running
    ensures Held(running + {j}, deviceIds[j := chosen], n) == Held(running, deviceIds, n) + if j < n then multiset(chosen) else multiset{}
  {
    if n > 0 {
      HeldStart(running, deviceIds, j, chosen, n - 1);
    }
  }

  lemma {:induction false} HeldEnd(running: set<nat>, deviceIds: seq<seq<nat>>, j: nat, n: nat)
    requires n <= |deviceIds| && j in running
    ensures Held(running - {j}, deviceIds, n) + (if j < n then multiset(deviceIds[j]) else multiset{}) == Held(running, deviceIds, n)
  {
    if n > 0 {
      HeldEnd(running, deviceIds, j, n - 1);
    }
  }

  lemma InitHolds(jobs: seq<Job>, devices: seq<nat>, cooldown: nat, clock: int, w: World)
    requires Init(jobs, devices, w)
    ensures Inv(jobs, devices, cooldown, clock, w)
  {
    HeldNone(w.deviceIds, |w.deviceIds|);
    forall j: nat
      ensures j in w.pending <==> j < |jobs|
    {
      if j < |jobs| {
        assert w.pending[j] == j;
      }
    }
  }

  // ----- dispatch keeps the invariant -----

  lemma DroppedPending(s: seq<nat>, j: nat, r: seq<nat>)
    requires Dropped(s, j, r) && forall i, k :: 0 <= i < k < |s| ==> s[i] < s[k]
    ensures forall i, k :: 0 <= i < k < |r| ==> r[i] < r[k]
    ensures forall x: nat :: x in r <==> x in s && x != j
    ensures |r| == |s| - 1
  {
    var k :| 0 <= k < |s| && s[k] == j && r == s[..k] + s[k+1..];
    forall x: nat
      ensures x in r <==> x in s && x != j
    {
      DroppedHas(s, k, x);
    }
  }

  lemma DroppedHas(s: seq<nat>, k: nat, x: nat)
    requires k < |s| && forall i, m :: 0 <= i < m < |s| ==> s[i] < s[m]
    ensures x in s[..k] + s[k+1..] <==> x in s && x != s[k]
  {
    assert s == s[..k] + [s[k]] + s[k+1..];
    if x == s[k] {
      assert x !in s[..k] && x !in s[k+1..];
    }
  }

  lemma DispatchHolds(jobs: seq<Job>, devices: seq<nat>, cooldown: nat, clock: int, w: World, j: nat, now: int, chosen: seq<nat>, w': World)
    requires Inv(jobs, devices, cooldown, clock, w) && Dispatches(jobs, w, j, now, chosen, w')
    ensures Inv(jobs, devices, cooldown, clock, w')
  {
    DroppedPending(w.pending, j, w'.pending);
    AcquireMoves(w.pool, jobs[j].devices, now, chosen, w'.pool);
    HeldStart(w.running, w.deviceIds, j, chosen, |w.deviceIds|);
    assert DevicesPlaced(devices, w');
    assert forall d :: d in w'.pool.free ==> d in w.pool.free by {
      forall d | d in w'.pool.free
        ensures d in w.pool.free
      {
        assert d in multiset(w'.pool.free);
        assert d in multiset(w.pool.free);
      }
    }
    DispatchJobs(jobs, w, j, w');
    DispatchGates(jobs, w, j, w');
  }

  lemma DispatchJobs(jobs: seq<Job>, w: World, j: nat, w': World)
    requires JobsPlaced(jobs, w) && j in w.pending && j < |jobs|
    requires forall i, k :: 0 <= i < k < |w'.pending| ==> w'.pending[i] < w'.pending[k]
    requires forall x: nat :: x in w'.pending <==> x in w.pending && x != j
    requires w'.running == w.running + {j} && w'.done == w.done && w'.dispatched == w.dispatched + [j]
    requires |w'.deviceIds| == |w.deviceIds|
    ensures JobsPlaced(jobs, w')
  {
    assert j !in w.dispatched;
  }

  lemma DispatchGates(jobs: seq<Job>, w: World, j: nat, w': World)
    requires GatesOk(jobs, w) && j < |jobs| && Ready(jobs, w, j)
    requires forall x: nat :: x in w'.pending <==> x in w.pending && x != j
    requires w'.done == w.done && w'.exportOpen == w.exportOpen && w'.compileOpen == w.compileOpen
    ensures GatesOk(jobs, w')
  {
    forall i: nat | i < |jobs| && OwnsExport(jobs, i, j)
      ensures i in w.done
    {
      OwnerIsFirst(jobs, i, j);
    }
    forall i: nat | i < |jobs| && OwnsCompile(jobs, i, j)
      ensures i in w.done
    {
      OwnerIsFirst(jobs, i, j);
    }
  }

  /** A job waits only for jobs before it in the queue. */
  lemma OwnerIsFirst(jobs: seq<Job>, i: nat, j: nat)
    requires i < |jobs| && j < |jobs|
    ensures OwnsExport(jobs, i, j) ==> i < j && !ExportCold(jobs, j)
    ensures OwnsCompile(jobs, i, j) ==> i < j && !CompileCold(jobs, j)
  {
  }

  // ----- completion keeps the invariant -----

  lemma {:induction false} HeldContains(running: set<nat>, deviceIds: seq<seq<nat>>, j: nat, n: nat)
    requires j < n <= |deviceIds| && j in running
    ensures multiset(deviceIds[j]) <= Held(running, deviceIds, n)
  {
    if j < n - 1 {
      HeldContains(running, deviceIds, j, n - 1);
    }
  }

  /** A running job's devices are distinct and outside the pool. */
  lemma HeldOutside(devices: seq<nat>, w: World, j: nat)
    requires Unique(devices) && DevicesPlaced(devices, w) && j in w.running && j < |w.deviceIds|
    ensures Unique(w.deviceIds[j]) && forall d :: d in w.deviceIds[j] ==> d !in w.pool.free && d !in w.pool.quarantined
  {
    var ids := w.deviceIds[j];
    UniqueMultiset(devices);
    HeldContains(w.running, w.deviceIds, j, |w.deviceIds|);
    assert multiset(ids) <= multiset(devices);
    forall i, k | 0 <= i < k < |ids|
      ensures ids[i] != ids[k]
    {
      assert multiset(ids)[ids[i]] <= multiset(devices)[ids[i]] <= 1;
      if ids[i] == ids[k] {
        Twice(ids, i, k);
      }
    }
    forall d | d in ids
      ensures d !in w.pool.free && d !in w.pool.quarantined
    {
      assert multiset(ids)[d] >= 1;
      assert (Inside(w.pool) + Held(w.running, w.deviceIds, |w.deviceIds|))[d] <= 1;
      assert multiset(w.pool.free)[d] == 0 && multiset(w.pool.quarantined)[d] == 0;
    }
  }

  lemma Twice(s: seq<nat>, i: nat, k: nat)
    requires i < k < |s| && s[i] == s[k]
    ensures multiset(s)[s[i]] >= 2
  {
    assert s == s[..k] + [s[k]] + s[k+1..];
    assert s[..k][i] == s[i];
  }

  lemma CompleteHolds(jobs: seq<Job>, devices: seq<nat>, cooldown: nat, clock: int, w: World, j: nat, now: int,
                      ready: set<nat>, order: seq<nat>, w': World)
    requires Inv(jobs, devices, cooldown, clock, w) && Completes(jobs, cooldown, w, j, now, ready, order, w') && now >= clock
    ensures Inv(jobs, devices, cooldown, now, w')
  {
    HeldOutside(devices, w, j);
    ReleaseReturns(w.pool, w.deviceIds[j], ready, order, now, cooldown, w'.pool);
    HeldEnd(w.running, w.deviceIds, j, |w.deviceIds|);
    assert DevicesPlaced(devices, w');
    forall d: nat | d in w'.pool.free && d in w'.lastRelease
      ensures CoolAt(w'.pool.cooldownUntil, d) >= w'.lastRelease[d] + cooldown
    {
      assert d in w.pool.free || d in order;
    }
    CompleteGates(jobs, w, j, w');
  }

  lemma CompleteGates(jobs: seq<Job>, w: World, j: nat, w': World)
    requires JobsPlaced(jobs, w) && GatesOk(jobs, w) && j in w.running && j < |jobs|
    requires w'.pending == w.pending && w'.done == w.done + {j}
    requires w'.exportOpen == if ExportCold(jobs, j) && jobs[j].model.Some? then w.exportOpen + {jobs[j].model.value} else w.exportOpen
    requires w'.compileOpen == if CompileCold(jobs, j) then w.compileOpen + {jobs[j].config} else w.compileOpen
    ensures GatesOk(jobs, w')
  {
    // Two owners of one key would each have to come before the other.
    assert forall i: nat :: i < |jobs| && i != j && ExportCold(jobs, i) && ExportCold(jobs, j) && jobs[i].model.Some? ==> jobs[i].model != jobs[j].model;
    assert forall i: nat :: i < |jobs| && i != j && CompileCold(jobs, i) && CompileCold(jobs, j) ==> jobs[i].config != jobs[j].config;
  }

  // ----- every run -----

  ghost predicate Run(jobs: seq<Job>, devices: seq<nat>, cooldown: nat, clock: int, events: seq<Event>, ws: seq<World>) {
    && |ws| == |events| + 1
    && Init(jobs, devices, ws[0])
    && (forall n :: 0 <= n < |events| ==> RunStep(jobs, cooldown, clock, events, ws, n))
  }

  ghost predicate RunStep(jobs: seq<Job>, cooldown: nat, clock: int, events: seq<Event>, ws: seq<World>, n: nat)
    requires n < |events| && |ws| == |events| + 1
  {
    Step(jobs, cooldown, ws[n], events[n], ws[n + 1]) && events[n].now >= Clock(events, n, clock)
  }

  /** The time of the last event before n. */
  function Clock(events: seq<Event>, n: nat, clock: int): int
    requires n <= |events|
  {
    if n == 0 then clock else events[n - 1].now
  }

  lemma LaterClock(cooldown: nat, clock: int, later: int, w: World)
    requires Cooling(cooldown, clock, w) && clock <= later
    ensures Cooling(cooldown, later, w)
  {
  }

  lemma StepHolds(jobs: seq<Job>, devices: seq<nat>, cooldown: nat, clock: int, w: World, e: Event, w': World)
    requires Inv(jobs, devices, cooldown, clock, w) && Step(jobs, cooldown, w, e, w') && e.now >= clock
    ensures Inv(jobs, devices, cooldown, e.now, w')
  {
    match e
    case Dispatch(j, now, chosen) =>
      DispatchHolds(jobs, devices, cooldown, clock, w, j, now, chosen, w');
      LaterClock(cooldown, clock, now, w');
    case Complete(j, now, ready, order) =>
      CompleteHolds(jobs, devices, cooldown, clock, w, j, now, ready, order, w');
  }

  lemma RunStart(jobs: seq<Job>, devices: seq<nat>, cooldown: nat, clock: int, events: seq<Event>, ws: seq<World>)
    requires Run(jobs, devices, cooldown, clock, events, ws)
    ensures Inv(jobs, devices, cooldown, Clock(events, 0, clock), ws[0])
  {
    InitHolds(jobs, devices, cooldown, clock, ws[0]);
  }

  lemma RunNext(jobs: seq<Job>, devices: seq<nat>, cooldown: nat, clock: int, events: seq<Event>, ws: seq<World>, n: nat)
    requires n < |events| && |ws| == |events| + 1 && RunStep(jobs, cooldown, clock, events, ws, n)
    requires Inv(jobs, devices, cooldown, Clock(events, n, clock), ws[n])
    ensures Inv(jobs, devices, cooldown, Clock(events, n + 1, clock), ws[n + 1])
  {
    StepHolds(jobs, devices, cooldown, Clock(events, n, clock), ws[n], events[n], ws[n + 1]);
  }

  lemma {:induction false} RunHolds(jobs: seq<Job>, devices: seq<nat>, cooldown: nat, clock: int, events: seq<Event>, ws: seq<World>, n: nat)
    requires Run(jobs, devices, cooldown, clock, events, ws) && n <= |events|
    ensures Inv(jobs, devices, cooldown, Clock(events, n, clock), ws[n])
    decreases n
  {
    if n == 0 {
      RunStart(jobs, devices, cooldown, clock, events, ws);
    } else {
      var m := n - 1;
      RunHolds(jobs, devices, cooldown, clock, events, ws, m);
      assert RunStep(jobs, cooldown, clock, events, ws, m);
      RunNext(jobs, devices, cooldown, clock, events, ws, m);
    }
  }

  /** At every point of every run: free, quarantined and held devices are the pool, without loss or copy. */
  lemma DevicesConserved(jobs: seq<Job>, devices: seq<nat>, cooldown: nat, clock: int, events: seq<Event>, ws: seq<World>, n: nat)
    requires Run(jobs, devices, cooldown, clock, events, ws) && n <= |events|
    ensures |ws[n].deviceIds| == |jobs|
    ensures multiset(ws[n].pool.free) + multiset(ws[n].pool.quarantined) + Held(ws[n].running, ws[n].deviceIds, |jobs|) == multiset(devices)
    ensures forall d :: (multiset(ws[n].pool.free) + multiset(ws[n].pool.quarantined) + Held(ws[n].running, ws[n].deviceIds, |jobs|))[d] <= 1
  {
    RunHolds(jobs, devices, cooldown, clock, events, ws, n);
    UniqueMultiset(devices);
  }

  /** No device is handed out before its cooldown after its last release has passed. */
  lemma CooldownRespected(jobs: seq<Job>, devices: seq<nat>, cooldown: nat, clock: int, events: seq<Event>, ws: seq<World>, n: nat, d: nat)
    requires Run(jobs, devices, cooldown, clock, events, ws) && n < |events|
    requires events[n].Dispatch? && d in events[n].chosen && d in ws[n].lastRelease
    ensures events[n].now >= ws[n].lastRelease[d] + cooldown
  {
    RunHolds(jobs, devices, cooldown, clock, events, ws, n);
    assert RunStep(jobs, cooldown, clock, events, ws, n);
    FreeIsCool(jobs, cooldown, Clock(events, n, clock), ws[n], events[n].j, events[n].now, events[n].chosen, ws[n + 1], d);
  }

  lemma FreeIsCool(jobs: seq<Job>, cooldown: nat, clock: int, w: World, j: nat, now: int, chosen: seq<nat>, w': World, d: nat)
    requires Cooling(cooldown, clock, w) && Dispatches(jobs, w, j, now, chosen, w')
    requires d in chosen && d in w.lastRelease
    ensures now >= w.lastRelease[d] + cooldown
  {
    assert d in Available(w.pool.free, w.pool.cooldownUntil, now);
  }

  /**
   Until the owner of a model's export (or of a configuration's compile) is done, no other job with that
   key has been dispatched.
   */
  lemma OwnersFirst(jobs: seq<Job>, devices: seq<nat>, cooldown: nat, clock: int, events: seq<Event>, ws: seq<World>, n: nat, i: nat, j: nat)
    requires Run(jobs, devices, cooldown, clock, events, ws) && n <= |events| && i < |jobs| && j < |jobs|
    requires OwnsExport(jobs, i, j) || OwnsCompile(jobs, i, j)
    ensures j in ws[n].dispatched ==> i in ws[n].done
  {
    RunHolds(jobs, devices, cooldown, clock, events, ws, n);
  }

  /** Job i is the first with job j's model, or with its configuration, and comes before it. */
  ghost predicate GoesBefore(jobs: seq<Job>, i: nat, j: nat)
    requires i < |jobs| && j < |jobs|
  {
    && i < j
    && ((jobs[j].model.Some? && jobs[i].model == jobs[j].model && forall k :: 0 <= k < i ==> jobs[k].model != jobs[j].model)
        || (jobs[i].config == jobs[j].config && forall k :: 0 <= k < i ==> jobs[k].config != jobs[j].config))
  }

  /** In every state of every run the gates let a job through exactly when the first jobs of its keys are done, or it is the first itself. */
  lemma ReadyIff(jobs: seq<Job>, devices: seq<nat>, cooldown: nat, clock: int, events: seq<Event>, ws: seq<World>, n: nat, j: nat)
    requires Run(jobs, devices, cooldown, clock, events, ws) && n <= |events| && j < |jobs|
    ensures Ready(jobs, ws[n], j) <==> forall i: nat :: i < j && GoesBefore(jobs, i, j) ==> i in ws[n].done
  {
    RunHolds(jobs, devices, cooldown, clock, events, ws, n);
    GatesSay(jobs, ws[n], j);
  }

  lemma GatesSay(jobs: seq<Job>, w: World, j: nat)
    requires GatesOk(jobs, w) && j < |jobs|
    ensures Ready(jobs, w, j) <==> forall i: nat :: i < j && GoesBefore(jobs, i, j) ==> i in w.done
  {
    OneOwner(jobs, j);
    if !ExportCold(jobs, j) {
      var i: nat :| i <= j && ExportCold(jobs, i) && jobs[i].model == jobs[j].model;
      assert GoesBefore(jobs, i, j);
    }
    if !CompileCold(jobs, j) {
      var i: nat :| i <= j && CompileCold(jobs, i) && jobs[i].config == jobs[j].config;
      assert GoesBefore(jobs, i, j);
    }
  }

  /** Each running job holds as many devices as it asks for. */
  ghost predicate HoldsEnough(jobs: seq<Job>, w: World) {
    |w.deviceIds| == |jobs| && forall j: nat :: j in w.running && j < |jobs| ==> |w.deviceIds[j]| == jobs[j].devices
  }

  /** In every state of every run a running job holds exactly as many devices as it asks for, distinct ones of the pool that are not free. */
  lemma RunningHolds(jobs: seq<Job>, devices: seq<nat>, cooldown: nat, clock: int, events: seq<Event>, ws: seq<World>, n: nat, j: nat)
    requires Run(jobs, devices, cooldown, clock, events, ws) && n <= |events| && j in ws[n].running
    ensures j < |jobs| == |ws[n].deviceIds| && |ws[n].deviceIds[j]| == jobs[j].devices && Unique(ws[n].deviceIds[j])
    ensures forall d :: d in ws[n].deviceIds[j] ==> d in devices && d !in ws[n].pool.free && d !in ws[n].pool.quarantined
  {
    RunHolds(jobs, devices, cooldown, clock, events, ws, n);
    EnoughHeld(jobs, devices, cooldown, clock, events, ws, n);
    HeldOutside(devices, ws[n], j);
    HeldContains(ws[n].running, ws[n].deviceIds, j, |ws[n].deviceIds|);
    forall d | d in ws[n].deviceIds[j]
      ensures d in devices
    {
      assert multiset(ws[n].deviceIds[j])[d] > 0;
      assert multiset(devices)[d] > 0;
    }
  }

  lemma {:induction false} EnoughHeld(jobs: seq<Job>, devices: seq<nat>, cooldown: nat, clock: int, events: seq<Event>, ws: seq<World>, n: nat)
    requires Run(jobs, devices, cooldown, clock, events, ws) && n <= |events|
    ensures HoldsEnough(jobs, ws[n])
    decreases n
  {
    if n > 0 {
      EnoughHeld(jobs, devices, cooldown, clock, events, ws, n - 1);
      assert RunStep(jobs, cooldown, clock, events, ws, n - 1);
      if events[n - 1].Dispatch? {
        AcquireMoves(ws[n - 1].pool, jobs[events[n - 1].j].devices, events[n - 1].now, events[n - 1].chosen, ws[n].pool);
      }
    }
  }

  /** Every key has exactly one owner, its first job. */
  lemma OneOwner(jobs: seq<Job>, j: nat)
    requires j < |jobs|
    ensures jobs[j].model.None? ==> ExportCold(jobs, j)
    ensures jobs[j].model.Some? ==> exists i: nat :: i <= j && ExportCold(jobs, i) && jobs[i].model == jobs[j].model
    ensures exists i: nat :: i <= j && CompileCold(jobs, i) && jobs[i].config == jobs[j].config
    ensures forall i: nat, k: nat ::
      i < |jobs| && k < |jobs| && jobs[i].model.Some? && jobs[i].model == jobs[k].model && ExportCold(jobs, i) && ExportCold(jobs, k) ==> i == k
    ensures forall i: nat, k: nat ::
      i < |jobs| && k < |jobs| && jobs[i].config == jobs[k].config && CompileCold(jobs, i) && CompileCold(jobs, k) ==> i == k
    decreases j
  {
    if jobs[j].model.Some? && !ExportCold(jobs, j) {
      var i :| 0 <= i < j && jobs[i].model == jobs[j].model;
      OneOwner(jobs, i);
    }
    if !CompileCold(jobs, j) {
      var i :| 0 <= i < j && jobs[i].config == jobs[j].config;
      OneOwner(jobs, i);
    }
  }

  /** Gates never close. */
  lemma GatesStayOpen(jobs: seq<Job>, devices: seq<nat>, cooldown: nat, clock: int, events: seq<Event>, ws: seq<World>, m: nat, n: nat)
    requires Run(jobs, devices, cooldown, clock, events, ws) && m <= n <= |events|
    ensures ws[m].exportOpen <= ws[n].exportOpen && ws[m].compileOpen <= ws[n].compileOpen && ws[m].done <= ws[n].done
    ensures ws[m].dispatched <= ws[n].dispatched
    decreases n - m
  {
    if m < n {
      assert RunStep(jobs, cooldown, clock, events, ws, m);
      GatesStayOpen(jobs, devices, cooldown, clock, events, ws, m + 1, n);
    }
  }

  // ----- progress -----

  /** With nothing running the first pending job is ready: all its gate owners come before it. */
  lemma FirstPendingReady(jobs: seq<Job>, devices: seq<nat>, cooldown: nat, clock: int, w: World)
    requires Inv(jobs, devices, cooldown, clock, w) && w.running == {} && w.pending != []
    ensures w.pending[0] < |jobs| && Ready(jobs, w, w.pending[0])
  {
    var j := w.pending[0];
    assert j in w.pending;
    OneOwner(jobs, j);
    forall i: nat | i < j
      ensures i in w.done
    {
      assert i !in w.pending;
    }
  }

  /** With nothing running or quarantined and every cooldown over, there are devices for any job of the pool's size. */
  lemma DevicesBack(devices: seq<nat>, w: World, now: int, count: nat)
    requires DevicesPlaced(devices, w) && w.running == {} && w.pool.quarantined == {} && count <= |devices|
    requires forall d :: d in w.pool.free ==> CoolAt(w.pool.cooldownUntil, d) <= now
    ensures |Available(w.pool.free, w.pool.cooldownUntil, now)| >= count
  {
    HeldNone(w.deviceIds, |w.deviceIds|);
    assert multiset(w.pool.free) == multiset(devices);
    assert |multiset(w.pool.free)| == |w.pool.free| && |multiset(devices)| == |devices|;
    AllAvailable(w.pool.free, w.pool.cooldownUntil, now);
  }

  // ----- without readiness -----

  /** j waits for nothing but devices, and the free ones would do once they have cooled down. */
  ghost predicate Startable(jobs: seq<Job>, w: World, j: nat) {
    j in w.pending && j < |jobs| && Ready(jobs, w, j) && jobs[j].devices <= |w.pool.free|
  }

  /** Some event is possible, now or later. */
  ghost predicate CanGoOn(jobs: seq<Job>, cooldown: nat, clock: int, w: World) {
    exists e: Event, w': World :: e.now >= clock && Step(jobs, cooldown, w, e, w')
  }

  /** A time, not before `clock`, at which nothing free is cooling down. */
  ghost function CoolTime(free: seq<nat>, until: map<nat, int>, clock: int): (t: int)
    ensures t >= clock && forall d :: d in free ==> CoolAt(until, d) <= t
  {
    if free == [] then clock
    else
      var t := CoolTime(free[1..], until, clock);
      if CoolAt(until, free[0]) > t then CoolAt(until, free[0]) else t
  }

  /** With nothing running, the scheduler can go on exactly when a ready pending job fits the devices not in quarantine. */
  lemma QuarantineBlocksIff(jobs: seq<Job>, devices: seq<nat>, cooldown: nat, clock: int, w: World)
    requires Inv(jobs, devices, cooldown, clock, w) && w.running == {}
    ensures |w.pool.free| == |devices| - |w.pool.quarantined|
    ensures CanGoOn(jobs, cooldown, clock, w) <==> exists j :: Startable(jobs, w, j)
  {
    FreeCount(devices, w);
    if CanGoOn(jobs, cooldown, clock, w) {
      var e: Event, w': World :| e.now >= clock && Step(jobs, cooldown, w, e, w');
      assert Startable(jobs, w, e.j);
    }
    if j :| Startable(jobs, w, j) {
      LateStart(jobs, cooldown, clock, w, j);
    }
  }

  lemma FreeCount(devices: seq<nat>, w: World)
    requires DevicesPlaced(devices, w) && w.running == {}
    ensures |w.pool.free| == |devices| - |w.pool.quarantined|
  {
    HeldNone(w.deviceIds, |w.deviceIds|);
    assert |multiset(w.pool.free)| == |w.pool.free| && |multiset(devices)| == |devices|;
    assert |multiset(w.pool.quarantined)| == |w.pool.quarantined|;
  }

  lemma LateStart(jobs: seq<Job>, cooldown: nat, clock: int, w: World, j: nat)
    requires Startable(jobs, w, j) && |w.deviceIds| == |jobs|
    ensures CanGoOn(jobs, cooldown, clock, w)
  {
    var free, count := w.pool.free, jobs[j].devices;
    var now := CoolTime(free, w.pool.cooldownUntil, clock);
    var k :| 0 <= k < |w.pending| && w.pending[k] == j;
    var pending := w.pending[..k] + w.pending[k+1..];
    assert Dropped(w.pending, j, pending);
    LateAcquire(w.pool, count, now);
    var w' := w.(pool := w.pool.(free := free[count..]), pending := pending, running := w.running + {j},
                 deviceIds := w.deviceIds[j := free[..count]], dispatched := w.dispatched + [j]);
    assert Dispatches(jobs, w, j, now, free[..count], w');
    assert Step(jobs, cooldown, w, Dispatch(j, now, free[..count]), w');
  }

  lemma LateAcquire(p: Pool, count: nat, now: int)
    requires count <= |p.free| && forall d :: d in p.free ==> CoolAt(p.cooldownUntil, d) <= now
    ensures Acquired(p, count, now, p.free[..count], p.(free := p.free[count..]))
  {
    AllAvailable(p.free, p.cooldownUntil, now);
    RemoveFront(p.free, count);
    FrontMultiset(p.free, count);
  }

  // ----- how runs end, whatever the readiness checks say -----

  /** Every event is the only dispatch or the only completion of its job. */
  lemma {:induction false} EventsCounted(jobs: seq<Job>, devices: seq<nat>, cooldown: nat, clock: int, events: seq<Event>, ws: seq<World>, n: nat)
    requires Run(jobs, devices, cooldown, clock, events, ws) && n <= |events|
    ensures n == |ws[n].dispatched| + |ws[n].done|
    decreases n
  {
    if n > 0 {
      var m := n - 1;
      EventsCounted(jobs, devices, cooldown, clock, events, ws, m);
      RunHolds(jobs, devices, cooldown, clock, events, ws, m);
      assert RunStep(jobs, cooldown, clock, events, ws, m);
      CountStep(jobs, cooldown, ws[m], events[m], ws[n]);
    }
  }

  lemma CountStep(jobs: seq<Job>, cooldown: nat, w: World, e: Event, w': World)
    requires JobsPlaced(jobs, w) && Step(jobs, cooldown, w, e, w')
    ensures |w'.dispatched| + |w'.done| == |w.dispatched| + |w.done| + 1
  {
    if e.Complete? {
      assert e.j !in w.done;
    }
  }

  lemma {:induction false} UniqueBelow(s: seq<nat>, n: nat)
    requires Unique(s) && forall x :: x in s ==> x < n
    ensures |s| <= n
    decreases n
  {
    assert s != [] ==> s[0] in s;
    if n > 0 && n - 1 in s {
      var k :| 0 <= k < |s| && s[k] == n - 1;
      var r := s[..k] + s[k+1..];
      assert forall x :: x in r ==> x in s && x != n - 1;
      UniqueBelow(r, n - 1);
    } else if n > 0 {
      UniqueBelow(s, n - 1);
    }
  }

  lemma SetBelow(s: set<nat>, n: nat)
    requires forall x :: x in s ==> x < n
    ensures |s| <= n
    decreases n
  {
    if n > 0 {
      SetBelow(s - {n - 1}, n - 1);
    } else {
      assert s == {};
    }
  }

  /** No run has more than two events for each job. */
  lemma RunsAreShort(jobs: seq<Job>, devices: seq<nat>, cooldown: nat, clock: int, events: seq<Event>, ws: seq<World>)
    requires Run(jobs, devices, cooldown, clock, events, ws)
    ensures |events| <= 2 * |jobs|
  {
    var w := ws[|events|];
    EventsCounted(jobs, devices, cooldown, clock, events, ws, |events|);
    RunHolds(jobs, devices, cooldown, clock, events, ws, |events|);
    UniqueBelow(w.dispatched, |jobs|);
    SetBelow(w.done, |jobs|);
  }

  /** Every job has been dispatched and is done. */
  ghost predicate AllJobsDone(jobs: seq<Job>, w: World) {
    && w.pending == [] && w.running == {}
    && Unique(w.dispatched) && (forall j: nat :: j in w.dispatched <==> j < |jobs|)
    && forall j: nat :: j in w.done <==> j < |jobs|
  }

  /** Nothing runs, something is pending, and no gate-ready job fits the devices outside quarantine. */
  ghost predicate Blocked(jobs: seq<Job>, w: World) {
    w.running == {} && w.pending != [] && forall j :: !Startable(jobs, w, j)
  }

  /** A running job can always complete. */
  lemma RunningGoesOn(jobs: seq<Job>, cooldown: nat, clock: int, w: World, j: nat)
    requires JobsPlaced(jobs, w) && j in w.running
    ensures CanGoOn(jobs, cooldown, clock, w)
  {
    var ids := w.deviceIds[j];
    var released := set d | d in ids;
    var w' := w.(pool := w.pool.(quarantined := w.pool.quarantined + released), running := w.running - {j}, done := w.done + {j},
                 lastRelease := map d: nat | d in w.lastRelease.Keys + released :: if d in ids then clock else w.lastRelease[d],
                 exportOpen := if ExportCold(jobs, j) && jobs[j].model.Some? then w.exportOpen + {jobs[j].model.value} else w.exportOpen,
                 compileOpen := if CompileCold(jobs, j) then w.compileOpen + {jobs[j].config} else w.compileOpen);
    assert Released(w.pool, ids, {}, [], clock, cooldown, w'.pool) by { assert w.pool.free + [] == w.pool.free; }
    assert Step(jobs, cooldown, w, Complete(j, clock, {}, []), w');
  }

  /** A run cannot go on exactly when all jobs are done or quarantine blocks the rest. */
  lemma RunEndsIff(jobs: seq<Job>, devices: seq<nat>, cooldown: nat, clock: int, events: seq<Event>, ws: seq<World>)
    requires Run(jobs, devices, cooldown, clock, events, ws)
    ensures !CanGoOn(jobs, cooldown, Clock(events, |events|, clock), ws[|events|])
       <==> AllJobsDone(jobs, ws[|events|]) || Blocked(jobs, ws[|events|])
  {
    var w, now := ws[|events|], Clock(events, |events|, clock);
    RunHolds(jobs, devices, cooldown, clock, events, ws, |events|);
    if w.running == {} {
      QuarantineBlocksIff(jobs, devices, cooldown, now, w);
    } else {
      var j :| j in w.running;
      RunningGoesOn(jobs, cooldown, now, w, j);
    }
  }

  /**
   The scheduler can really get there: two jobs of one device each share the only device, and the device fails
   its readiness check when the first job releases it.  The second job stays pending for ever.
   */
  lemma BlockedRun(cooldown: nat) returns (jobs: seq<Job>, events: seq<Event>, ws: seq<World>)
    ensures Run(jobs, [0], cooldown, 0, events, ws)
    ensures |jobs| == 2 && (forall j :: 0 <= j < 2 ==> jobs[j].devices == 1) && ws[|events|].pending == [1] && ws[|events|].running == {}
    ensures !CanGoOn(jobs, cooldown, Clock(events, |events|, 0), ws[|events|])
  {
    jobs := [Job(None, 0, 1), Job(None, 1, 1)];
    events := [Dispatch(0, 0, [0]), Complete(0, 0, {}, [])];
    var w0 := World(Pool([0], {}, map[]), [0, 1], {}, [[], []], {}, {}, {}, [], map[]);
    var w1 := World(Pool([], {}, map[]), [1], {0}, [[0], []], {}, {}, {}, [0], map[]);
    var w2 := World(Pool([], {0}, map[]), [1], {}, [[0], []], {}, {0}, {0}, [0], map[0 := 0]);
    ws := [w0, w1, w2];
    FirstStarts(jobs, w0, w1);
    FirstFails(jobs, cooldown, w1, w2);
    assert Init(jobs, [0], w0);
    TwoSteps(jobs, [0], cooldown, events[0], events[1], w0, w1, w2);
    BlockedLast(jobs, cooldown, events, ws);
  }

  lemma TwoSteps(jobs: seq<Job>, devices: seq<nat>, cooldown: nat, d: Event, e: Event, w0: World, w1: World, w2: World)
    requires Init(jobs, devices, w0) && Step(jobs, cooldown, w0, d, w1) && Step(jobs, cooldown, w1, e, w2) && 0 <= d.now <= e.now
    ensures Run(jobs, devices, cooldown, 0, [d, e], [w0, w1, w2])
  {
    assert RunStep(jobs, cooldown, 0, [d, e], [w0, w1, w2], 0) && RunStep(jobs, cooldown, 0, [d, e], [w0, w1, w2], 1);
  }

  lemma BlockedLast(jobs: seq<Job>, cooldown: nat, events: seq<Event>, ws: seq<World>)
    requires Run(jobs, [0], cooldown, 0, events, ws) && Clock(events, |events|, 0) == 0
    requires ws[|events|].running == {} && ws[|events|].pool.free == [] && forall j :: 0 <= j < |jobs| ==> jobs[j].devices == 1
    ensures !CanGoOn(jobs, cooldown, Clock(events, |events|, 0), ws[|events|])
  {
    RunHolds(jobs, [0], cooldown, 0, events, ws, |events|);
    NothingFree(jobs, cooldown, ws[|events|]);
  }

  lemma NothingFree(jobs: seq<Job>, cooldown: nat, w: World)
    requires Inv(jobs, [0], cooldown, 0, w) && w.running == {} && w.pool.free == []
    requires forall j :: 0 <= j < |jobs| ==> jobs[j].devices == 1
    ensures !CanGoOn(jobs, cooldown, 0, w)
  {
    QuarantineBlocksIff(jobs, [0], cooldown, 0, w);
  }

  lemma FirstStarts(jobs: seq<Job>, w: World, w': World)
    requires jobs == [Job(None, 0, 1), Job(None, 1, 1)]
    requires w == World(Pool([0], {}, map[]), [0, 1], {}, [[], []], {}, {}, {}, [], map[])
    requires w' == World(Pool([], {}, map[]), [1], {0}, [[0], []], {}, {}, {}, [0], map[])
    ensures Dispatches(jobs, w, 0, 0, [0], w')
  {
    AllAvailable([0], map[], 0);
    RemoveFront([0], 1);
    assert w.pending[..0] + w.pending[0+1..] == [1];
  }

  lemma FirstFails(jobs: seq<Job>, cooldown: nat, w: World, w': World)
    requires jobs == [Job(None, 0, 1), Job(None, 1, 1)]
    requires w == World(Pool([], {}, map[]), [1], {0}, [[0], []], {}, {}, {}, [0], map[])
    requires w' == World(Pool([], {0}, map[]), [1], {}, [[0], []], {}, {0}, {0}, [0], map[0 := 0])
    ensures Completes(jobs, cooldown, w, 0, 0, {}, [], w')
  {
    assert ExportCold(jobs, 0) && CompileCold(jobs, 0);
  }
}
