/** The scheduler object and its run loop, which in a fair environment ends exactly when quarantine never blocks it. */
module Scheduler {
  import opened Wrappers
  import opened DevicePool
  import opened SchedulerModel

  /**
   What happens while the run loop is not scanning, and during its next scan: jobs that finish, one after the
   other, the devices that pass their readiness check at each release, the order in which a set of devices is
   walked, and the successive clock readings, first those of the releases and then one for each place of the queue.
   */
  datatype Wake = Wake(finished: seq<nat>, ready: nat -> set<nat>, walk: set<nat> -> seq<nat>, clock: nat -> int)

  /** order lists the members of s, each once. */
  ghost predicate Lists(order: seq<nat>, s: set<nat>) {
    Unique(order) && forall d :: d in order <==> d in s
  }

  /** The readings of the scan after the wake-up. */
  function ScanClock(wk: Wake): nat -> int {
    (i: nat) => wk.clock(|wk.finished| + i)
  }

  ghost predicate Rising(clock: nat -> int) {
    forall i: nat, k: nat :: i <= k ==> clock(i) <= clock(k)
  }

  ghost predicate FinishesAfter(wake: nat -> Wake, n: nat, j: nat) {
    exists m: nat :: m > n && j in wake(m).finished
  }

  ghost predicate TimeReaches(wake: nat -> Wake, n: nat, t: int) {
    exists m: nat :: m >= n && wake(m).clock(0) >= t
  }

  /** Time never goes back and goes on for ever, and walking a set meets each member once. */
  ghost predicate Timely(wake: nat -> Wake) {
    && (forall n: nat, s: set<nat> :: Lists(wake(n).walk(s), s))
    && (forall n: nat :: Rising(wake(n).clock))
    && (forall n: nat, i: nat :: wake(n).clock(i) <= wake(n + 1).clock(0))
    && (forall n: nat, t: int :: TimeReaches(wake, n, t))
  }

  /** A job still running when a round of the loop begins finishes some time. */
  ghost predicate Fair(jobs: seq<Job>, cooldown: nat, wake: nat -> Wake, w: World) {
    forall ws: seq<World> :: Rounds(jobs, cooldown, wake, w, ws) ==> RunningFinish(jobs, wake, |ws| - 1, ws[|ws|-1])
  }

  ghost predicate RunningFinish(jobs: seq<Job>, wake: nat -> Wake, n: nat, w: World) {
    forall j: nat :: j < |jobs| && j in w.running ==> FinishesAfter(wake, n, j)
  }

  function Devices(ids: seq<nat>): (s: set<nat>) { set d | d in ids }

  /** The last release times after the devices of `ids` are released now. */
  ghost function Stamped(last: map<nat, int>, ids: seq<nat>, now: int): (r: map<nat, int>)
    ensures forall d: nat :: d in r <==> d in last || d in ids
    ensures forall d: nat :: d in r ==> r[d] == if d in ids then now else last[d]
  {
    map d: nat | d in last.Keys + Devices(ids) :: if d in ids then now else last[d]
  }

  /** w is the last state of some run that is over at time `clock`. */
  ghost predicate Reachable(jobs: seq<Job>, devices: seq<nat>, cooldown: nat, clock: int, w: World) {
    exists start: int, events: seq<Event>, ws: seq<World> :: RunsTo(jobs, devices, cooldown, start, events, ws, clock, w)
  }

  ghost predicate RunsTo(jobs: seq<Job>, devices: seq<nat>, cooldown: nat, start: int, events: seq<Event>, ws: seq<World>, clock: int, w: World) {
    Run(jobs, devices, cooldown, start, events, ws) && ws[|events|] == w && Clock(events, |events|, start) <= clock
  }

  lemma ReachableStart(jobs: seq<Job>, devices: seq<nat>, cooldown: nat, clock: int, w: World)
    requires Init(jobs, devices, w)
    ensures Reachable(jobs, devices, cooldown, clock, w)
  {
    assert RunsTo(jobs, devices, cooldown, clock, [], [w], clock, w);
  }

  lemma ReachableLater(jobs: seq<Job>, devices: seq<nat>, cooldown: nat, clock: int, later: int, w: World)
    requires Reachable(jobs, devices, cooldown, clock, w) && clock <= later
    ensures Reachable(jobs, devices, cooldown, later, w)
  {
    var start: int, events: seq<Event>, ws: seq<World> :| RunsTo(jobs, devices, cooldown, start, events, ws, clock, w);
    assert RunsTo(jobs, devices, cooldown, start, events, ws, later, w);
  }

  lemma ReachableStep(jobs: seq<Job>, devices: seq<nat>, cooldown: nat, clock: int, w: World, e: Event, w': World)
    requires Reachable(jobs, devices, cooldown, clock, w) && Step(jobs, cooldown, w, e, w') && clock <= e.now
    ensures Reachable(jobs, devices, cooldown, e.now, w')
  {
    var start: int, events: seq<Event>, ws: seq<World> :| RunsTo(jobs, devices, cooldown, start, events, ws, clock, w);
    RunExtend(jobs, devices, cooldown, start, events, ws, e, w');
    assert RunsTo(jobs, devices, cooldown, start, events + [e], ws + [w'], e.now, w');
  }

  lemma RunExtend(jobs: seq<Job>, devices: seq<nat>, cooldown: nat, start: int, events: seq<Event>, ws: seq<World>, e: Event, w': World)
    requires Run(jobs, devices, cooldown, start, events, ws) && Step(jobs, cooldown, ws[|events|], e, w')
    requires Clock(events, |events|, start) <= e.now
    ensures Run(jobs, devices, cooldown, start, events + [e], ws + [w'])
  {
    var events', ws' := events + [e], ws + [w'];
    forall n | 0 <= n < |events'|
      ensures RunStep(jobs, cooldown, start, events', ws', n)
    {
      if n < |events| {
        assert RunStep(jobs, cooldown, start, events, ws, n);
      }
    }
  }

  /** The invariant of the model holds in every reachable state. */
  lemma ReachableInv(jobs: seq<Job>, devices: seq<nat>, cooldown: nat, clock: int, w: World)
    requires Reachable(jobs, devices, cooldown, clock, w)
    ensures Inv(jobs, devices, cooldown, clock, w)
  {
    var start: int, events: seq<Event>, ws: seq<World> :| RunsTo(jobs, devices, cooldown, start, events, ws, clock, w);
    RunHolds(jobs, devices, cooldown, start, events, ws, |events|);
    LaterClock(cooldown, Clock(events, |events|, start), clock, w);
  }

  /** Job j is ready and finds its devices. */
  predicate CanStart(jobs: seq<Job>, w: World, j: nat, now: int)
    requires j < |jobs|
  {
    Ready(jobs, w, j) && |Available(w.pool.free, w.pool.cooldownUntil, now)| >= jobs[j].devices
  }

  /** A job at its turn in a scan: it starts exactly when it can. */
  ghost predicate Tried(jobs: seq<Job>, now: int, w: World, j: nat, w': World)
    requires j < |jobs|
  {
    if CanStart(jobs, w, j, now) then exists chosen :: Dispatches(jobs, w, j, now, chosen, w') else w' == w
  }

  /** ws are the states of a scan of `queue`, one job after the other, each with its own reading of the clock. */
  ghost predicate Scanned(jobs: seq<Job>, clock: nat -> int, queue: seq<nat>, ws: seq<World>) {
    && |ws| == |queue| + 1
    && forall i :: 0 <= i < |queue| ==> ScanStep(jobs, clock, queue, ws, i)
  }

  ghost predicate ScanStep(jobs: seq<Job>, clock: nat -> int, queue: seq<nat>, ws: seq<World>, i: nat)
    requires i < |queue| && |ws| == |queue| + 1
  {
    queue[i] < |jobs| && Tried(jobs, clock(i), ws[i], queue[i], ws[i + 1])
  }

  lemma ScannedNext(jobs: seq<Job>, clock: nat -> int, queue: seq<nat>, ws: seq<World>, j: nat, w: World)
    requires Scanned(jobs, clock, queue, ws) && j < |jobs| && Tried(jobs, clock(|queue|), ws[|queue|], j, w)
    ensures Scanned(jobs, clock, queue + [j], ws + [w])
  {
    forall i | 0 <= i < |queue| + 1
      ensures ScanStep(jobs, clock, queue + [j], ws + [w], i)
    {
      if i < |queue| {
        assert ScanStep(jobs, clock, queue, ws, i);
      }
    }
  }

  /** A scan keeps reachability, and each job it takes off the queue is running after it. */
  lemma {:induction false} ScanHolds(jobs: seq<Job>, devices: seq<nat>, cooldown: nat, clock: nat -> int, queue: seq<nat>, ws: seq<World>, n: nat)
    requires Scanned(jobs, clock, queue, ws) && n <= |queue| && Rising(clock)
    requires Reachable(jobs, devices, cooldown, clock(0), ws[0])
    ensures Reachable(jobs, devices, cooldown, clock(n), ws[n])
    ensures |ws[n].pending| + |ws[n].running| == |ws[0].pending| + |ws[0].running| && |ws[n].pending| <= |ws[0].pending|
    ensures |ws[n].pending| == |ws[0].pending| ==> ws[n] == ws[0]
    ensures forall i :: 0 <= i < n && queue[i] < |jobs| && CanStart(jobs, ws[0], queue[i], clock(i)) ==> |ws[n].pending| < |ws[0].pending|
    ensures ws[n].pool.quarantined == ws[0].pool.quarantined
  {
    if n > 0 {
      var m := n - 1;
      ScanHolds(jobs, devices, cooldown, clock, queue, ws, m);
      assert ScanStep(jobs, clock, queue, ws, m);
      TriedHolds(jobs, devices, cooldown, clock(m), ws[m], queue[m], ws[n]);
      ReachableLater(jobs, devices, cooldown, clock(m), clock(n), ws[n]);
    }
  }

  lemma TriedHolds(jobs: seq<Job>, devices: seq<nat>, cooldown: nat, now: int, w: World, j: nat, w': World)
    requires Reachable(jobs, devices, cooldown, now, w) && j < |jobs| && Tried(jobs, now, w, j, w')
    ensures Reachable(jobs, devices, cooldown, now, w') && w'.pool.quarantined == w.pool.quarantined
    ensures w' == w || (|w'.pending| == |w.pending| - 1 && |w'.running| == |w.running| + 1)
    ensures CanStart(jobs, w, j, now) ==> w' != w
  {
    if CanStart(jobs, w, j, now) {
      var chosen :| Dispatches(jobs, w, j, now, chosen, w');
      ReachableInv(jobs, devices, cooldown, now, w);
      ReachableStep(jobs, devices, cooldown, now, w, Dispatch(j, now, chosen), w');
      DroppedPending(w.pending, j, w'.pending);
      assert j !in w.running;
    }
  }

  /** Nothing free is cooling down. */
  ghost predicate Cooled(w: World, now: int) {
    forall d :: d in w.pool.free ==> CoolAt(w.pool.cooldownUntil, d) <= now
  }

  /** Once nothing is cooling down, a gate-ready job that fits the free devices can start. */
  lemma ScanMoves(jobs: seq<Job>, now: int, w: World, j: nat)
    requires Cooled(w, now) && Startable(jobs, w, j)
    ensures CanStart(jobs, w, j, now)
  {
    AllAvailable(w.pool.free, w.pool.cooldownUntil, now);
  }

  /** A whole scan, as the run loop uses it. */
  lemma ScanResult(jobs: seq<Job>, devices: seq<nat>, cooldown: nat, clock: nat -> int, ws: seq<World>)
    requires ws != [] && Scanned(jobs, clock, ws[0].pending, ws) && Rising(clock) && Reachable(jobs, devices, cooldown, clock(0), ws[0])
    ensures Reachable(jobs, devices, cooldown, clock(|ws| - 1), ws[|ws|-1])
    ensures ScanShrinks(jobs, ws[0], ws[|ws|-1], clock(0))
  {
    var w := ws[0];
    ScanHolds(jobs, devices, cooldown, clock, w.pending, ws, |ws| - 1);
    if Cooled(w, clock(0)) && exists j :: Startable(jobs, w, j) {
      var j :| Startable(jobs, w, j);
      var i :| 0 <= i < |w.pending| && w.pending[i] == j;
      assert clock(0) <= clock(i);
      ScanMoves(jobs, clock(i), w, j);
    }
  }

  ghost predicate ScanShrinks(jobs: seq<Job>, w: World, w': World, now: int) {
    && |w'.pending| + |w'.running| == |w.pending| + |w.running| && |w'.pending| <= |w.pending|
    && (|w'.pending| == |w.pending| ==> w' == w)
    && (Cooled(w, now) && (exists j :: Startable(jobs, w, j)) ==> |w'.pending| < |w.pending|)
    && w'.pool.quarantined == w.pool.quarantined
  }

  // ----- between scans -----

  /** The devices among `ready` that a release of job j checks: its own and those in quarantine. */
  function Passing(w: World, j: nat, ready: set<nat>): set<nat>
    requires j < |w.deviceIds|
  {
    ready * (w.pool.quarantined + Devices(w.deviceIds[j]))
  }

  /** Job j finishes, if it is running, and its devices and those in quarantine are checked. */
  ghost predicate Finished(jobs: seq<Job>, cooldown: nat, now: int, ready: set<nat>, walk: set<nat> -> seq<nat>, w: World, j: nat, w': World) {
    if j in w.running && j < |w.deviceIds| then Completes(jobs, cooldown, w, j, now, ready, walk(Passing(w, j, ready)), w')
    else w' == w
  }

  ghost predicate FinishStep(jobs: seq<Job>, cooldown: nat, wk: Wake, ws: seq<World>, i: nat)
    requires i < |wk.finished| && i + 1 < |ws|
  {
    Finished(jobs, cooldown, wk.clock(i), wk.ready(i), wk.walk, ws[i], wk.finished[i], ws[i + 1])
  }

  /** ws are the states while the first n jobs of a wake-up finish. */
  ghost predicate Waited(jobs: seq<Job>, cooldown: nat, wk: Wake, ws: seq<World>, n: nat) {
    && |ws| == n + 1 <= |wk.finished| + 1
    && forall i :: 0 <= i < n ==> FinishStep(jobs, cooldown, wk, ws, i)
  }

  lemma WaitedNext(jobs: seq<Job>, cooldown: nat, wk: Wake, ws: seq<World>, n: nat, w: World)
    requires Waited(jobs, cooldown, wk, ws, n) && n < |wk.finished|
    requires Finished(jobs, cooldown, wk.clock(n), wk.ready(n), wk.walk, ws[n], wk.finished[n], w)
    ensures Waited(jobs, cooldown, wk, ws + [w], n + 1)
  {
    forall i | 0 <= i < n + 1
      ensures FinishStep(jobs, cooldown, wk, ws + [w], i)
    {
      if i < n {
        assert FinishStep(jobs, cooldown, wk, ws, i);
      }
    }
  }

  lemma FinishedHolds(jobs: seq<Job>, devices: seq<nat>, cooldown: nat, clock: int, now: int, ready: set<nat>, walk: set<nat> -> seq<nat>,
                      w: World, j: nat, w': World)
    requires Reachable(jobs, devices, cooldown, clock, w) && clock <= now && Finished(jobs, cooldown, now, ready, walk, w, j, w')
    ensures Reachable(jobs, devices, cooldown, now, w') && w'.pending == w.pending
    ensures if j in w.running then |w'.running| < |w.running| else w' == w
    ensures PassesAll(devices, ready) && w.pool.quarantined == {} ==> w'.pool.quarantined == {}
  {
    ReachableInv(jobs, devices, cooldown, clock, w);
    if j in w.running {
      assert j < |jobs|;
      ReachableStep(jobs, devices, cooldown, clock, w, Event.Complete(j, now, ready, walk(Passing(w, j, ready))), w');
      assert w'.running == w.running - {j};
      HeldInPool(devices, w, j);
    } else {
      ReachableLater(jobs, devices, cooldown, clock, now, w);
    }
  }

  /** Every device of the pool passes. */
  ghost predicate PassesAll(devices: seq<nat>, ready: set<nat>) {
    forall d :: d in devices ==> d in ready
  }

  lemma HeldInPool(devices: seq<nat>, w: World, j: nat)
    requires DevicesPlaced(devices, w) && j in w.running && j < |w.deviceIds|
    ensures forall d :: d in w.deviceIds[j] ==> d in devices
  {
    HeldContains(w.running, w.deviceIds, j, |w.deviceIds|);
    forall d | d in w.deviceIds[j]
      ensures d in devices
    {
      assert multiset(w.deviceIds[j])[d] > 0;
      assert multiset(devices)[d] > 0;
    }
  }

  /** What a wake-up does between scans: running jobs that are named finish, and no other job is touched. */
  lemma {:induction false} WaitHolds(jobs: seq<Job>, devices: seq<nat>, cooldown: nat, wk: Wake, ws: seq<World>, n: nat)
    requires Waited(jobs, cooldown, wk, ws, n) && Rising(wk.clock)
    requires Reachable(jobs, devices, cooldown, wk.clock(0), ws[0])
    ensures Reachable(jobs, devices, cooldown, wk.clock(n), ws[n])
    ensures Woken(ws[0], wk.finished[..n], ws[n])
    ensures (forall i: nat :: PassesAll(devices, wk.ready(i))) && ws[0].pool.quarantined == {} ==> ws[n].pool.quarantined == {}
    decreases n
  {
    if n > 0 {
      var m := n - 1;
      WaitedBefore(jobs, cooldown, wk, ws, n);
      WaitHolds(jobs, devices, cooldown, wk, ws[..n], m);
      assert FinishStep(jobs, cooldown, wk, ws, m);
      WaitGoesOn(jobs, devices, cooldown, wk, ws[0], ws[m], m, ws[n]);
    }
  }

  lemma WaitedBefore(jobs: seq<Job>, cooldown: nat, wk: Wake, ws: seq<World>, n: nat)
    requires Waited(jobs, cooldown, wk, ws, n) && n > 0
    ensures Waited(jobs, cooldown, wk, ws[..n], n - 1)
  {
    forall i | 0 <= i < n - 1
      ensures FinishStep(jobs, cooldown, wk, ws[..n], i)
    {
      assert FinishStep(jobs, cooldown, wk, ws, i);
    }
  }

  /** One job more finishes. */
  lemma WaitGoesOn(jobs: seq<Job>, devices: seq<nat>, cooldown: nat, wk: Wake, start: World, w: World, m: nat, w': World)
    requires m < |wk.finished| && Rising(wk.clock) && Reachable(jobs, devices, cooldown, wk.clock(m), w)
    requires Woken(start, wk.finished[..m], w) && Finished(jobs, cooldown, wk.clock(m), wk.ready(m), wk.walk, w, wk.finished[m], w')
    ensures Reachable(jobs, devices, cooldown, wk.clock(m + 1), w') && Woken(start, wk.finished[..m + 1], w')
    ensures PassesAll(devices, wk.ready(m)) && w.pool.quarantined == {} ==> w'.pool.quarantined == {}
  {
    FinishedHolds(jobs, devices, cooldown, wk.clock(m), wk.clock(m), wk.ready(m), wk.walk, w, wk.finished[m], w');
    ReachableLater(jobs, devices, cooldown, wk.clock(m), wk.clock(m + 1), w');
    WokenNext(start, wk.finished[..m], w, wk.finished[m], w');
    assert wk.finished[..m + 1] == wk.finished[..m] + [wk.finished[m]];
  }

  ghost predicate Woken(w: World, finished: seq<nat>, w': World) {
    && w'.pending == w.pending && |w'.running| <= |w.running|
    && (|w'.running| == |w.running| ==> w' == w)
    && forall j :: j in finished && j in w.running ==> |w'.running| < |w.running|
  }

  lemma WokenNext(w0: World, finished: seq<nat>, w: World, j: nat, w': World)
    requires Woken(w0, finished, w) && w'.pending == w.pending
    requires if j in w.running then |w'.running| < |w.running| else w' == w
    ensures Woken(w0, finished + [j], w')
  {
  }

  // ----- rounds of the loop -----

  /** A round of the run loop: scan, and wait while jobs finish. */
  ghost predicate Round(jobs: seq<Job>, cooldown: nat, wake: nat -> Wake, n: nat, w: World, w': World) {
    exists scan, wait :: RoundVia(jobs, cooldown, wake, n, w, scan, wait, w')
  }

  ghost predicate RoundVia(jobs: seq<Job>, cooldown: nat, wake: nat -> Wake, n: nat, w: World, scan: seq<World>, wait: seq<World>, w': World) {
    && scan != [] && scan[0] == w && Scanned(jobs, ScanClock(wake(n)), w.pending, scan)
    && Waited(jobs, cooldown, wake(n + 1), wait, |wake(n + 1).finished|)
    && wait[0] == scan[|scan|-1] && wait[|wait|-1] == w'
  }

  /** ws are the states at the loop's head, round after round. */
  ghost predicate Rounds(jobs: seq<Job>, cooldown: nat, wake: nat -> Wake, w: World, ws: seq<World>) {
    && ws != [] && ws[0] == w
    && forall n :: 0 <= n < |ws| - 1 ==> RoundAt(jobs, cooldown, wake, ws, n)
  }

  ghost predicate RoundAt(jobs: seq<Job>, cooldown: nat, wake: nat -> Wake, ws: seq<World>, n: nat)
    requires n + 1 < |ws|
  {
    Round(jobs, cooldown, wake, n, ws[n], ws[n + 1])
  }

  lemma RoundsNext(jobs: seq<Job>, cooldown: nat, wake: nat -> Wake, w: World, ws: seq<World>, w': World)
    requires Rounds(jobs, cooldown, wake, w, ws) && Round(jobs, cooldown, wake, |ws| - 1, ws[|ws|-1], w')
    ensures Rounds(jobs, cooldown, wake, w, ws + [w'])
  {
    forall n | 0 <= n < |ws|
      ensures RoundAt(jobs, cooldown, wake, ws + [w'], n)
    {
      if n < |ws| - 1 {
        assert RoundAt(jobs, cooldown, wake, ws, n);
      }
    }
  }

  /** By wake-up `due` a running job has finished, or every free device has cooled down. */
  ghost predicate DueOk(wake: nat -> Wake, n: nat, due: nat, w: World) {
    && n <= due
    && (w.running != {} ==> n < due && exists j :: j in wake(due).finished && j in w.running)
    && (w.running == {} ==> forall d :: d in w.pool.free ==> CoolAt(w.pool.cooldownUntil, d) <= wake(due).clock(0))
  }

  lemma PickDue(jobs: seq<Job>, devices: seq<nat>, cooldown: nat, wake: nat -> Wake, start: World, ws: seq<World>, clock: int)
    returns (due: nat)
    requires Timely(wake) && Fair(jobs, cooldown, wake, start) && Rounds(jobs, cooldown, wake, start, ws)
    requires Reachable(jobs, devices, cooldown, clock, ws[|ws|-1])
    ensures DueOk(wake, |ws| - 1, due, ws[|ws|-1])
  {
    var n, w := |ws| - 1, ws[|ws|-1];
    assert RunningFinish(jobs, wake, n, w);
    if w.running != {} {
      var j :| j in w.running;
      RunningInRange(jobs, devices, cooldown, clock, w);
      assert FinishesAfter(wake, n, j);
      due :| due > n && j in wake(due).finished;
    } else {
      var t := CoolTime(w.pool.free, w.pool.cooldownUntil, 0);
      assert TimeReaches(wake, n, t);
      due :| due >= n && wake(due).clock(0) >= t;
    }
  }

  function Work(w: World): nat { 2 * |w.pending| + |w.running| }

  /** What a round does, seen from the loop's head. */
  lemma RoundResult(jobs: seq<Job>, devices: seq<nat>, cooldown: nat, wake: nat -> Wake, n: nat, w: World, w': World) returns (scanned: World)
    requires Timely(wake) && Round(jobs, cooldown, wake, n, w, w')
    requires Reachable(jobs, devices, cooldown, ScanClock(wake(n))(0), w)
    ensures Reachable(jobs, devices, cooldown, ScanClock(wake(n + 1))(0), w')
    ensures ScanShrinks(jobs, w, scanned, ScanClock(wake(n))(0)) && Woken(scanned, wake(n + 1).finished, w')
    ensures AllPass(devices, wake) && w.pool.quarantined == {} ==> w'.pool.quarantined == {}
  {
    var scan, wait :| RoundVia(jobs, cooldown, wake, n, w, scan, wait, w');
    var clock, wk := ScanClock(wake(n)), wake(n + 1);
    scanned := scan[|scan|-1];
    assert Rising(clock) by { assert Rising(wake(n).clock); }
    ScanResult(jobs, devices, cooldown, clock, scan);
    ReachableLater(jobs, devices, cooldown, clock(|scan| - 1), wk.clock(0), scanned);
    WaitHolds(jobs, devices, cooldown, wk, wait, |wk.finished|);
    assert wk.finished[..|wk.finished|] == wk.finished;
  }

  /** A round leaves less work, or brings the wake-up that is due one step nearer, unless quarantine blocks the queue. */
  lemma RoundProgress(jobs: seq<Job>, devices: seq<nat>, cooldown: nat, wake: nat -> Wake, n: nat, due: nat, w: World, w': World)
    requires Timely(wake) && Round(jobs, cooldown, wake, n, w, w')
    requires Reachable(jobs, devices, cooldown, ScanClock(wake(n))(0), w) && !Blocked(jobs, w)
    requires DueOk(wake, n, due, w) && (w.pending != [] || w.running != {})
    ensures Reachable(jobs, devices, cooldown, ScanClock(wake(n + 1))(0), w')
    ensures Work(w') < Work(w) || (Work(w') == Work(w) && n + 1 <= due && DueOk(wake, n + 1, due, w'))
  {
    var scanned := RoundResult(jobs, devices, cooldown, wake, n, w, w');
    assert wake(n).clock(0) <= ScanClock(wake(n))(0) by { assert Rising(wake(n).clock); }
    LessWork(jobs, wake, n, due, w, scanned, w');
  }

  lemma LessWork(jobs: seq<Job>, wake: nat -> Wake, n: nat, due: nat, w: World, scanned: World, w': World)
    requires ScanShrinks(jobs, w, scanned, ScanClock(wake(n))(0)) && Woken(scanned, wake(n + 1).finished, w')
    requires wake(n).clock(0) <= ScanClock(wake(n))(0) && !Blocked(jobs, w)
    requires DueOk(wake, n, due, w) && (w.pending != [] || w.running != {})
    ensures Work(w') < Work(w) || (Work(w') == Work(w) && n + 1 <= due && DueOk(wake, n + 1, due, w'))
  {
    if Work(w') >= Work(w) {
      assert scanned == w && w' == w;
      if w.running == {} && n == due {
        assert Cooled(w, ScanClock(wake(n))(0));
      }
    }
  }

  // ----- when the loop ends -----

  /** In no round does quarantine block the queue. */
  ghost predicate NeverBlocked(jobs: seq<Job>, cooldown: nat, wake: nat -> Wake, start: World) {
    forall ws: seq<World> :: Rounds(jobs, cooldown, wake, start, ws) ==> !Blocked(jobs, ws[|ws|-1])
  }

  lemma {:induction false} RoundsReachable(jobs: seq<Job>, devices: seq<nat>, cooldown: nat, wake: nat -> Wake, start: World, ws: seq<World>, n: nat)
    requires Timely(wake) && Rounds(jobs, cooldown, wake, start, ws) && n < |ws|
    requires Reachable(jobs, devices, cooldown, ScanClock(wake(0))(0), start)
    ensures Reachable(jobs, devices, cooldown, ScanClock(wake(n))(0), ws[n])
    ensures AllPass(devices, wake) && start.pool.quarantined == {} ==> ws[n].pool.quarantined == {}
    decreases n
  {
    if n > 0 {
      var m := n - 1;
      RoundsReachable(jobs, devices, cooldown, wake, start, ws, m);
      assert RoundAt(jobs, cooldown, wake, ws, m);
      var _ := RoundResult(jobs, devices, cooldown, wake, m, ws[m], ws[n]);
    }
  }

  /** A scan of a blocked queue starts nothing. */
  lemma {:induction false} BlockedScan(jobs: seq<Job>, clock: nat -> int, ws: seq<World>, n: nat)
    requires ws != [] && Blocked(jobs, ws[0]) && Scanned(jobs, clock, ws[0].pending, ws) && n < |ws|
    ensures ws[n] == ws[0]
    decreases n
  {
    if n > 0 {
      var m := n - 1;
      BlockedScan(jobs, clock, ws, m);
      assert ScanStep(jobs, clock, ws[0].pending, ws, m);
      assert ws[0].pending[m] in ws[0].pending && !Startable(jobs, ws[0], ws[0].pending[m]);
    }
  }

  lemma {:induction false} NothingFinishes(jobs: seq<Job>, cooldown: nat, wk: Wake, ws: seq<World>, n: nat)
    requires Waited(jobs, cooldown, wk, ws, |wk.finished|) && ws[0].running == {} && n < |ws|
    ensures ws[n] == ws[0]
    decreases n
  {
    if n > 0 {
      NothingFinishes(jobs, cooldown, wk, ws, n - 1);
      assert FinishStep(jobs, cooldown, wk, ws, n - 1);
    }
  }

  /** Once quarantine blocks the queue, no round changes anything any more. */
  lemma BlockedStays(jobs: seq<Job>, cooldown: nat, wake: nat -> Wake, n: nat, w: World, w': World)
    requires Blocked(jobs, w) && Round(jobs, cooldown, wake, n, w, w')
    ensures w' == w
  {
    var scan, wait :| RoundVia(jobs, cooldown, wake, n, w, scan, wait, w');
    BlockedScan(jobs, ScanClock(wake(n)), scan, |scan| - 1);
    NothingFinishes(jobs, cooldown, wake(n + 1), wait, |wait| - 1);
  }

  /** So a loop that has emptied its queue was never blocked: RunAll's assumption is needed for it to end. */
  lemma {:induction false} EndedNeverBlocked(jobs: seq<Job>, cooldown: nat, wake: nat -> Wake, start: World, ws: seq<World>, n: nat)
    requires Rounds(jobs, cooldown, wake, start, ws) && n < |ws| && ws[|ws|-1].pending == []
    ensures !Blocked(jobs, ws[n])
    decreases |ws| - n
  {
    if n + 1 < |ws| {
      EndedNeverBlocked(jobs, cooldown, wake, start, ws, n + 1);
      assert RoundAt(jobs, cooldown, wake, ws, n);
      if Blocked(jobs, ws[n]) {
        BlockedStays(jobs, cooldown, wake, n, ws[n], ws[n + 1]);
      }
    }
  }

  /** All devices pass all their readiness checks. */
  ghost predicate AllPass(devices: seq<nat>, wake: nat -> Wake) {
    forall n: nat, i: nat :: PassesAll(devices, wake(n).ready(i))
  }

  /** If every job fits the pool and every check passes, quarantine never blocks the queue. */
  lemma PassingNeverBlocks(jobs: seq<Job>, devices: seq<nat>, cooldown: nat, wake: nat -> Wake, start: World)
    requires Timely(wake) && AllPass(devices, wake) && start.pool.quarantined == {}
    requires Reachable(jobs, devices, cooldown, ScanClock(wake(0))(0), start)
    requires forall j :: 0 <= j < |jobs| ==> jobs[j].devices <= |devices|
    ensures NeverBlocked(jobs, cooldown, wake, start)
  {
    forall ws: seq<World> | Rounds(jobs, cooldown, wake, start, ws)
      ensures !Blocked(jobs, ws[|ws|-1])
    {
      var n, w := |ws| - 1, ws[|ws|-1];
      RoundsReachable(jobs, devices, cooldown, wake, start, ws, n);
      ReachableInv(jobs, devices, cooldown, ScanClock(wake(n))(0), w);
      if w.running == {} && w.pending != [] {
        FirstPendingReady(jobs, devices, cooldown, ScanClock(wake(n))(0), w);
        FreeCount(devices, w);
        assert w.pending[0] in w.pending;
        assert Startable(jobs, w, w.pending[0]);
      }
    }
  }

  /** The environment the run loop needs: time goes on, running jobs finish, and quarantine never blocks the queue. */
  ghost predicate Serves(jobs: seq<Job>, cooldown: nat, wake: nat -> Wake, start: World) {
    Timely(wake) && Fair(jobs, cooldown, wake, start) && NeverBlocked(jobs, cooldown, wake, start)
  }

  /** Some list of the members of s. */
  ghost function Walk(s: set<nat>): (order: seq<nat>)
    ensures Lists(order, s)
  {
    if s == {} then []
    else
      var d :| d in s;
      Walk(s - {d}) + [d]
  }

  /** Such environments exist for any jobs that fit the pool: whatever runs has finished by the next wake-up and every check passes. */
  lemma SomeoneServes(jobs: seq<Job>, devices: seq<nat>, cooldown: nat, start: World) returns (wake: nat -> Wake)
    requires (forall j :: 0 <= j < |jobs| ==> jobs[j].devices <= |devices|) && start.pool.quarantined == {}
    requires forall clock: int :: Reachable(jobs, devices, cooldown, clock, start)
    ensures Serves(jobs, cooldown, wake, start) && AllPass(devices, wake)
  {
    var ready := Devices(devices);
    wake := (n: nat) => Wake(seq(|jobs|, i => i), (i: nat) => ready, (s: set<nat>) => Walk(s), (i: nat) => n);
    forall n: nat, t: int
      ensures TimeReaches(wake, n, t)
    {
      var m: nat := if t > n then t else n;
      assert m >= n && wake(m).clock(0) >= t;
    }
    forall n: nat, j: nat | j < |jobs|
      ensures FinishesAfter(wake, n, j)
    {
      assert wake(n + 1).finished[j] == j;
    }
    assert Timely(wake);
    PassingNeverBlocks(jobs, devices, cooldown, wake, start);
  }

  /** The states ws of the loop so far, with the wake-up that is due next. */
  ghost predicate OnTrack(jobs: seq<Job>, devices: seq<nat>, cooldown: nat, wake: nat -> Wake, start: World, ws: seq<World>, due: nat) {
    && Rounds(jobs, cooldown, wake, start, ws)
    && Reachable(jobs, devices, cooldown, ScanClock(wake(|ws| - 1))(0), ws[|ws|-1])
    && DueOk(wake, |ws| - 1, due, ws[|ws|-1])
  }

  lemma TrackStarts(jobs: seq<Job>, devices: seq<nat>, cooldown: nat, wake: nat -> Wake, w: World) returns (due: nat)
    requires Serves(jobs, cooldown, wake, w) && Reachable(jobs, devices, cooldown, ScanClock(wake(0))(0), w)
    ensures OnTrack(jobs, devices, cooldown, wake, w, [w], due)
  {
    due := PickDue(jobs, devices, cooldown, wake, w, [w], ScanClock(wake(0))(0));
  }

  lemma TrackGoesOn(jobs: seq<Job>, devices: seq<nat>, cooldown: nat, wake: nat -> Wake, start: World, ws: seq<World>, due: nat, w: World)
    returns (due': nat)
    requires Serves(jobs, cooldown, wake, start) && OnTrack(jobs, devices, cooldown, wake, start, ws, due)
    requires Round(jobs, cooldown, wake, |ws| - 1, ws[|ws|-1], w) && (ws[|ws|-1].pending != [] || ws[|ws|-1].running != {})
    ensures OnTrack(jobs, devices, cooldown, wake, start, ws + [w], due')
    ensures Work(w) < Work(ws[|ws|-1]) || (Work(w) == Work(ws[|ws|-1]) && due' == due && |ws| <= due)
  {
    TrackProgress(jobs, devices, cooldown, wake, start, ws, due, w);
    RoundsNext(jobs, cooldown, wake, start, ws, w);
    var ws' := ws + [w];
    assert |ws'| - 1 == |ws| && ws'[|ws|] == w;
    due' := due;
    if Work(w) < Work(ws[|ws|-1]) {
      due' := PickDue(jobs, devices, cooldown, wake, start, ws', ScanClock(wake(|ws|))(0));
    }
  }

  lemma TrackProgress(jobs: seq<Job>, devices: seq<nat>, cooldown: nat, wake: nat -> Wake, start: World, ws: seq<World>, due: nat, w: World)
    requires Serves(jobs, cooldown, wake, start) && OnTrack(jobs, devices, cooldown, wake, start, ws, due)
    requires Round(jobs, cooldown, wake, |ws| - 1, ws[|ws|-1], w) && (ws[|ws|-1].pending != [] || ws[|ws|-1].running != {})
    ensures Reachable(jobs, devices, cooldown, ScanClock(wake(|ws|))(0), w)
    ensures Work(w) < Work(ws[|ws|-1]) || (Work(w) == Work(ws[|ws|-1]) && |ws| <= due && DueOk(wake, |ws|, due, w))
  {
    NotBlockedNow(jobs, cooldown, wake, start, ws);
    RoundProgress(jobs, devices, cooldown, wake, |ws| - 1, due, ws[|ws|-1], w);
  }

  lemma NotBlockedNow(jobs: seq<Job>, cooldown: nat, wake: nat -> Wake, start: World, ws: seq<World>)
    requires Serves(jobs, cooldown, wake, start) && Rounds(jobs, cooldown, wake, start, ws)
    ensures !Blocked(jobs, ws[|ws|-1])
  {
  }

  class SchedulerObject {
    const jobs: seq<Job>
    ghost const devices: seq<nat>
    const pool: DevicePoolObject
    var pending: seq<nat>
    var running: set<nat>
    var deviceIds: seq<seq<nat>>
    var exportCold: seq<bool>
    var compileCold: seq<bool>
    var exportOpen: set<nat>
    var compileOpen: set<nat>
    ghost var done: set<nat>
    ghost var dispatched: seq<nat>
    ghost var lastRelease: map<nat, int>

    constructor (jobs: seq<Job>, devices: seq<nat>, cooldown: nat)
      requires Unique(devices)
      ensures this.jobs == jobs && this.devices == devices && fresh(pool) && pool.cooldown == cooldown
      ensures forall clock: int :: Reachable(jobs, devices, cooldown, clock, W())
    {
      this.jobs, this.devices := jobs, devices;
      pool := new DevicePoolObject(devices, cooldown);
      pending := seq(|jobs|, i => i);
      running, deviceIds, exportOpen, compileOpen := {}, seq(|jobs|, _ => []), {}, {};
      exportCold, compileCold := seq(|jobs|, _ => false), seq(|jobs|, _ => false);
      done, dispatched, lastRelease := {}, [], map[];
      new;
      forall clock: int
        ensures Reachable(jobs, devices, cooldown, clock, W())
      {
        ReachableStart(jobs, devices, cooldown, clock, W());
      }
    }

    ghost function W(): World
      reads this, pool
    {
      World(pool.State(), pending, running, deviceIds, exportOpen, compileOpen, done, dispatched, lastRelease)
    }

    ghost predicate Claimed()
      reads this
    {
      && |exportCold| == |compileCold| == |jobs|
      && forall j :: 0 <= j < |jobs| ==> exportCold[j] == ExportCold(jobs, j) && compileCold[j] == CompileCold(jobs, j)
    }

    /** `_claim_gates` for every job in queue order: the first job seen wins each key. */
    method ClaimGates()
      requires |exportCold| == |compileCold| == |jobs|
      requires forall j :: 0 <= j < |jobs| ==> !exportCold[j] && !compileCold[j]
      modifies this`exportCold, this`compileCold
      ensures Claimed()
    {
      var exportOwner: set<nat>, compileOwner: set<nat> := {}, {};
      var j := 0;
      while j < |jobs|
        invariant j <= |jobs| && |exportCold| == |compileCold| == |jobs|
        invariant forall m :: m in exportOwner <==> exists i :: 0 <= i < j && jobs[i].model == Some(m)
        invariant forall k :: k in compileOwner <==> exists i :: 0 <= i < j && jobs[i].config == k
        invariant forall i :: 0 <= i < j ==> exportCold[i] == ExportCold(jobs, i) && compileCold[i] == CompileCold(jobs, i)
        invariant forall i :: j <= i < |jobs| ==> !exportCold[i] && !compileCold[i]
      {
        var job := jobs[j];
        if job.model.None? {
          exportCold := exportCold[j := true];
        } else if job.model.value !in exportOwner {
          exportOwner := exportOwner + {job.model.value};
          exportCold := exportCold[j := true];
        }
        if job.config !in compileOwner {
          compileOwner := compileOwner + {job.config};
          compileCold := compileCold[j := true];
        }
        j := j + 1;
      }
    }

    /** `_ready`. */
    method IsReady(j: nat) returns (ready: bool)
      requires Claimed() && j < |jobs|
      ensures ready == Ready(jobs, W(), j)
    {
      if !exportCold[j] && jobs[j].model.Some? && jobs[j].model.value !in exportOpen {
        return false;
      }
      return compileCold[j] || jobs[j].config in compileOpen;
    }

    /** The object's state is w, up to the queue, which a scan rewrites only at its end. */
    ghost predicate Agrees(w: World)
      reads this, pool
    {
      W() == w.(pending := pending)
    }

    /** Job j, at place k of the queue, starts if it is ready and finds devices. */
    method TryDispatch(j: nat, now: int, ghost w: World, ghost k: nat) returns (started: bool, ghost w': World)
      requires Claimed() && Agrees(w) && k < |w.pending| && w.pending[k] == j && j < |jobs| == |deviceIds|
      modifies this`running, this`deviceIds, this`dispatched, pool`free
      ensures Agrees(w') && |deviceIds| == |jobs| && Tried(jobs, now, w, j, w') && started == CanStart(jobs, w, j, now)
      ensures w'.pending == if started then w.pending[..k] + w.pending[k+1..] else w.pending
    {
      var ready := IsReady(j);
      if !ready {
        return false, w;
      }
      var chosen := pool.TryAcquire(jobs[j].devices, now);
      if chosen.None? {
        return false, w;
      }
      deviceIds := deviceIds[j := chosen.value];
      running := running + {j};
      dispatched := dispatched + [j];
      w' := W().(pending := w.pending[..k] + w.pending[k+1..]);
      assert Dispatches(jobs, w, j, now, chosen.value, w');
      return true, w';
    }

    /** One pass over the queue: every job in turn starts if it is ready and finds devices. */
    method Scan(clock: nat -> int) returns (ghost ws: seq<World>)
      requires Claimed() && |deviceIds| == |jobs| && forall j :: j in pending ==> j < |jobs|
      modifies this`pending, this`running, this`deviceIds, this`dispatched, pool`free
      ensures |ws| == |old(pending)| + 1 && ws[0] == old(W()) && ws[|ws|-1] == W()
      ensures Scanned(jobs, clock, old(pending), ws)
    {
      var stillPending: seq<nat> := [];
      ws := [W()];
      var i := 0;
      assert [] + pending[0..] == pending;
      while i < |pending|
        invariant i <= |pending| && pending == old(pending) && |deviceIds| == |jobs|
        invariant |ws| == i + 1 && ws[0] == old(W()) && Agrees(ws[i]) && ws[i].pending == stillPending + pending[i..]
        invariant Scanned(jobs, clock, pending[..i], ws)
      {
        var j, k := pending[i], |stillPending|;
        NextInQueue(pending, stillPending, i);
        ghost var w;
        var started;
        started, w := TryDispatch(j, clock(i), ws[i], k);
        if !started {
          stillPending := stillPending + [j];
        }
        ScannedNext(jobs, clock, pending[..i], ws, j, w);
        ws := ws + [w];
        i := i + 1;
      }
      assert stillPending + pending[i..] == stillPending && pending[..i] == pending;
      pending := stillPending;
    }

    /** `_release_gates`: whether the job passed or failed. */
    method ReleaseGates(j: nat)
      requires Claimed() && j < |jobs|
      modifies this`exportOpen, this`compileOpen
      ensures exportOpen == if ExportCold(jobs, j) && jobs[j].model.Some? then old(exportOpen) + {jobs[j].model.value} else old(exportOpen)
      ensures compileOpen == if CompileCold(jobs, j) then old(compileOpen) + {jobs[j].config} else old(compileOpen)
    {
      if compileCold[j] {
        compileOpen := compileOpen + {jobs[j].config};
      }
      if exportCold[j] && jobs[j].model.Some? {
        exportOpen := exportOpen + {jobs[j].model.value};
      }
    }

    /** The completion section of `_execute_job`: open gates, release devices, leave the running set. */
    method Complete(j: nat, now: int, ready: set<nat>, order: seq<nat>, ghost clock: int, ghost w: World) returns (ghost w': World)
      requires Claimed() && W() == w && Reachable(jobs, devices, pool.cooldown, clock, w) && clock <= now && j in running && j < |jobs| == |deviceIds|
      requires Unique(order) && forall d :: d in order <==> d in ready && (d in pool.quarantined || d in deviceIds[j])
      modifies this`exportOpen, this`compileOpen, this`running, this`done, this`lastRelease, pool`free, pool`quarantined, pool`cooldownUntil
      ensures W() == w' && Completes(jobs, pool.cooldown, w, j, now, ready, order, w')
      ensures Reachable(jobs, devices, pool.cooldown, now, w')
    {
      ReleaseGates(j);
      pool.Release(deviceIds[j], ready, order, now);
      running := running - {j};
      done := done + {j};
      lastRelease := Stamped(lastRelease, deviceIds[j], now);
      w' := W();
      ReachableStep(jobs, devices, pool.cooldown, clock, w, Event.Complete(j, now, ready, order), w');
    }

    /** A running job that finishes; nothing happens for any other. */
    method Finish(j: nat, now: int, ready: set<nat>, walk: set<nat> -> seq<nat>, ghost clock: int, ghost w: World) returns (ghost w': World)
      requires Claimed() && W() == w && Reachable(jobs, devices, pool.cooldown, clock, w) && clock <= now
      requires forall s: set<nat> :: Lists(walk(s), s)
      modifies this`exportOpen, this`compileOpen, this`running, this`done, this`lastRelease, pool`free, pool`quarantined, pool`cooldownUntil
      ensures W() == w' && Finished(jobs, pool.cooldown, now, ready, walk, w, j, w')
      ensures Reachable(jobs, devices, pool.cooldown, now, w')
    {
      RunningInRange(jobs, devices, pool.cooldown, clock, w);
      if j in running {
        var passing := ready * (pool.quarantined + Devices(deviceIds[j]));
        assert Lists(walk(passing), passing);
        w' := Complete(j, now, ready, walk(passing), clock, w);
      } else {
        w' := w;
        ReachableLater(jobs, devices, pool.cooldown, clock, now, w);
      }
    }

    /** The wait of the run loop: any number of running jobs complete before it gets the condition back. */
    method Wait(wk: Wake, ghost clock: int, ghost w: World) returns (ghost ws: seq<World>)
      requires Claimed() && W() == w && Reachable(jobs, devices, pool.cooldown, clock, w) && clock <= wk.clock(0) && Rising(wk.clock)
      requires forall s: set<nat> :: Lists(wk.walk(s), s)
      modifies this`exportOpen, this`compileOpen, this`running, this`done, this`lastRelease, pool`free, pool`quarantined, pool`cooldownUntil
      ensures Waited(jobs, pool.cooldown, wk, ws, |wk.finished|) && ws[0] == w && W() == ws[|wk.finished|]
    {
      ws := [w];
      ReachableLater(jobs, devices, pool.cooldown, clock, wk.clock(0), w);
      var i := 0;
      while i < |wk.finished|
        invariant i <= |wk.finished| && Claimed()
        invariant Waited(jobs, pool.cooldown, wk, ws, i) && ws[0] == w && W() == ws[i]
        invariant Reachable(jobs, devices, pool.cooldown, wk.clock(i), ws[i])
      {
        ghost var w' := Finish(wk.finished[i], wk.clock(i), wk.ready(i), wk.walk, wk.clock(i), ws[i]);
        WaitedNext(jobs, pool.cooldown, wk, ws, i, w');
        ReachableLater(jobs, devices, pool.cooldown, wk.clock(i), wk.clock(i + 1), w');
        ws := ws + [w'];
        i := i + 1;
      }
    }

    /** One round of `run`: scan under the condition, then wait on it. */
    method RunRound(wake: nat -> Wake, n: nat, ghost w: World) returns (ghost w': World)
      requires Claimed() && W() == w && Reachable(jobs, devices, pool.cooldown, ScanClock(wake(n))(0), w)
      requires Timely(wake) && (w.pending != [] || w.running != {})
      modifies this`pending, this`running, this`deviceIds, this`dispatched, this`exportOpen, this`compileOpen, this`done, this`lastRelease, pool
      ensures W() == w' && Round(jobs, pool.cooldown, wake, n, w, w')
    {
      var clock := ScanClock(wake(n));
      QueueInRange(jobs, devices, pool.cooldown, clock(0), w);
      ghost var scan := Scan(clock);
      assert Rising(clock) by { assert Rising(wake(n).clock); }
      ScanResult(jobs, devices, pool.cooldown, clock, scan);
      ghost var scanned := scan[|scan|-1];
      NothingLeft(jobs, w, scanned, clock(0));
      if pending != [] || running != {} {
        ghost var wait := Wait(wake(n + 1), clock(|scan| - 1), scanned);
        w' := W();
        assert RoundVia(jobs, pool.cooldown, wake, n, w, scan, wait, w');
      }
    }

    /** A round of a loop that is on track keeps it there. */
    method RoundOnTrack(wake: nat -> Wake, n: nat, ghost start: World, ghost ws: seq<World>, ghost due: nat) returns (ghost w: World, ghost due': nat)
      requires Claimed() && |ws| == n + 1 && W() == ws[n] && (pending != [] || running != {})
      requires Serves(jobs, pool.cooldown, wake, start) && OnTrack(jobs, devices, pool.cooldown, wake, start, ws, due)
      modifies this`pending, this`running, this`deviceIds, this`dispatched, this`exportOpen, this`compileOpen, this`done, this`lastRelease, pool
      ensures Claimed() && W() == w && OnTrack(jobs, devices, pool.cooldown, wake, start, ws + [w], due')
      ensures Work(w) < Work(ws[n]) || (Work(w) == Work(ws[n]) && due' == due && n + 1 <= due)
    {
      assert ws[n].pending == pending && ws[n].running == running;
      w := RunRound(wake, n, ws[n]);
      due' := TrackGoesOn(jobs, devices, pool.cooldown, wake, start, ws, due, w);
    }

    /**
     `run`.  If time goes on, a job that is still running finishes some time, and quarantine never blocks the
     queue, the loop ends with every job dispatched exactly once and done.  If besides every job fits the pool
     and every readiness check passes, quarantine does not block it, and all devices end up free.
     */
    method RunAll(wake: nat -> Wake)
      requires |exportCold| == |compileCold| == |jobs|
      requires forall j :: 0 <= j < |jobs| ==> !exportCold[j] && !compileCold[j]
      requires Reachable(jobs, devices, pool.cooldown, ScanClock(wake(0))(0), W())
      requires Serves(jobs, pool.cooldown, wake, W())
      modifies this, pool
      ensures AllJobsDone(jobs, W())
      ensures multiset(pool.free) + multiset(pool.quarantined) == multiset(devices)
      ensures AllPass(devices, wake) && old(pool.quarantined) == {} ==> pool.quarantined == {} && multiset(pool.free) == multiset(devices)
      ensures exists clock: int :: Reachable(jobs, devices, pool.cooldown, clock, W())
    {
      ClaimGates();
      var n := 0;
      ghost var start := W();
      ghost var ws := [start];
      ghost var due := TrackStarts(jobs, devices, pool.cooldown, wake, start);
      while pending != [] || running != {}
        invariant Claimed() && |ws| == n + 1 && W() == ws[n]
        invariant OnTrack(jobs, devices, pool.cooldown, wake, start, ws, due)
        decreases Work(ws[n]), due - n
      {
        ghost var w;
        w, due := RoundOnTrack(wake, n, start, ws, due);
        n, ws := n + 1, ws + [w];
      }
      AllDone(jobs, devices, pool.cooldown, wake, start, ws);
    }
  }

  /** The job at place i of the queue is the first one not decided yet. */
  lemma NextInQueue(pending: seq<nat>, still: seq<nat>, i: nat)
    requires i < |pending|
    ensures pending[i] in pending && (still + pending[i..])[|still|] == pending[i]
    ensures (still + pending[i..])[..|still|] + (still + pending[i..])[|still|+1..] == still + pending[i+1..]
    ensures still + pending[i..] == still + [pending[i]] + pending[i+1..]
    ensures pending[..i+1] == pending[..i] + [pending[i]]
  {
  }

  /** A scan only moves jobs, so the loop always waits after it. */
  lemma NothingLeft(jobs: seq<Job>, w: World, scanned: World, now: int)
    requires ScanShrinks(jobs, w, scanned, now) && (w.pending != [] || w.running != {})
    ensures scanned.pending != [] || scanned.running != {}
  {
  }

  lemma RunningInRange(jobs: seq<Job>, devices: seq<nat>, cooldown: nat, clock: int, w: World)
    requires Reachable(jobs, devices, cooldown, clock, w)
    ensures |w.deviceIds| == |jobs|
    ensures forall j: nat :: j in w.running ==> j < |jobs| && Unique(w.deviceIds[j]) && forall d :: d in w.deviceIds[j] ==> d !in w.pool.quarantined
  {
    ReachableInv(jobs, devices, cooldown, clock, w);
    forall j: nat | j in w.running
      ensures j < |jobs| && Unique(w.deviceIds[j]) && forall d :: d in w.deviceIds[j] ==> d !in w.pool.quarantined
    {
      assert j < |jobs|;
      HeldOutside(devices, w, j);
    }
  }

  lemma AllDone(jobs: seq<Job>, devices: seq<nat>, cooldown: nat, wake: nat -> Wake, start: World, ws: seq<World>)
    requires Timely(wake) && Rounds(jobs, cooldown, wake, start, ws) && ws[|ws|-1].pending == [] && ws[|ws|-1].running == {}
    requires Reachable(jobs, devices, cooldown, ScanClock(wake(0))(0), start)
    ensures Reachable(jobs, devices, cooldown, ScanClock(wake(|ws| - 1))(0), ws[|ws|-1]) && AllJobsDone(jobs, ws[|ws|-1])
    ensures multiset(ws[|ws|-1].pool.free) + multiset(ws[|ws|-1].pool.quarantined) == multiset(devices)
    ensures AllPass(devices, wake) && start.pool.quarantined == {} ==>
      ws[|ws|-1].pool.quarantined == {} && multiset(ws[|ws|-1].pool.free) == multiset(devices)
  {
    var w := ws[|ws|-1];
    RoundsReachable(jobs, devices, cooldown, wake, start, ws, |ws| - 1);
    ReachableInv(jobs, devices, cooldown, ScanClock(wake(|ws| - 1))(0), w);
    HeldNone(w.deviceIds, |w.deviceIds|);
  }

  lemma QueueInRange(jobs: seq<Job>, devices: seq<nat>, cooldown: nat, clock: int, w: World)
    requires Reachable(jobs, devices, cooldown, clock, w)
    ensures |w.deviceIds| == |jobs| && forall j :: j in w.pending ==> j < |jobs|
  {
    ReachableInv(jobs, devices, cooldown, clock, w);
  }
}
