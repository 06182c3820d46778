/** The proposer object with the device cache it drives, and whole runs of verify and propose steps. */
module DraftProposer {
  import opened DraftModel

  ghost predicate Distinct(slots: seq<nat>, n: nat) {
    && (forall i :: 0 <= i < |slots| ==> slots[i] < n)
    && (forall i, j :: 0 <= i < j < |slots| ==> slots[i] != slots[j])
  }

  /** The rows of a batch sit in different slots of the cache. */
  ghost predicate Separate(rows: seq<Row>, n: nat) {
    && (forall i :: 0 <= i < |rows| ==> rows[i].slot < n)
    && (forall i, j :: 0 <= i < j < |rows| ==> rows[i].slot != rows[j].slot)
  }

  ghost predicate Uses(rows: seq<Row>, s: nat) {
    exists i :: 0 <= i < |rows| && rows[i].slot == s
  }

  function Slots(rows: seq<Row>): (slots: seq<nat>)
    ensures |slots| == |rows| && forall i :: 0 <= i < |rows| ==> slots[i] == rows[i].slot
  {
    seq(|rows|, i requires 0 <= i < |rows| => rows[i].slot)
  }

  class Proposer {
    const model: Model
    const k: nat
    /** The draft model's KV cache on the device, by batch index and position. */
    var kv: seq<seq<Entry>>

    constructor (model: Model, k: nat, kv: seq<seq<Entry>>)
      ensures this.model == model && this.k == k && this.kv == kv
    {
      this.model, this.k, this.kv := model, k, kv;
    }

    /** One decode call of the draft model: each row writes its own slot and predicts its next token. */
    method Decode(ids: seq<int>, positions: seq<int>, slots: seq<nat>) returns (next: seq<int>)
      requires |ids| == |positions| == |slots| && Distinct(slots, |kv|)
      modifies this
      ensures |kv| == |old(kv)| && |next| == |ids|
      ensures forall i :: 0 <= i < |slots| ==> (kv[slots[i]], next[i]) == DecodeRow(model, old(kv)[slots[i]], ids[i], positions[i])
      ensures forall s :: 0 <= s < |kv| && s !in slots ==> kv[s] == old(kv)[s]
    {
      next := [];
      var i := 0;
      while i < |slots|
        invariant i <= |slots| && |next| == i && |kv| == |old(kv)|
        invariant forall j :: 0 <= j < i ==> (kv[slots[j]], next[j]) == DecodeRow(model, old(kv)[slots[j]], ids[j], positions[j])
        invariant forall s :: 0 <= s < |kv| && s !in slots[..i] ==> kv[s] == old(kv)[s]
      {
        assert slots[i] !in slots[..i];
        var (row, token) := DecodeRow(model, kv[slots[i]], ids[i], positions[i]);
        kv := kv[slots[i] := row];
        next := next + [token];
        i := i + 1;
      }
      assert slots[..|slots|] == slots;
    }

    /** One prefill call over several requests. */
    method Prefill(tokens: seq<seq<int>>, slots: seq<nat>)
      requires |tokens| == |slots| && Distinct(slots, |kv|)
      modifies this
      ensures |kv| == |old(kv)|
      ensures forall i :: 0 <= i < |slots| ==> kv[slots[i]] == PrefillRow(model, old(kv)[slots[i]], tokens[i], 0)
      ensures forall s :: 0 <= s < |kv| && s !in slots ==> kv[s] == old(kv)[s]
    {
      var i := 0;
      while i < |slots|
        invariant i <= |slots| && |kv| == |old(kv)|
        invariant forall j :: 0 <= j < i ==> kv[slots[j]] == PrefillRow(model, old(kv)[slots[j]], tokens[j], 0)
        invariant forall s :: 0 <= s < |kv| && s !in slots[..i] ==> kv[s] == old(kv)[s]
      {
        assert slots[i] !in slots[..i];
        kv := kv[slots[i] := PrefillRow(model, kv[slots[i]], tokens[i], 0)];
        i := i + 1;
      }
      assert slots[..|slots|] == slots;
    }

    /** Step 1: requests on their first decode step are prefilled up to the accepted token. */
    method PrefillNew(rows: seq<Row>)
      requires Separate(rows, |kv|)
      modifies this
      ensures |kv| == |old(kv)|
      ensures forall i :: 0 <= i < |rows| ==> kv[rows[i].slot] == AfterPrefill(model, old(kv)[rows[i].slot], rows[i])
      ensures forall i :: 0 <= i < |rows| ==> FirstStepCached(rows[i], old(kv)[rows[i].slot], kv[rows[i].slot])
      ensures forall s :: 0 <= s < |kv| && !Uses(rows, s) ==> kv[s] == old(kv)[s]
    {
      ghost var want := seq(|rows|, i requires 0 <= i < |rows| => rows[i].IsNew() && |rows[i].tokens| > 1);
      var picked := NewRows(rows, want);
      var tokens := seq(|picked|, j requires 0 <= j < |picked| => rows[picked[j]].tokens[..|rows[picked[j]].tokens|-1]);
      var slots := seq(|picked|, j requires 0 <= j < |picked| => rows[picked[j]].slot);
      PickedDistinct(rows, want, picked, slots, |kv|);
      Prefill(tokens, slots);
      forall n | 0 <= n < |rows|
        ensures kv[rows[n].slot] == AfterPrefill(model, old(kv)[rows[n].slot], rows[n])
      {
        if n in picked {
          var j :| 0 <= j < |picked| && picked[j] == n;
          assert slots[j] == rows[n].slot;
        } else {
          NotPicked(rows, want, picked, slots, |kv|, n);
        }
      }
      forall n | 0 <= n < |rows|
        ensures FirstStepCached(rows[n], old(kv)[rows[n].slot], kv[rows[n].slot])
      {
        FirstStep(model, old(kv)[rows[n].slot], rows[n]);
      }
    }

    /** The rows on their first decode step that have something to prefill. */
    method NewRows(rows: seq<Row>, ghost want: seq<bool>) returns (picked: seq<nat>)
      requires |want| == |rows| && forall i :: 0 <= i < |rows| ==> want[i] == (rows[i].IsNew() && |rows[i].tokens| > 1)
      ensures Picks(want, picked, |rows|)
    {
      picked := [];
      var i := 0;
      while i < |rows|
        invariant i <= |rows|
        invariant Picks(want, picked, i)
      {
        if rows[i].InDecode() && rows[i].IsNew() && |rows[i].tokens[..|rows[i].tokens|-1]| != 0 {
          picked := picked + [i];
        }
        i := i + 1;
      }
    }

    /** The rows that got all K drafts and one token more. */
    method FullRows(rows: seq<Row>, ghost want: seq<bool>) returns (picked: seq<nat>)
      requires |want| == |rows| && forall i :: 0 <= i < |rows| ==> want[i] == (|rows[i].sampled| == k + 1)
      ensures Picks(want, picked, |rows|)
    {
      picked := [];
      var i := 0;
      while i < |rows|
        invariant i <= |rows|
        invariant Picks(want, picked, i)
      {
        if |rows[i].sampled| == k + 1 {
          picked := picked + [i];
        }
        i := i + 1;
      }
    }

    /** Catch-up: requests whose drafts were all accepted decode the last accepted draft. */
    method CatchUp(rows: seq<Row>)
      requires Separate(rows, |kv|) && k > 0
      modifies this
      ensures |kv| == |old(kv)|
      ensures forall i :: 0 <= i < |rows| ==> kv[rows[i].slot] == AfterCatchUp(model, old(kv)[rows[i].slot], rows[i], k)
      ensures forall s :: 0 <= s < |kv| && !Uses(rows, s) ==> kv[s] == old(kv)[s]
    {
      ghost var want := seq(|rows|, i requires 0 <= i < |rows| => |rows[i].sampled| == k + 1);
      var picked := FullRows(rows, want);
      var ids := seq(|picked|, j requires 0 <= j < |picked| => rows[picked[j]].sampled[k - 1]);
      var positions := seq(|picked|, j requires 0 <= j < |picked| => rows[picked[j]].Pos() - 1);
      var slots := seq(|picked|, j requires 0 <= j < |picked| => rows[picked[j]].slot);
      PickedDistinct(rows, want, picked, slots, |kv|);
      var _ := Decode(ids, positions, slots);
      forall n | 0 <= n < |rows|
        ensures kv[rows[n].slot] == AfterCatchUp(model, old(kv)[rows[n].slot], rows[n], k)
      {
        if n in picked {
          var j :| 0 <= j < |picked| && picked[j] == n;
          assert slots[j] == rows[n].slot && ids[j] == rows[n].sampled[k - 1];
        } else {
          NotPicked(rows, want, picked, slots, |kv|, n);
        }
      }
    }

    /** One decode call of step 2: every row's token is drafted and fed back. */
    method DraftStep(rows: seq<Row>, all: seq<seq<int>>, current: seq<int>, positions: seq<int>, step: nat, ghost start: seq<seq<Entry>>)
      returns (all': seq<seq<int>>, next: seq<int>)
      requires Separate(rows, |kv|) && |start| == |kv| && |all| == |current| == |positions| == |rows| && step < k
      requires forall i :: 0 <= i < |rows| ==> positions[i] == rows[i].Pos() + step && |all[i]| == step
      requires forall i :: 0 <= i < |rows| ==> Resumes(model, start[rows[i].slot], rows[i], k, kv[rows[i].slot], all[i], current[i])
      modifies this
      ensures |kv| == |old(kv)| && |all'| == |next| == |rows| && forall i :: 0 <= i < |rows| ==> |all'[i]| == step + 1
      ensures forall i :: 0 <= i < |rows| ==> Resumes(model, start[rows[i].slot], rows[i], k, kv[rows[i].slot], all'[i], next[i])
      ensures forall s :: 0 <= s < |kv| && !Uses(rows, s) ==> kv[s] == old(kv)[s]
    {
      ghost var before := kv;
      next := Decode(current, positions, Slots(rows));
      all' := seq(|rows|, i requires 0 <= i < |rows| => all[i] + [next[i]]);
      forall i | 0 <= i < |rows|
        ensures Resumes(model, start[rows[i].slot], rows[i], k, kv[rows[i].slot], all'[i], next[i])
      {
        assert Slots(rows)[i] == rows[i].slot;
        ResumesStep(model, start[rows[i].slot], rows[i], k, before[rows[i].slot], all[i], current[i]);
      }
    }

    /** Step 2: k decode calls, each feeding every row the token drafted before. */
    method DraftLoop(rows: seq<Row>) returns (all: seq<seq<int>>)
      requires Separate(rows, |kv|)
      modifies this
      ensures |kv| == |old(kv)| && |all| == |rows|
      ensures forall i :: 0 <= i < |rows| ==>
        (kv[rows[i].slot], all[i]) == DraftRow(model, old(kv)[rows[i].slot], rows[i].Current(), rows[i].Pos(), k)
      ensures forall s :: 0 <= s < |kv| && !Uses(rows, s) ==> kv[s] == old(kv)[s]
    {
      var n := |rows|;
      all := seq(n, _ => []);
      var current := seq(n, i requires 0 <= i < n => rows[i].Current());
      var positions := seq(n, i requires 0 <= i < n => rows[i].Pos());
      forall i | 0 <= i < n
        ensures Resumes(model, kv[rows[i].slot], rows[i], k, kv[rows[i].slot], [], current[i])
      {
        ResumesStart(model, kv[rows[i].slot], rows[i], k);
      }
      var step := 0;
      while step < k
        invariant step <= k && |kv| == |old(kv)| && |all| == |current| == |positions| == n
        invariant forall i :: 0 <= i < n ==> positions[i] == rows[i].Pos() + step && |all[i]| == step
        invariant forall i :: 0 <= i < n ==> Resumes(model, old(kv)[rows[i].slot], rows[i], k, kv[rows[i].slot], all[i], current[i])
        invariant forall s :: 0 <= s < |kv| && !Uses(rows, s) ==> kv[s] == old(kv)[s]
      {
        all, current := DraftStep(rows, all, current, positions, step, old(kv));
        positions := seq(n, i requires 0 <= i < n => positions[i] + 1);
        step := step + 1;
      }
      forall i | 0 <= i < n
        ensures (kv[rows[i].slot], all[i]) == DraftRow(model, old(kv)[rows[i].slot], rows[i].Current(), rows[i].Pos(), k)
      {
        assert Resumes(model, old(kv)[rows[i].slot], rows[i], k, kv[rows[i].slot], all[i], current[i]);
        assert all[i] + [] == all[i];
      }
    }

    /** `propose`: drafts for every request past its prompt. */
    method Propose(rows: seq<Row>) returns (drafts: seq<seq<int>>)
      requires Separate(rows, |kv|) && k > 0
      modifies this
      ensures ProposedAll(model, k, old(kv), rows, kv, drafts)
    {
      if !AnyInDecode(rows) {
        drafts := seq(|rows|, _ => []);
        return;
      }
      PrefillNew(rows);
      CatchUp(rows);
      var all := DraftLoop(rows);
      drafts := seq(|rows|, i requires 0 <= i < |rows| => if rows[i].InDecode() then all[i] else []);
    }
  }

  /** On the first step after its prompt a request gets everything but its newest token cached; at any other its slot is left alone. */
  ghost predicate FirstStepCached(r: Row, kv: seq<Entry>, kv': seq<Entry>) {
    && (|r.tokens| == r.promptLen + 1 && |r.tokens| <= |kv| + 1 ==> Cached(kv', r.tokens[..|r.tokens|-1]))
    && (|r.tokens| != r.promptLen + 1 ==> kv' == kv)
  }

  lemma FirstStep(m: Model, kv: seq<Entry>, r: Row)
    ensures FirstStepCached(r, kv, AfterPrefill(m, kv, r))
  {
    if |r.tokens| == r.promptLen + 1 && |r.tokens| <= |kv| + 1 {
      var h := r.tokens[..|r.tokens|-1];
      PrefillExtends(m, kv, [], h);
      assert [] + h == h;
    }
  }

  predicate AnyInDecode(rows: seq<Row>) { exists i :: 0 <= i < |rows| && rows[i].InDecode() }

  /** What a whole propose call does: nothing before the first decode step, else each row on its own slot. */
  ghost predicate ProposedAll(m: Model, k: nat, kv: seq<seq<Entry>>, rows: seq<Row>, kv': seq<seq<Entry>>, drafts: seq<seq<int>>)
    requires k > 0
  {
    && |kv'| == |kv| && |drafts| == |rows|
    && Separate(rows, |kv|)
    && (if AnyInDecode(rows) then forall i :: 0 <= i < |rows| ==> (kv'[rows[i].slot], drafts[i]) == ProposeRow(m, kv[rows[i].slot], rows[i], k)
        else kv' == kv && forall i :: 0 <= i < |rows| ==> drafts[i] == [])
    && (forall s :: 0 <= s < |kv| && !Uses(rows, s) ==> kv'[s] == kv[s])
  }

  /** After some loop steps, finishing the loop from here gives what the whole loop gives. */
  ghost predicate Resumes(m: Model, start: seq<Entry>, r: Row, k: nat, now: seq<Entry>, drafted: seq<int>, current: int) {
    |drafted| <= k &&
    var (kv, rest) := DraftRow(m, now, current, r.Pos() + |drafted|, k - |drafted|);
    DraftRow(m, start, r.Current(), r.Pos(), k) == (kv, drafted + rest)
  }

  lemma ResumesStart(m: Model, start: seq<Entry>, r: Row, k: nat)
    ensures Resumes(m, start, r, k, start, [], r.Current())
  {
    var whole := DraftRow(m, start, r.Current(), r.Pos(), k);
    assert [] + whole.1 == whole.1;
  }

  lemma ResumesStep(m: Model, start: seq<Entry>, r: Row, k: nat, now: seq<Entry>, drafted: seq<int>, current: int)
    requires Resumes(m, start, r, k, now, drafted, current) && |drafted| < k
    ensures var (kv, next) := DecodeRow(m, now, current, r.Pos() + |drafted|);
            Resumes(m, start, r, k, kv, drafted + [next], next)
  {
    var (kv, next) := DecodeRow(m, now, current, r.Pos() + |drafted|);
    var (_, rest) := DraftRow(m, kv, next, r.Pos() + |drafted| + 1, k - |drafted| - 1);
    assert drafted + ([next] + rest) == drafted + [next] + rest;
  }

  /** The row numbers below n that are wanted, in order. */
  ghost predicate Picks(want: seq<bool>, picked: seq<nat>, n: nat)
    requires n <= |want|
  {
    && (forall j :: 0 <= j < |picked| ==> picked[j] < n && want[picked[j]])
    && (forall i, j :: 0 <= i < j < |picked| ==> picked[i] < picked[j])
    && (forall i :: 0 <= i < n && want[i] ==> i in picked)
  }

  lemma PickedDistinct(rows: seq<Row>, want: seq<bool>, picked: seq<nat>, slots: seq<nat>, n: nat)
    requires |want| == |rows| && Separate(rows, n) && Picks(want, picked, |rows|)
    requires |slots| == |picked| && forall j :: 0 <= j < |picked| ==> slots[j] == rows[picked[j]].slot
    ensures Distinct(slots, n)
  {
  }

  lemma NotPicked(rows: seq<Row>, want: seq<bool>, picked: seq<nat>, slots: seq<nat>, n: nat, i: nat)
    requires |want| == |rows| && Separate(rows, n) && Picks(want, picked, |rows|)
    requires i < |rows| && i !in picked
    requires |slots| == |picked| && forall j :: 0 <= j < |picked| ==> slots[j] == rows[picked[j]].slot
    ensures rows[i].slot !in slots && !want[i]
  {
  }

  // ----- runs of verify and propose steps -----

  /** What the engine knows about the request that last drafted in a slot. */
  datatype Occupant = Free | Drafting(tokens: seq<int>, promptLen: nat, drafts: seq<int>)

  /**
   A batch the engine may send: rows in different slots, each still prefilling, on its first decode step,
   or continuing the slot's request with some of its drafts accepted and one token more.
   */
  ghost predicate RowFits(o: Occupant, r: Row, k: nat, ctx: nat) {
    && |r.tokens| + k <= ctx + 1
    && |r.tokens| > 0
    && (|r.tokens| <= r.promptLen
        || (|r.tokens| == r.promptLen + 1 && r.sampled == [r.tokens[|r.tokens|-1]])
        || (o.Drafting? && o.promptLen == r.promptLen && Accepts(o.tokens, o.drafts, r)))
  }

  ghost predicate BatchFits(world: seq<Occupant>, rows: seq<Row>, k: nat, ctx: nat) {
    && Separate(rows, |world|)
    && forall i :: 0 <= i < |rows| ==> RowFits(world[rows[i].slot], rows[i], k, ctx)
  }

  /** The engine's knowledge after a batch. */
  ghost predicate WorldAfter(world: seq<Occupant>, rows: seq<Row>, drafts: seq<seq<int>>, world': seq<Occupant>)
    requires Separate(rows, |world|) && |drafts| == |rows|
  {
    && |world'| == |world|
    && (forall i :: 0 <= i < |rows| ==>
          world'[rows[i].slot] == if |rows[i].tokens| > rows[i].promptLen then Drafting(rows[i].tokens, rows[i].promptLen, drafts[i]) else Free)
    && (forall s :: 0 <= s < |world| && !Uses(rows, s) ==> world'[s] == world[s])
  }

  ghost predicate SlotOk(m: Model, k: nat, kv: seq<Entry>, o: Occupant, ctx: nat)
    requires k > 0
  {
    && |kv| == ctx
    && (o.Drafting? ==>
          && |o.tokens| > o.promptLen && o.drafts == Continuation(m, o.tokens, k)
          && Cached(kv, o.tokens + o.drafts[..k-1]))
  }

  ghost predicate WorldOk(m: Model, k: nat, kv: seq<seq<Entry>>, world: seq<Occupant>, ctx: nat)
    requires k > 0
  {
    |kv| == |world| && forall s :: 0 <= s < |kv| ==> SlotOk(m, k, kv[s], world[s], ctx)
  }

  /** Every decoding row of a fitting batch gets the uncached greedy continuation of its true history. */
  lemma BatchIsGreedy(m: Model, k: nat, kv: seq<seq<Entry>>, world: seq<Occupant>, rows: seq<Row>, ctx: nat,
                      kv': seq<seq<Entry>>, drafts: seq<seq<int>>, world': seq<Occupant>)
    requires k > 0 && WorldOk(m, k, kv, world, ctx) && BatchFits(world, rows, k, ctx)
    requires ProposedAll(m, k, kv, rows, kv', drafts) && WorldAfter(world, rows, drafts, world')
    ensures WorldOk(m, k, kv', world', ctx)
    ensures forall i :: 0 <= i < |rows| ==>
      drafts[i] == if |rows[i].tokens| > rows[i].promptLen then Continuation(m, rows[i].tokens, k) else []
  {
    forall i | 0 <= i < |rows|
      ensures drafts[i] == (if |rows[i].tokens| > rows[i].promptLen then Continuation(m, rows[i].tokens, k) else [])
      ensures SlotOk(m, k, kv'[rows[i].slot], world'[rows[i].slot], ctx)
    {
      RowIsGreedy(m, k, kv, world, rows, ctx, kv', drafts, world', i);
    }
    forall s | 0 <= s < |kv'|
      ensures SlotOk(m, k, kv'[s], world'[s], ctx)
    {
      assert SlotOk(m, k, kv[s], world[s], ctx);
    }
  }

  lemma RowIsGreedy(m: Model, k: nat, kv: seq<seq<Entry>>, world: seq<Occupant>, rows: seq<Row>, ctx: nat,
                    kv': seq<seq<Entry>>, drafts: seq<seq<int>>, world': seq<Occupant>, i: nat)
    requires k > 0 && WorldOk(m, k, kv, world, ctx) && BatchFits(world, rows, k, ctx) && i < |rows|
    requires ProposedAll(m, k, kv, rows, kv', drafts) && WorldAfter(world, rows, drafts, world')
    ensures drafts[i] == if |rows[i].tokens| > rows[i].promptLen then Continuation(m, rows[i].tokens, k) else []
    ensures SlotOk(m, k, kv'[rows[i].slot], world'[rows[i].slot], ctx)
  {
    var r := rows[i];
    var o := world[r.slot];
    assert SlotOk(m, k, kv[r.slot], o, ctx) && RowFits(o, r, k, ctx);
    if |r.tokens| > r.promptLen {
      assert AnyInDecode(rows);
      if |r.tokens| == r.promptLen + 1 && r.sampled == [r.tokens[|r.tokens|-1]] {
        FirstProposal(m, kv[r.slot], r, k);
      } else {
        NextProposal(m, kv[r.slot], o.tokens, o.drafts, r, k);
      }
      assert Proposed(m, kv[r.slot], r, k);
    }
  }

  /** One verify and propose step of a run. */
  datatype BatchStep = BatchStep(rows: seq<Row>, drafts: seq<seq<int>>)

  /** Device caches and engine knowledge between the steps of a run, from any cache contents. */
  ghost predicate Run(m: Model, k: nat, ctx: nat, steps: seq<BatchStep>, kvs: seq<seq<seq<Entry>>>, worlds: seq<seq<Occupant>>)
    requires k > 0
  {
    && |kvs| == |worlds| == |steps| + 1
    && |worlds[0]| == |kvs[0]|
    && (forall s :: 0 <= s < |kvs[0]| ==> worlds[0][s] == Free && |kvs[0][s]| == ctx)
    && forall n :: 0 <= n < |steps| ==>
         && BatchFits(worlds[n], steps[n].rows, k, ctx)
         && ProposedAll(m, k, kvs[n], steps[n].rows, kvs[n + 1], steps[n].drafts)
         && WorldAfter(worlds[n], steps[n].rows, steps[n].drafts, worlds[n + 1])
  }

  lemma {:induction false} RunKeepsWorld(m: Model, k: nat, ctx: nat, steps: seq<BatchStep>, kvs: seq<seq<seq<Entry>>>,
                                         worlds: seq<seq<Occupant>>, n: nat)
    requires k > 0 && Run(m, k, ctx, steps, kvs, worlds) && n <= |steps|
    ensures WorldOk(m, k, kvs[n], worlds[n], ctx)
    decreases n
  {
    if n > 0 {
      RunKeepsWorld(m, k, ctx, steps, kvs, worlds, n - 1);
      BatchIsGreedy(m, k, kvs[n - 1], worlds[n - 1], steps[n - 1].rows, ctx, kvs[n], steps[n - 1].drafts, worlds[n]);
    }
  }

  /** In every run, every propose returns for each decoding request exactly its greedy continuation. */
  lemma RunIsGreedy(m: Model, k: nat, ctx: nat, steps: seq<BatchStep>, kvs: seq<seq<seq<Entry>>>, worlds: seq<seq<Occupant>>, n: nat, i: nat)
    requires k > 0 && Run(m, k, ctx, steps, kvs, worlds) && n < |steps| && i < |steps[n].rows|
    ensures i < |steps[n].drafts|
    ensures steps[n].drafts[i] ==
      if |steps[n].rows[i].tokens| > steps[n].rows[i].promptLen then Continuation(m, steps[n].rows[i].tokens, k) else []
  {
    RunKeepsWorld(m, k, ctx, steps, kvs, worlds, n);
    BatchIsGreedy(m, k, kvs[n], worlds[n], steps[n].rows, ctx, kvs[n + 1], steps[n].drafts, worlds[n + 1]);
  }

  /** token is what the model, reading h from scratch without any cache, predicts next. */
  ghost predicate PredictedAfter(m: Model, h: seq<int>, token: int) {
    |h| > 0 && exists e :: PredictedFrom(m, e, h, token)
  }

  ghost predicate PredictedFrom(m: Model, e: seq<Entry>, h: seq<int>, token: int)
    requires |h| > 0
  {
    Reads(e, h[..|h|-1]) && token == (m.predict)(e, h[|h|-1])
  }

  lemma GreedyIsPredicted(m: Model, h: seq<int>)
    requires |h| > 0
    ensures PredictedAfter(m, h, Greedy(m, h))
  {
    EntriesRead(h[..|h|-1]);
    assert PredictedFrom(m, Entries(h[..|h|-1]), h, Greedy(m, h));
  }

  /**
   Token by token: in every run every decoding request gets k drafts, and each of them is what the model predicts
   when it reads the request's tokens and the drafts before it from scratch.
   */
  lemma DraftsArePredicted(m: Model, k: nat, ctx: nat, steps: seq<BatchStep>, kvs: seq<seq<seq<Entry>>>, worlds: seq<seq<Occupant>>,
                           n: nat, i: nat, j: nat)
    requires k > 0 && Run(m, k, ctx, steps, kvs, worlds) && n < |steps| && i < |steps[n].rows|
    requires |steps[n].rows[i].tokens| > steps[n].rows[i].promptLen && j < k
    ensures i < |steps[n].drafts| && |steps[n].drafts[i]| == k
    ensures PredictedAfter(m, steps[n].rows[i].tokens + steps[n].drafts[i][..j], steps[n].drafts[i][j])
  {
    RunIsGreedy(m, k, ctx, steps, kvs, worlds, n, i);
    var tokens, drafts := steps[n].rows[i].tokens, steps[n].drafts[i];
    assert drafts[j] == Greedy(m, tokens + drafts[..j]) by { ContinuationAt(m, tokens, k, j); }
    GreedyIsPredicted(m, tokens + drafts[..j]);
  }
}
