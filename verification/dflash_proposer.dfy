/** The DFlash proposer object: its per-request state, reusable input buffers and pending prefill work. */
module DFlashProposer {
  import opened Arithmetic
  import opened Wrappers
  import opened DFlashTracking
  import opened DFlashPrefill
  import opened PrefillChunks

  datatype ReqState = ReqState(candidates: seq<int>, counter: int, fromPrefill: bool)

  /** One request of the batch after bookkeeping. */
  datatype ReqRow = ReqRow(req: nat, slot: nat, numTokens: nat, promptLen: nat, sampled: seq<int>)
  {
    predicate Active() { numTokens > promptLen && sampled != [] }
  }

  /** The entries of one input row that the device does not skip. */
  function RowFeeds(target: seq<int>, hidden: seq<Hidden>): seq<Feed>
    requires |target| == |hidden|
  {
    if target == [] then []
    else RowFeeds(target[..|target|-1], hidden[..|hidden|-1]) +
         if target[|target|-1] == -1 then [] else [Feed(target[|target|-1], hidden[|hidden|-1])]
  }

  /** A row whose first m positions are real and the rest padding feeds exactly the first m. */
  lemma {:induction false} PaddedRowFeeds(target: seq<int>, hidden: seq<Hidden>, m: nat)
    requires |target| == |hidden| && m <= |target|
    requires forall j :: 0 <= j < |target| ==> (target[j] == -1 <==> j >= m)
    ensures RowFeeds(target, hidden) == seq(m, j requires 0 <= j < m => Feed(target[j], hidden[j]))
    decreases |target|
  {
    if target != [] {
      var n := |target| - 1;
      PaddedRowFeeds(target[..n], hidden[..n], if m <= n then m else n);
    }
  }

  function FedOf(fed: map<nat, seq<Feed>>, req: nat): seq<Feed> {
    if req in fed then fed[req] else []
  }

  /** The feeds after a device call: every active row appends to its request. */
  ghost function LogRun(fed: map<nat, seq<Feed>>, owners: seq<nat>, batch: seq<int>, target: seq<seq<int>>, hidden: seq<seq<Hidden>>, n: nat): map<nat, seq<Feed>>
    requires |owners| == |batch| == |target| == |hidden| && n <= |owners|
    requires forall b :: 0 <= b < |owners| ==> |target[b]| == |hidden[b]|
  {
    if n == 0 then fed
    else
      var f := LogRun(fed, owners, batch, target, hidden, n - 1);
      if batch[n - 1] == -1 then f
      else f[owners[n - 1] := FedOf(f, owners[n - 1]) + RowFeeds(target[n - 1], hidden[n - 1])]
  }

  /** A request whose only active row is b gets that row's feeds; one without active rows gets nothing. */
  lemma {:induction false} LogRunOf(fed: map<nat, seq<Feed>>, owners: seq<nat>, batch: seq<int>, target: seq<seq<int>>, hidden: seq<seq<Hidden>>,
                                    n: nat, req: nat, b: nat)
    requires |owners| == |batch| == |target| == |hidden| && n <= |owners|
    requires forall i :: 0 <= i < |owners| ==> |target[i]| == |hidden[i]|
    requires forall i :: 0 <= i < |owners| && batch[i] != -1 && owners[i] == req ==> i == b
    ensures FedOf(LogRun(fed, owners, batch, target, hidden, n), req) == FedOf(fed, req) +
      (if b < n && batch[b] != -1 && owners[b] == req then RowFeeds(target[b], hidden[b]) else [])
  {
    if n > 0 {
      LogRunOf(fed, owners, batch, target, hidden, n - 1, req, b);
      var f := LogRun(fed, owners, batch, target, hidden, n - 1);
      var i := n - 1;
      if batch[i] != -1 && owners[i] == req {
        assert i == b;
        assert FedOf(f, req) == FedOf(fed, req) + [] == FedOf(fed, req);
      }
    }
  }

  class Proposer {
    const blockSize: nat
    const decodeBsz: nat
    const prefillLen: nat
    /** The draft model: candidate j of a slot, from all its inputs. */
    const dlm: (seq<seq<int>>, seq<seq<Hidden>>, seq<int>, nat, nat) -> int

    // Reusable device inputs; a row with batch index -1 is inactive, a target position -1 is skipped.
    var dlmTarget: seq<seq<int>>
    var dlmHidden: seq<seq<Hidden>>
    var dlmBatch: seq<int>
    var reqState: map<nat, ReqState>
    var pending: seq<WorkItem>
    /** Everything the device has been fed, by request. */
    ghost var fed: map<nat, seq<Feed>>

    constructor (blockSize: nat, decodeBsz: nat, prefillLen: nat, dlm: (seq<seq<int>>, seq<seq<Hidden>>, seq<int>, nat, nat) -> int)
      requires blockSize > 0 && decodeBsz > 0 && prefillLen > 0 && prefillLen % blockSize == 0
      ensures Valid() && pending == [] && forall req: nat :: ViewOf(req) == FRESH
      ensures this.blockSize == blockSize && this.decodeBsz == decodeBsz && this.prefillLen == prefillLen && this.dlm == dlm
    {
      this.blockSize, this.decodeBsz, this.prefillLen, this.dlm := blockSize, decodeBsz, prefillLen, dlm;
      dlmTarget := seq(decodeBsz, _ => seq(blockSize, _ => -1));
      dlmHidden := seq(decodeBsz, _ => seq(blockSize, _ => Junk));
      dlmBatch := seq(decodeBsz, _ => -1);
      reqState, pending, fed := map[], [], map[];
    }

    ghost predicate Valid()
      reads this
    {
      && blockSize > 0 && decodeBsz > 0 && prefillLen > 0 && prefillLen % blockSize == 0
      && |dlmTarget| == |dlmHidden| == |dlmBatch| == decodeBsz
      && (forall r :: r in reqState ==> reqState[r].counter >= 0)
      && forall b :: 0 <= b < decodeBsz ==> |dlmTarget[b]| == |dlmHidden[b]| == blockSize
    }

    ghost function ViewOf(req: nat): View
      reads this
    {
      ViewFrom(StateOf(reqState, req), FedOf(fed, req))
    }

    /** The draft model's candidates for row b of the current inputs. */
    function Output(b: nat): (candidates: seq<int>)
      reads this`dlmTarget, this`dlmHidden, this`dlmBatch
      ensures |candidates| == blockSize
    {
      var target, hidden, batch := dlmTarget, dlmHidden, dlmBatch;
      seq(blockSize, j requires 0 <= j < blockSize => dlm(target, hidden, batch, b, j))
    }

    /** `_reset_dlm_inputs`; the hidden rows keep their old contents. */
    method ResetInputs()
      requires Valid()
      modifies this`dlmTarget, this`dlmBatch
      ensures Valid()
      ensures forall b :: 0 <= b < decodeBsz ==> dlmBatch[b] == -1 && forall j :: 0 <= j < blockSize ==> dlmTarget[b][j] == -1
    {
      dlmTarget := seq(decodeBsz, _ => seq(blockSize, _ => -1));
      dlmBatch := seq(decodeBsz, _ => -1);
    }

    /** One device call with the current inputs. */
    method NpRun(ghost owners: seq<nat>) returns (candidates: seq<seq<int>>)
      requires Valid() && |owners| == decodeBsz
      modifies this`fed
      ensures Valid()
      ensures |candidates| == decodeBsz && forall b :: 0 <= b < decodeBsz ==> candidates[b] == Output(b)
      ensures fed == LogRun(old(fed), owners, dlmBatch, dlmTarget, dlmHidden, decodeBsz)
    {
      candidates := seq(decodeBsz, b requires 0 <= b < decodeBsz reads this => Output(b));
      fed := LogRun(fed, owners, dlmBatch, dlmTarget, dlmHidden, decodeBsz);
    }

    /** One sub-block of a request's prefill, in slot 0 of the inputs. */
    method RunSubBlock(req: nat, kvSlot: nat, target: seq<int>, hidden: seq<Hidden>, ghost m: nat) returns (candidates: seq<int>)
      requires Valid() && |target| == |hidden| == blockSize && m <= blockSize
      requires forall j :: 0 <= j < blockSize ==> (target[j] == -1 <==> j >= m)
      modifies this`dlmTarget, this`dlmHidden, this`dlmBatch, this`fed
      ensures Valid() && candidates == Output(0)
      ensures FedOf(fed, req) == FedOf(old(fed), req) + seq(m, j requires 0 <= j < m => Feed(target[j], hidden[j]))
      ensures forall r: nat :: r != req ==> FedOf(fed, r) == FedOf(old(fed), r)
    {
      ResetInputs();
      dlmTarget := dlmTarget[0 := target];
      dlmHidden := dlmHidden[0 := hidden];
      dlmBatch := dlmBatch[0 := kvSlot];
      ghost var owners := seq(decodeBsz, _ => req);
      var all := NpRun(owners);
      candidates := all[0];
      PaddedRowFeeds(target, hidden, m);
      forall r: nat
        ensures FedOf(fed, r) == FedOf(old(fed), r) + if r == req then RowFeeds(target, hidden) else []
      {
        LogRunOf(old(fed), owners, dlmBatch, dlmTarget, dlmHidden, decodeBsz, r, 0);
      }
    }

    /** Sub-block s of the work item: its padded positions and the hidden rows from the one chunk it lies in. */
    method SubBlock(item: WorkItem, s: nat, ghost from: nat) returns (candidates: seq<int>)
      requires Valid() && ItemReady(item, from, prefillLen) && s * blockSize < |item.positions|
      modifies this`dlmTarget, this`dlmHidden, this`dlmBatch, this`fed
      ensures Valid() && candidates == Output(0)
      ensures FedOf(fed, item.req) == FedOf(old(fed), item.req) +
        Rows(item.req, from + s * blockSize, MinNat(blockSize, |item.positions| - s * blockSize))
      ensures forall r: nat :: r != item.req ==> FedOf(fed, r) == FedOf(old(fed), r)
    {
      var start := s * blockSize;
      SubBlockInChunk(|item.positions|, s, blockSize, prefillLen);
      SubBlockRows(item, from, prefillLen, start, blockSize);
      var hidden := HiddenSubBlock(item, start, blockSize, prefillLen);
      var target := PaddedPositions(item.positions, start, blockSize);
      candidates := RunSubBlock(item.req, item.slot, target, hidden, MinNat(blockSize, |item.positions| - start));
    }

    /** `prefill_step`. */
    method PrefillStep(item: WorkItem, ghost from: nat)
      requires Valid() && ItemReady(item, from, prefillLen)
      modifies this`dlmTarget, this`dlmHidden, this`dlmBatch, this`fed, this`reqState
      ensures Valid()
      ensures ViewOf(item.req) == AfterItem(item, old(ViewOf(item.req)), from)
      ensures StateOf(reqState, item.req).candidates == if item.partial then StateOf(old(reqState), item.req).candidates else Output(0)
      ensures forall r: nat :: r != item.req ==> ViewOf(r) == old(ViewOf(r)) && StateOf(reqState, r) == StateOf(old(reqState), r)
    {
      var n := |item.positions|;
      var st := if item.req in reqState then reqState[item.req] else ReqState([], 0, false);
      if item.partial {
        var nSub := CeilDiv(n, blockSize);
        CeilDivBounds(n, blockSize);
        RunSubBlocks(item, nSub, from);
        assert MinNat(nSub * blockSize, n) == n;
        reqState := reqState[item.req := st.(counter := item.positions[n - 1])];
      } else {
        var candidates := FinalSubBlocks(item, from);
        reqState := reqState[item.req := ReqState(candidates, item.positions[n - 1], true)];
      }
    }

    /** All sub-blocks of a final prefill; the last one's output holds the first drafts. */
    method FinalSubBlocks(item: WorkItem, ghost from: nat) returns (candidates: seq<int>)
      requires Valid() && ItemReady(item, from, prefillLen)
      modifies this`dlmTarget, this`dlmHidden, this`dlmBatch, this`fed
      ensures Valid() && candidates == Output(0)
      ensures FedOf(fed, item.req) == FedOf(old(fed), item.req) + Rows(item.req, from, |item.positions|)
      ensures forall r: nat :: r != item.req ==> FedOf(fed, r) == FedOf(old(fed), r)
    {
      var n := |item.positions|;
      var lastSub := (n - 1) / blockSize;
      LastSubBlock(n, blockSize);
      RunSubBlocks(item, lastSub, from);
      candidates := SubBlock(item, lastSub, from);
      assert Rows(item.req, from, lastSub * blockSize) + Rows(item.req, from + lastSub * blockSize, n - lastSub * blockSize) == Rows(item.req, from, n);
    }

    /** The leading sub-blocks, whose outputs are not used. */
    method RunSubBlocks(item: WorkItem, count: nat, ghost from: nat)
      requires Valid() && ItemReady(item, from, prefillLen)
      requires count > 0 ==> (count - 1) * blockSize < |item.positions|
      modifies this`dlmTarget, this`dlmHidden, this`dlmBatch, this`fed
      ensures Valid()
      ensures FedOf(fed, item.req) == FedOf(old(fed), item.req) + Rows(item.req, from, MinNat(count * blockSize, |item.positions|))
      ensures forall r: nat :: r != item.req ==> FedOf(fed, r) == FedOf(old(fed), r)
    {
      var n := |item.positions|;
      var s := 0;
      while s < count
        invariant s <= count && Valid()
        invariant FedOf(fed, item.req) == FedOf(old(fed), item.req) + Rows(item.req, from, MinNat(s * blockSize, n))
        invariant forall r: nat :: r != item.req ==> FedOf(fed, r) == FedOf(old(fed), r)
      {
        EarlierSubBlock(s, count, blockSize);
        ghost var a := s * blockSize;
        var _ := SubBlock(item, s, from);
        assert (s + 1) * blockSize == a + blockSize;
        assert Rows(item.req, from, a) + Rows(item.req, from + a, MinNat(blockSize, n - a)) == Rows(item.req, from, MinNat(a + blockSize, n));
        s := s + 1;
      }
    }

    /** `update_prefill_kv`: drain the pending prefill work, each item once. */
    method UpdatePrefillKv(ghost froms: seq<nat>)
      requires Valid() && |froms| == |pending|
      requires forall i :: 0 <= i < |pending| ==> ItemReady(pending[i], froms[i], prefillLen)
      requires forall i, j :: 0 <= i < j < |pending| ==> pending[i].req != pending[j].req
      modifies this
      ensures Valid() && pending == []
      ensures forall r: nat :: AfterItems(old(pending), froms, r, old(ViewOf(r)), ViewOf(r))
      ensures forall r: nat :: NoItem(old(pending), r) ==> ViewOf(r) == old(ViewOf(r))
    {
      var i := 0;
      while i < |pending|
        invariant i <= |pending| && pending == old(pending) && Valid()
        invariant forall r: nat :: AfterItems(pending[..i], froms[..i], r, old(ViewOf(r)), ViewOf(r))
      {
        label before:
        PrefillStep(pending[i], froms[i]);
        forall r: nat
          ensures AfterItems(pending[..i + 1], froms[..i + 1], r, old(ViewOf(r)), ViewOf(r))
        {
          OneMoreItem(pending, froms, i, r, old(ViewOf(r)), old@before(ViewOf(r)), ViewOf(r));
        }
        i := i + 1;
      }
      assert pending[..i] == pending && froms[..i] == froms;
      pending := [];
      forall r: nat | NoItem(old(pending), r)
        ensures ViewOf(r) == old(ViewOf(r))
      {
        assert AfterItems(old(pending), froms, r, old(ViewOf(r)), ViewOf(r));
      }
    }

    /**
     `propose`: one batched call of the draft model.  With the gate open a request whose prefill has just
     finished is served the drafts computed there, once; every other active one gets this call's.  With the
     gate closed all drafts are dropped.  Requests outside the batch are forgotten.
     */
    method Propose(rows: seq<ReqRow>, targetHidden: seq<seq<Hidden>>, commit: bool) returns (drafts: seq<seq<int>>)
      requires Valid() && |rows| <= decodeBsz && |targetHidden| >= |rows|
      requires forall i, j :: 0 <= i < j < |rows| ==> rows[i].req != rows[j].req
      requires forall i :: 0 <= i < |rows| ==> |rows[i].sampled| <= blockSize <= |targetHidden[i]|
      modifies this
      ensures Valid() && |drafts| == |rows| && pending == old(pending)
      ensures forall i :: 0 <= i < |rows| ==> ViewOf(rows[i].req) == AfterRow(rows[i], old(ViewOf(rows[i].req)), targetHidden[i], commit)
      ensures forall i :: 0 <= i < |rows| ==> RowFilled(StateOf(old(reqState), rows[i].req), rows[i], targetHidden[i], commit, i)
      ensures forall i :: 0 <= i < |rows| ==> drafts[i] == DraftOf(StateOf(old(reqState), rows[i].req), rows[i], commit, Output(i))
      ensures forall i :: 0 <= i < |rows| ==>
        StateOf(reqState, rows[i].req) == StateAfter(StateOf(old(reqState), rows[i].req), rows[i], commit, Output(i))
      ensures forall i :: 0 <= i < |rows| ==> Drafted(StateOf(old(reqState), rows[i].req), rows[i], commit, Output(i), drafts[i])
      ensures forall i :: 0 <= i < |rows| ==>
        Advances(StateOf(old(reqState), rows[i].req), rows[i], commit, Output(i), StateOf(reqState, rows[i].req))
      ensures forall i :: 0 <= i < |rows| ==>
        Inputs(StateOf(old(reqState), rows[i].req), rows[i], commit, dlmBatch[i], dlmTarget[i], dlmHidden[i], targetHidden[i])
      ensures forall r: nat :: NotIn(rows, r) ==> r !in reqState && FedOf(fed, r) == FedOf(old(fed), r)
    {
      CollectFinished(rows);
      if |rows| == 0 {
        return [];
      }
      ResetInputs();
      ghost var states := reqState;
      drafts := FillRows(rows, targetHidden, commit);
      drafts := RunRows(rows, targetHidden, commit, drafts, states);
      forall i | 0 <= i < |rows|
        ensures ViewOf(rows[i].req) == AfterRow(rows[i], old(ViewOf(rows[i].req)), targetHidden[i], commit)
      {
        var req := rows[i].req;
        ViewAfterRow(StateOf(states, req), FedOf(old(fed), req), StateOf(reqState, req), FedOf(fed, req), rows[i], targetHidden[i], commit,
                     Output(i));
      }
      forall i | 0 <= i < |rows|
        ensures Drafted(StateOf(states, rows[i].req), rows[i], commit, Output(i), drafts[i])
        ensures Advances(StateOf(states, rows[i].req), rows[i], commit, Output(i), StateOf(reqState, rows[i].req))
        ensures Inputs(StateOf(states, rows[i].req), rows[i], commit, dlmBatch[i], dlmTarget[i], dlmHidden[i], targetHidden[i])
      {
        var st := StateOf(states, rows[i].req);
        DraftMeaning(st, rows[i], commit, Output(i));
        StateMeaning(st, rows[i], commit, Output(i));
        InputMeaning(st, rows[i], commit, dlmBatch[i], dlmTarget[i], dlmHidden[i], targetHidden[i], blockSize);
      }
    }

    /**
     One engine step: the pending prefill work, then one propose call.  What it does to each request of the
     batch is what its event says, so a request that was in step with its feeds still is, and a request that has
     followed a life so far still does: steps compose, and what is proved of lives holds of the object.
     */
    method EngineStep(rows: seq<ReqRow>, targetHidden: seq<seq<Hidden>>, commit: bool, ghost froms: seq<nat>, ghost ps: seq<Progress>,
                      ghost events: seq<Option<Event>>, ghost lives: seq<Trace>) returns (drafts: seq<seq<int>>)
      requires Valid() && |rows| <= decodeBsz && |targetHidden| >= |rows| == |ps| == |events| == |lives| && |froms| == |pending|
      requires forall i, j :: 0 <= i < j < |rows| ==> rows[i].req != rows[j].req
      requires forall i, j :: 0 <= i < j < |pending| ==> pending[i].req != pending[j].req
      requires forall i :: 0 <= i < |rows| ==> |rows[i].sampled| <= blockSize <= |targetHidden[i]|
      requires forall i :: 0 <= i < |pending| ==> ItemReady(pending[i], froms[i], prefillLen)
      requires forall i :: 0 <= i < |rows| ==> Enacts(pending, froms, rows[i], targetHidden[i], commit, ps[i], events[i])
      modifies this
      ensures Valid() && |drafts| == |rows| && pending == []
      ensures forall i :: 0 <= i < |rows| ==> ViewOf(rows[i].req) == AfterEvent(rows[i].req, ps[i], old(ViewOf(rows[i].req)), events[i])
      ensures forall i :: 0 <= i < |rows| ==> StaysInStep(rows[i].req, ps[i], old(ViewOf(rows[i].req)), events[i], ViewOf(rows[i].req))
      ensures forall i :: 0 <= i < |rows| ==> LivesOn(rows[i].req, lives[i], ps[i], old(ViewOf(rows[i].req)), events[i], ViewOf(rows[i].req))
      ensures forall r: nat :: NotIn(rows, r) && NoItem(old(pending), r) && old(ViewOf(r)) == FRESH ==> ViewOf(r) == FRESH
    {
      ghost var items := pending;
      ghost var views := seq(|rows|, i requires 0 <= i < |rows| reads this => ViewOf(rows[i].req));
      UpdatePrefillKv(froms);
      ghost var filled := seq(|rows|, i requires 0 <= i < |rows| reads this => ViewOf(rows[i].req));
      assert forall i :: 0 <= i < |rows| ==> AfterItems(items, froms, rows[i].req, views[i], filled[i]);
      drafts := Propose(rows, targetHidden, commit);
      forall i | 0 <= i < |rows|
        ensures ViewOf(rows[i].req) == AfterEvent(rows[i].req, ps[i], views[i], events[i])
        ensures StaysInStep(rows[i].req, ps[i], views[i], events[i], ViewOf(rows[i].req))
        ensures LivesOn(rows[i].req, lives[i], ps[i], views[i], events[i], ViewOf(rows[i].req))
      {
        EventEnacted(items, froms, rows[i], targetHidden[i], commit, ps[i], events[i], views[i], filled[i]);
        EventCarries(rows[i].req, lives[i], ps[i], views[i], events[i]);
      }
    }

    /** The device call for the filled rows, if any, and its drafts. */
    method RunRows(rows: seq<ReqRow>, targetHidden: seq<seq<Hidden>>, commit: bool, served: seq<seq<int>>, ghost states: map<nat, ReqState>)
      returns (drafts: seq<seq<int>>)
      requires Valid() && |rows| <= decodeBsz && |targetHidden| >= |rows| == |served|
      requires forall i, j :: 0 <= i < j < |rows| ==> rows[i].req != rows[j].req
      requires forall i :: 0 <= i < |rows| ==> |rows[i].sampled| <= blockSize <= |targetHidden[i]|
      requires forall i :: 0 <= i < |rows| ==> RowReady(states, rows[i], targetHidden[i], commit, i, served[i])
      requires forall b :: |rows| <= b < decodeBsz ==> dlmBatch[b] == -1
      modifies this`fed, this`reqState
      ensures Valid() && |drafts| == |rows|
      ensures forall i :: 0 <= i < |rows| ==> RowRun(states, old(fed), rows[i], targetHidden[i], commit, i, drafts[i])
      ensures forall r: nat :: NotIn(rows, r) ==> FedOf(fed, r) == FedOf(old(fed), r)
      ensures forall r :: r in reqState ==> r in old(reqState) || !NotIn(rows, r)
    {
      drafts := served;
      var run := exists b :: 0 <= b < |rows| && dlmBatch[b] != -1;
      if run {
        ghost var owners := seq(decodeBsz, b requires 0 <= b < decodeBsz => if b < |rows| then rows[b].req else 0);
        var candidates := NpRun(owners);
        LogRows(rows, targetHidden, commit, states, owners, old(fed));
        if commit {
          drafts := CommitRows(rows, candidates, drafts, targetHidden, states);
        }
      } else {
        forall i | 0 <= i < |rows|
          ensures FedOf(fed, rows[i].req) == FedOf(old(fed), rows[i].req) + RowLog(StateOf(states, rows[i].req), rows[i], targetHidden[i], commit)
        {
          assert dlmBatch[i] == -1;
          assert FedOf(fed, rows[i].req) + [] == FedOf(fed, rows[i].req);
        }
      }
    }

    /** Before the device call: row i is filled, its request's state is the next one, and its served draft is known. */
    ghost predicate RowReady(states: map<nat, ReqState>, row: ReqRow, hidden: seq<Hidden>, commit: bool, i: nat, served: seq<int>)
      requires Valid() && i < decodeBsz && |hidden| >= blockSize
      reads this
    {
      var st := StateOf(states, row.req);
      && st.counter >= 0
      && RowFilled(st, row, hidden, commit, i)
      && Served(st, StateOf(reqState, row.req), row, commit, served)
    }

    /** After the device call: the request was fed its row, has its new state, and its draft is known. */
    ghost predicate RowRun(states: map<nat, ReqState>, before: map<nat, seq<Feed>>, row: ReqRow, hidden: seq<Hidden>, commit: bool, i: nat,
                           draft: seq<int>)
      requires Valid() && i < decodeBsz && |hidden| >= blockSize >= |row.sampled|
      reads this
    {
      var st := StateOf(states, row.req);
      && FedOf(fed, row.req) == FedOf(before, row.req) + RowLog(st, row, hidden, commit)
      && StateOf(reqState, row.req) == StateAfter(st, row, commit, Output(i))
      && draft == DraftOf(st, row, commit, Output(i))
    }

    /** The device call feeds every row of the batch what the inputs hold, and nothing to others. */
    lemma LogRows(rows: seq<ReqRow>, targetHidden: seq<seq<Hidden>>, commit: bool, states: map<nat, ReqState>, owners: seq<nat>,
                  before: map<nat, seq<Feed>>)
      requires Valid() && |rows| <= decodeBsz && |targetHidden| >= |rows|
      requires forall i, j :: 0 <= i < j < |rows| ==> rows[i].req != rows[j].req
      requires forall i :: 0 <= i < |rows| ==> |rows[i].sampled| <= blockSize <= |targetHidden[i]|
      requires forall i :: 0 <= i < |rows| ==>
        StateOf(states, rows[i].req).counter >= 0 && RowFilled(StateOf(states, rows[i].req), rows[i], targetHidden[i], commit, i)
      requires forall b :: |rows| <= b < decodeBsz ==> dlmBatch[b] == -1
      requires |owners| == decodeBsz && forall b :: 0 <= b < |rows| ==> owners[b] == rows[b].req
      requires fed == LogRun(before, owners, dlmBatch, dlmTarget, dlmHidden, decodeBsz)
      ensures forall i :: 0 <= i < |rows| ==>
        FedOf(fed, rows[i].req) == FedOf(before, rows[i].req) + RowLog(StateOf(states, rows[i].req), rows[i], targetHidden[i], commit)
      ensures forall r: nat :: NotIn(rows, r) ==> FedOf(fed, r) == FedOf(before, r)
    {
      forall i | 0 <= i < |rows|
        ensures FedOf(fed, rows[i].req) == FedOf(before, rows[i].req) + RowLog(StateOf(states, rows[i].req), rows[i], targetHidden[i], commit)
      {
        LogRunOf(before, owners, dlmBatch, dlmTarget, dlmHidden, decodeBsz, rows[i].req, i);
        RowFeedsLog(StateOf(states, rows[i].req), rows[i], targetHidden[i], commit, i);
      }
      forall r: nat | NotIn(rows, r)
        ensures FedOf(fed, r) == FedOf(before, r)
      {
        LogRunOf(before, owners, dlmBatch, dlmTarget, dlmHidden, decodeBsz, r, decodeBsz);
        assert FedOf(before, r) + [] == FedOf(before, r);
      }
    }

    lemma RowFeedsLog(st: ReqState, row: ReqRow, hidden: seq<Hidden>, commit: bool, i: nat)
      requires Valid() && i < decodeBsz && |row.sampled| <= blockSize <= |hidden| && st.counter >= 0
      requires RowFilled(st, row, hidden, commit, i)
      ensures (if dlmBatch[i] != -1 then RowFeeds(dlmTarget[i], dlmHidden[i]) else []) == RowLog(st, row, hidden, commit)
    {
      if Runs(st, row, commit) {
        PaddedRowFeeds(dlmTarget[i], dlmHidden[i], |row.sampled|);
      }
    }

    /** `_gc_finished_reqs`: forget requests that left the batch. */
    method CollectFinished(rows: seq<ReqRow>)
      requires Valid()
      modifies this`reqState
      ensures Valid()
      ensures forall i :: 0 <= i < |rows| ==> StateOf(reqState, rows[i].req) == StateOf(old(reqState), rows[i].req)
      ensures forall i :: 0 <= i < |rows| ==> ViewOf(rows[i].req) == old(ViewOf(rows[i].req))
      ensures forall r :: r in reqState ==> exists i :: 0 <= i < |rows| && rows[i].req == r
    {
      var alive := set i | 0 <= i < |rows| :: rows[i].req;
      reqState := map r | r in reqState && r in alive :: reqState[r];
    }

    /** Fill the input rows of the requests that run, and serve prefill-computed drafts. */
    method FillRows(rows: seq<ReqRow>, targetHidden: seq<seq<Hidden>>, commit: bool) returns (drafts: seq<seq<int>>)
      requires Valid() && |rows| <= decodeBsz && |targetHidden| >= |rows|
      requires forall i, j :: 0 <= i < j < |rows| ==> rows[i].req != rows[j].req
      requires forall i :: 0 <= i < |rows| ==> |rows[i].sampled| <= blockSize <= |targetHidden[i]|
      requires forall b :: 0 <= b < decodeBsz ==> dlmBatch[b] == -1
      modifies this`reqState, this`dlmTarget, this`dlmHidden, this`dlmBatch
      ensures Valid() && |drafts| == |rows|
      ensures forall i :: 0 <= i < |rows| ==> RowReady(old(reqState), rows[i], targetHidden[i], commit, i, drafts[i])
      ensures forall b :: |rows| <= b < decodeBsz ==> dlmBatch[b] == -1
      ensures forall r :: r in reqState ==> r in old(reqState) || !NotIn(rows, r)
    {
      drafts := seq(|rows|, _ => []);
      var i := 0;
      while i < |rows|
        invariant i <= |rows| && Valid() && |drafts| == |rows|
        invariant forall k :: 0 <= k < i ==> RowReady(old(reqState), rows[k], targetHidden[k], commit, k, drafts[k])
        invariant forall k :: i <= k < |rows| ==> StateOf(reqState, rows[k].req) == StateOf(old(reqState), rows[k].req)
        invariant forall b :: i <= b < decodeBsz ==> dlmBatch[b] == -1
        invariant forall r :: r in reqState ==> r in old(reqState) || !NotIn(rows, r)
      {
        assert StateOf(reqState, rows[i].req).counter >= 0;
        var draft := FillRow(i, rows[i], targetHidden[i], commit);
        drafts := drafts[i := draft];
        i := i + 1;
      }
    }

    method FillRow(i: nat, row: ReqRow, hidden: seq<Hidden>, commit: bool) returns (draft: seq<int>)
      requires Valid() && i < decodeBsz && |row.sampled| <= blockSize <= |hidden| && dlmBatch[i] == -1
      modifies this`reqState, this`dlmTarget, this`dlmHidden, this`dlmBatch
      ensures Valid()
      ensures RowReady(old(reqState), row, hidden, commit, i, draft)
      ensures forall r :: r != row.req ==> StateOf(reqState, r) == StateOf(old(reqState), r) && (r in reqState <==> r in old(reqState))
      ensures forall b :: 0 <= b < decodeBsz && b != i ==>
        dlmTarget[b] == old(dlmTarget)[b] && dlmHidden[b] == old(dlmHidden)[b] && dlmBatch[b] == old(dlmBatch)[b]
    {
      draft := [];
      if row.Active() {
        var st := StateOf(reqState, row.req);
        if st.fromPrefill && commit {
          draft := Tail(st.candidates);
        } else {
          dlmTarget := dlmTarget[i := TargetRow(st.counter, |row.sampled|, blockSize)];
          dlmHidden := dlmHidden[i := hidden[..blockSize]];
          dlmBatch := dlmBatch[i := row.slot];
        }
        reqState := reqState[row.req := NextState(st, row, commit)];
      }
    }

    /** After a committed call, the candidates and drafts of the rows that ran. */
    method CommitRows(rows: seq<ReqRow>, candidates: seq<seq<int>>, served: seq<seq<int>>, ghost targetHidden: seq<seq<Hidden>>,
                      ghost states: map<nat, ReqState>) returns (drafts: seq<seq<int>>)
      requires Valid() && |rows| <= decodeBsz == |candidates| && |served| == |rows| <= |targetHidden|
      requires forall i, j :: 0 <= i < j < |rows| ==> rows[i].req != rows[j].req
      requires forall b :: 0 <= b < decodeBsz ==> candidates[b] == Output(b)
      requires forall i :: 0 <= i < |rows| ==> |targetHidden[i]| >= blockSize && RowReady(states, rows[i], targetHidden[i], true, i, served[i])
      modifies this`reqState
      ensures Valid() && |drafts| == |rows|
      ensures forall i :: 0 <= i < |rows| ==> Committed(states, rows[i], i, drafts[i])
      ensures forall r :: r in reqState ==> r in old(reqState) || !NotIn(rows, r)
    {
      drafts := served;
      var i := 0;
      while i < |rows|
        invariant i <= |rows| && Valid() && |drafts| == |rows|
        invariant forall k :: 0 <= k < i ==> Committed(states, rows[k], k, drafts[k])
        invariant forall k :: i <= k < |rows| ==> RowReady(states, rows[k], targetHidden[k], true, k, drafts[k])
        invariant forall r :: r in reqState ==> r in old(reqState) || !NotIn(rows, r)
      {
        var draft := CommitRow(i, rows[i], candidates[i], drafts[i], targetHidden[i], states);
        drafts := drafts[i := draft];
        i := i + 1;
      }
    }

    /** Row i's request has its final state and draft. */
    ghost predicate Committed(states: map<nat, ReqState>, row: ReqRow, i: nat, draft: seq<int>)
      reads this
    {
      && StateOf(reqState, row.req) == StateAfter(StateOf(states, row.req), row, true, Output(i))
      && draft == DraftOf(StateOf(states, row.req), row, true, Output(i))
    }

    method CommitRow(i: nat, row: ReqRow, candidates: seq<int>, served: seq<int>, ghost hidden: seq<Hidden>, ghost states: map<nat, ReqState>)
      returns (draft: seq<int>)
      requires Valid() && i < decodeBsz && |hidden| >= blockSize && candidates == Output(i)
      requires RowReady(states, row, hidden, true, i, served)
      modifies this`reqState
      ensures Valid()
      ensures Committed(states, row, i, draft)
      ensures forall r :: r != row.req ==> StateOf(reqState, r) == StateOf(old(reqState), r) && (r in reqState <==> r in old(reqState))
    {
      draft := served;
      if dlmBatch[i] != -1 {
        var st := StateOf(reqState, row.req);
        reqState := reqState[row.req := st.(candidates := candidates)];
        draft := Tail(candidates);
      }
    }

    /** Row i of the inputs after FillRows. */
    ghost predicate RowFilled(st: ReqState, row: ReqRow, hidden: seq<Hidden>, commit: bool, i: nat)
      requires Valid() && i < decodeBsz && |hidden| >= blockSize
      reads this
    {
      InputRow(st, row, hidden[..blockSize], commit, dlmBatch[i], dlmTarget[i], dlmHidden[i])
    }
  }

  function StateOf(states: map<nat, ReqState>, req: nat): ReqState {
    if req in states then states[req] else ReqState([], 0, false)
  }

  /** The request takes part in the device call. */
  predicate Runs(st: ReqState, row: ReqRow, commit: bool) {
    row.Active() && !(st.fromPrefill && commit)
  }

  /** A row's batch index, target positions and hidden rows: those of a running request, or inactive. */
  ghost predicate InputRow(st: ReqState, row: ReqRow, hidden: seq<Hidden>, commit: bool, batch: int, target: seq<int>, rowHidden: seq<Hidden>) {
    if Runs(st, row, commit) then batch == row.slot && target == TargetRow(st.counter, |row.sampled|, |hidden|) && rowHidden == hidden
    else batch == -1
  }

  /** The state and the served draft of a row that has been filled. */
  ghost predicate Served(st: ReqState, st': ReqState, row: ReqRow, commit: bool, draft: seq<int>) {
    st' == NextState(st, row, commit) && draft == if row.Active() && st.fromPrefill && commit then Tail(st.candidates) else []
  }

  function NextState(st: ReqState, row: ReqRow, commit: bool): ReqState {
    if !row.Active() then st
    else if st.fromPrefill && commit then st.(fromPrefill := false)
    else ReqState(if st.fromPrefill then [] else st.candidates, st.counter + |row.sampled|, false)
  }

  /** A request's state after a propose call whose output for its row is `output`. */
  function StateAfter(st: ReqState, row: ReqRow, commit: bool, output: seq<int>): ReqState {
    if Runs(st, row, commit) && commit then NextState(st, row, commit).(candidates := output) else NextState(st, row, commit)
  }

  /** The drafts a propose call returns for one row. */
  function DraftOf(st: ReqState, row: ReqRow, commit: bool, output: seq<int>): seq<int> {
    if !row.Active() || !commit then [] else if st.fromPrefill then Tail(st.candidates) else Tail(output)
  }

  /**
   A request past its prompt that got tokens in a committed step gets drafts: all candidates but the first, of its
   finished prefill if they have not been served yet, else of this call.  Any other row gets none.
   */
  ghost predicate Drafted(st: ReqState, row: ReqRow, commit: bool, output: seq<int>, drafts: seq<int>) {
    if commit && row.numTokens > row.promptLen && |row.sampled| > 0 then
      var candidates := if st.fromPrefill then st.candidates else output;
      && |drafts| == (if |candidates| > 0 then |candidates| - 1 else 0)
      && forall j :: 0 <= j < |drafts| ==> drafts[j] == candidates[j + 1]
    else |drafts| == 0
  }

  lemma DraftMeaning(st: ReqState, row: ReqRow, commit: bool, output: seq<int>)
    ensures Drafted(st, row, commit, output, DraftOf(st, row, commit, output))
  {
  }

  /**
   What a step leaves of a request's state.  Past its prompt and with tokens it is no longer waiting to serve its
   prefill's drafts; unless it just served them, its counter moves on by its tokens, and its candidates are this
   call's if the step is committed, and otherwise dropped if they were its prefill's.
   */
  ghost predicate Advances(st: ReqState, row: ReqRow, commit: bool, output: seq<int>, st': ReqState) {
    if !(row.numTokens > row.promptLen && |row.sampled| > 0) then st' == st
    else
      && !st'.fromPrefill
      && st'.counter == (if st.fromPrefill && commit then st.counter else st.counter + |row.sampled|)
      && st'.candidates == if commit then (if st.fromPrefill then st.candidates else output) else if st.fromPrefill then [] else st.candidates
  }

  lemma StateMeaning(st: ReqState, row: ReqRow, commit: bool, output: seq<int>)
    ensures Advances(st, row, commit, output, StateAfter(st, row, commit, output))
  {
  }

  /** A row's inputs: its slot, the positions after its counter padded with -1, and its hidden rows; or no slot. */
  ghost predicate Inputs(st: ReqState, row: ReqRow, commit: bool, batch: int, target: seq<int>, hidden: seq<Hidden>, targetHidden: seq<Hidden>)
    requires |target| == |hidden| <= |targetHidden|
  {
    if row.numTokens > row.promptLen && |row.sampled| > 0 && !(st.fromPrefill && commit) then
      && batch == row.slot
      && (forall j :: 0 <= j < |target| ==> target[j] == if j < |row.sampled| then st.counter + 1 + j else -1)
      && forall j :: 0 <= j < |hidden| ==> hidden[j] == targetHidden[j]
    else batch == -1
  }

  lemma InputMeaning(st: ReqState, row: ReqRow, commit: bool, batch: int, target: seq<int>, hidden: seq<Hidden>, targetHidden: seq<Hidden>, w: nat)
    requires |target| == |hidden| == w <= |targetHidden| && InputRow(st, row, targetHidden[..w], commit, batch, target, hidden)
    ensures Inputs(st, row, commit, batch, target, hidden, targetHidden)
  {
  }

  /** The drafts of a prefill are served by the first committed call, and by no later one. */
  lemma ServedOnce(st: ReqState, first: ReqRow, second: ReqRow, output: seq<int>, next: seq<int>)
    requires st.fromPrefill && first.Active() && second.Active()
    ensures Drafted(st, first, true, st.candidates, DraftOf(st, first, true, output))
    ensures Drafted(st.(fromPrefill := false), second, true, next, DraftOf(StateAfter(st, first, true, output), second, true, next))
    ensures forall commit :: !StateAfter(StateAfter(st, first, true, output), second, commit, next).fromPrefill
  {
  }

  ghost predicate NotIn(rows: seq<ReqRow>, r: nat) {
    forall i :: 0 <= i < |rows| ==> rows[i].req != r
  }

  function ViewFrom(st: ReqState, fed: seq<Feed>): View { View(st.counter, st.fromPrefill, fed) }

  lemma ViewAfterRow(st: ReqState, fed: seq<Feed>, st': ReqState, fed': seq<Feed>, row: ReqRow, hidden: seq<Hidden>, commit: bool,
                     output: seq<int>)
    requires |row.sampled| <= |hidden|
    requires st' == StateAfter(st, row, commit, output) && fed' == fed + RowLog(st, row, hidden, commit)
    ensures ViewFrom(st', fed') == AfterRow(row, ViewFrom(st, fed), hidden, commit)
  {
    assert fed + [] == fed;
  }

  /** The accepted positions after the counter, then padding. */
  function TargetRow(counter: int, adv: nat, blockSize: nat): (target: seq<int>)
    ensures |target| == blockSize
  {
    seq(blockSize, j => if j < adv then counter + 1 + j else -1)
  }

  function Tail(candidates: seq<int>): seq<int> { if candidates == [] then [] else candidates[1..] }

  /** What a propose call feeds for one row. */
  function RowLog(st: ReqState, row: ReqRow, hidden: seq<Hidden>, commit: bool): seq<Feed>
    requires |row.sampled| <= |hidden|
  {
    if Runs(st, row, commit) then seq(|row.sampled|, j requires 0 <= j < |row.sampled| => Feed(st.counter + 1 + j, hidden[j])) else []
  }

  /** The view of a request after its work item, whose positions run from `from`. */
  function AfterItem(item: WorkItem, v: View, from: nat): View {
    Prefilled(item.req, v, from, |item.positions|, !item.partial)
  }

  /** The view of a request after a propose call on its row. */
  function AfterRow(row: ReqRow, v: View, hidden: seq<Hidden>, commit: bool): View
    requires |row.sampled| <= |hidden|
  {
    if row.Active() then Advanced(v, hidden, |row.sampled|, commit) else v
  }

  /** A work item with its own buffers whose n >= 1 positions run from `from`. */
  ghost predicate ItemReady(item: WorkItem, from: nat, prefillLen: nat)
    requires prefillLen > 0
  {
    && |item.positions| > 0
    && (forall t :: 0 <= t < |item.positions| ==> item.positions[t] == from + t)
    && RequestBuffersOk(item.req, item.positions, item.hidden, prefillLen)
  }

  /** The items that the proposer makes of the filled prefill buffers are ready when their positions are consecutive. */
  lemma ItemOkIsReady(reqs: seq<nat>, slots: seq<nat>, positions: seq<int>, cum: seq<nat>, isPartial: seq<bool>, item: WorkItem,
                      i: nat, from: nat, prefillLen: nat)
    requires prefillLen > 0 && |reqs| == |slots| == |isPartial| == |cum| && Cumulative(cum, |positions|) && i < |cum|
    requires ItemOk(reqs, slots, positions, cum, isPartial, item, i, prefillLen)
    requires Start(cum, i) < cum[i] <= |positions|
    requires forall t :: Start(cum, i) <= t < cum[i] ==> positions[t] == from + t - Start(cum, i)
    ensures ItemReady(item, from, prefillLen)
  {
    assert item.positions == positions[Start(cum, i)..cum[i]];
  }

  // ----- one engine step of one request -----

  ghost predicate NoItem(items: seq<WorkItem>, req: nat) {
    forall k :: 0 <= k < |items| ==> items[k].req != req
  }

  lemma OneMoreItem(items: seq<WorkItem>, froms: seq<nat>, i: nat, req: nat, v: View, v': View, v'': View)
    requires i < |items| == |froms| && forall k, l :: 0 <= k < l < |items| ==> items[k].req != items[l].req
    requires AfterItems(items[..i], froms[..i], req, v, v')
    requires v'' == if req == items[i].req then AfterItem(items[i], v', froms[i]) else v'
    ensures AfterItems(items[..i + 1], froms[..i + 1], req, v, v'')
  {
    if NoItem(items[..i + 1], req) {
      assert items[..i + 1][i] == items[i];
      assert forall k :: 0 <= k < i ==> items[..i][k] == items[..i + 1][k];
    }
  }

  /** Item k prefills the n positions of the request that follow the ones already computed. */
  ghost predicate ItemFor(items: seq<WorkItem>, froms: seq<nat>, k: nat, req: nat, from: nat, n: nat, partial: bool) {
    && k < |items| == |froms|
    && items[k].req == req && froms[k] == from && |items[k].positions| == n && items[k].partial == partial
  }

  /** Work item and batch row of a request are those of its event, or of no event at all. */
  ghost predicate Enacts(items: seq<WorkItem>, froms: seq<nat>, row: ReqRow, hidden: seq<Hidden>, commit: bool, p: Progress, e: Option<Event>) {
    WellFormed(e) &&
    match e
    case None => NoItem(items, row.req) && !row.Active()
    case Some(Partial(n)) => p.Prefilling? && !row.Active() && exists k :: ItemFor(items, froms, k, row.req, p.computed, n, true)
    case Some(Final(n, c, h)) =>
      && p.Prefilling? && row.Active() && |row.sampled| == 1 && c == commit && h == hidden
      && exists k :: ItemFor(items, froms, k, row.req, p.computed, n, false)
    case Some(Decode(adv, c, h)) => NoItem(items, row.req) && row.Active() && |row.sampled| == adv && c == commit && h == hidden
  }

  /** The event is one the engine can send, and a final prefill is proposed with the gate open. */
  ghost predicate MayHappen(req: nat, p: Progress, e: Option<Event>) {
    e.Some? ==> Legal(req, p, e.value) && (e.value.Final? ==> e.value.commit)
  }

  ghost predicate WellFormed(e: Option<Event>) {
    e.Some? ==> (e.value.Final? ==> |e.value.hidden| > 0) && (e.value.Decode? ==> e.value.adv <= |e.value.hidden|)
  }

  ghost function AfterEvent(req: nat, p: Progress, v: View, e: Option<Event>): View {
    if e.None? || !WellFormed(e) then v else Apply(req, p, v, e.value)
  }

  ghost function ProgressAfter(p: Progress, e: Option<Event>): Progress {
    if e.None? then p else After(p, e.value)
  }

  /** A request that is in step with its feeds before a legal event is so after it. */
  ghost predicate StaysInStep(req: nat, p: Progress, v: View, e: Option<Event>, v': View) {
    InStep(req, p, v) && MayHappen(req, p, e) ==> InStep(req, ProgressAfter(p, e), v')
  }

  lemma EventStays(req: nat, p: Progress, v: View, e: Option<Event>)
    requires WellFormed(e)
    ensures StaysInStep(req, p, v, e, AfterEvent(req, p, v, e))
  {
    if e.Some? && InStep(req, p, v) && MayHappen(req, p, e) {
      EventKeepsStep(req, p, v, e.value);
    }
  }

  /** A request that has followed life t follows it on with a legal event, and is in step if all its final prefills were committed. */
  ghost predicate LivesOn(req: nat, t: Trace, p: Progress, v: View, e: Option<Event>, v': View) {
    Follows(req, t, p, v) && (e.Some? ==> Legal(req, p, e.value)) ==>
      && Follows(req, LifeAfter(t, p, e, v'), ProgressAfter(p, e), v')
      && (CommittedSoFar(LifeAfter(t, p, e, v').events, |LifeAfter(t, p, e, v').events|) ==> InStep(req, ProgressAfter(p, e), v'))
  }

  function LifeAfter(t: Trace, p: Progress, e: Option<Event>, v': View): Trace {
    if e.None? then t else Longer(t, e.value, After(p, e.value), v')
  }

  lemma EventLivesOn(req: nat, t: Trace, p: Progress, v: View, e: Option<Event>)
    requires WellFormed(e)
    ensures LivesOn(req, t, p, v, e, AfterEvent(req, p, v, e))
  {
    if Follows(req, t, p, v) && (e.Some? ==> Legal(req, p, e.value)) {
      var v' := AfterEvent(req, p, v, e);
      var t' := LifeAfter(t, p, e, v');
      if e.Some? {
        LifeGoesOn(req, t, p, v, e.value);
      }
      if CommittedSoFar(t'.events, |t'.events|) {
        LifeStaysInStep(req, t'.events, t'.ps, t'.vs, |t'.events|);
      }
    }
  }

  lemma EventCarries(req: nat, t: Trace, p: Progress, v: View, e: Option<Event>)
    requires WellFormed(e)
    ensures StaysInStep(req, p, v, e, AfterEvent(req, p, v, e)) && LivesOn(req, t, p, v, e, AfterEvent(req, p, v, e))
  {
    EventStays(req, p, v, e);
    EventLivesOn(req, t, p, v, e);
  }

  /** What draining the items does to one request's view. */
  ghost predicate AfterItems(items: seq<WorkItem>, froms: seq<nat>, req: nat, v: View, v': View) {
    && |froms| == |items|
    && (forall k :: 0 <= k < |items| && items[k].req == req ==> v' == AfterItem(items[k], v, froms[k]))
    && (NoItem(items, req) ==> v' == v)
  }

  /** Draining the items and then proposing is the event of the request. */
  lemma EventEnacted(items: seq<WorkItem>, froms: seq<nat>, row: ReqRow, hidden: seq<Hidden>, commit: bool, p: Progress, e: Option<Event>,
                     v: View, v': View)
    requires |row.sampled| <= |hidden| && Enacts(items, froms, row, hidden, commit, p, e) && AfterItems(items, froms, row.req, v, v')
    ensures AfterRow(row, v', hidden, commit) == AfterEvent(row.req, p, v, e)
  {
  }

  /** Positions start .. start + w of the padded row. */
  function PaddedPositions(positions: seq<int>, start: nat, w: nat): (target: seq<int>)
    ensures |target| == w
  {
    seq(w, j requires 0 <= j < w => if start + j < |positions| then positions[start + j] else -1)
  }

  /** The hidden rows of the sub-block at `start`, all taken from one chunk buffer. */
  function HiddenSubBlock(item: WorkItem, start: nat, w: nat, prefillLen: nat): (h: seq<Hidden>)
    requires prefillLen > 0 && start / prefillLen < |item.hidden|
    requires start % prefillLen + w <= |item.hidden[start / prefillLen]|
    ensures |h| == w
  {
    var chunkOf := start / prefillLen;
    var within := start - chunkOf * prefillLen;
    item.hidden[chunkOf][within..within + w]
  }

  /** A sub-block inside one chunk pairs each position with the hidden row of that position. */
  lemma SubBlockRows(item: WorkItem, from: nat, prefillLen: nat, start: nat, w: nat)
    requires prefillLen > 0 && ItemReady(item, from, prefillLen) && start < |item.positions|
    requires start / prefillLen < |item.hidden| && start % prefillLen + w <= prefillLen
    ensures |item.hidden[start / prefillLen]| == prefillLen
    ensures var m := MinNat(w, |item.positions| - start);
            var hidden := HiddenSubBlock(item, start, w, prefillLen);
            var target := PaddedPositions(item.positions, start, w);
            && (forall j :: 0 <= j < w ==> (target[j] == -1 <==> j >= m))
            && seq(m, j requires 0 <= j < m => Feed(target[j], hidden[j])) == Rows(item.req, from + start, m)
  {
    assert BufferOk(item.req, item.positions, start / prefillLen, item.hidden[start / prefillLen], prefillLen);
    var m := MinNat(w, |item.positions| - start);
    forall j | 0 <= j < m
      ensures HiddenSubBlock(item, start, w, prefillLen)[j] == HiddenOf(item.req, from + start + j)
    {
      SubBlockRow(item, from, prefillLen, start, w, j);
    }
  }

  lemma SubBlockRow(item: WorkItem, from: nat, prefillLen: nat, start: nat, w: nat, j: nat)
    requires prefillLen > 0 && ItemReady(item, from, prefillLen) && start + j < |item.positions| && j < w
    requires start / prefillLen < |item.hidden| && start % prefillLen + w <= prefillLen == |item.hidden[start / prefillLen]|
    ensures HiddenSubBlock(item, start, w, prefillLen)[j] == HiddenOf(item.req, from + start + j)
  {
    var c := start / prefillLen;
    assert start == prefillLen * c + start % prefillLen;
    assert BufferOk(item.req, item.positions, c, item.hidden[c], prefillLen);
    var within := start - c * prefillLen;
    BufferRow(item.req, item.positions, c, item.hidden[c], prefillLen, within + j);
    assert c * prefillLen + (within + j) == start + j;
  }

  lemma BufferRow(req: nat, positions: seq<int>, c: nat, buffer: seq<Hidden>, prefillLen: nat, w: nat)
    requires BufferOk(req, positions, c, buffer, prefillLen) && w < prefillLen && 0 <= c * prefillLen + w < |positions|
    ensures buffer[w] == HiddenOf(req, positions[c * prefillLen + w])
  {
  }

  lemma EarlierSubBlock(s: nat, count: nat, w: nat)
    requires s < count
    ensures s * w <= (count - 1) * w
  {
    MulLe(s, count - 1, w);
  }

  lemma LastSubBlock(n: nat, w: nat)
    requires w > 0 && n > 0
    ensures ((n - 1) / w) * w < n <= ((n - 1) / w) * w + w
    ensures (n - 1) / w > 0 ==> ((n - 1) / w - 1) * w < n
  {
    var q := (n - 1) / w;
    assert n - 1 == w * q + (n - 1) % w;
    assert (q - 1) * w == q * w - w;
  }

  /** A sub-block never straddles two chunk buffers, because the block size divides the chunk length. */
  lemma SubBlockInChunk(n: nat, s: nat, w: nat, prefillLen: nat)
    requires w > 0 && prefillLen > 0 && prefillLen % w == 0 && s * w < n
    ensures s * w / prefillLen < CeilDiv(n, prefillLen) && s * w % prefillLen + w <= prefillLen
  {
    DivUnique(s * w, w, s, 0);
    ChunkOfToken(n, s * w, prefillLen);
    BlockInOne(s * w, w, prefillLen);
  }

  lemma BlockInOne(a: nat, w: nat, prefillLen: nat)
    requires w > 0 && prefillLen > 0 && prefillLen % w == 0 && a % w == 0
    ensures a % prefillLen + w <= prefillLen
  {
    var c := a / prefillLen;
    assert a == prefillLen * c + a % prefillLen;
    var e := prefillLen / w;
    assert prefillLen == w * e;
    var start := prefillLen * c;
    assert start == w * (e * c);
    DivUnique(start, w, e * c, 0);
    var end := start + prefillLen;
    assert end == w * (e * c + e);
    DivUnique(end, w, e * c + e, 0);
    BlockFits(a, w, end);
  }
}
