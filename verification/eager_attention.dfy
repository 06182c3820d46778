/** The eager attention layer with its dictionary of per-request buffers. */
module EagerAttention {
  import opened ArrayOps
  import opened KvHistory

  /** A request's buffer and how many of its places are in use. */
  datatype Entry<Kv> = Entry(kv: array<Kv>, cached: nat)

  class Layer<Q, Kv(0), O> {
    const attend: (Q, seq<Kv>) -> O
    const maxLen: nat
    /** The layer reads another layer's keys and brings none itself. */
    const sharing: bool
    var kvCache: map<nat, Entry<Kv>>
    var prevReqIds: set<nat>

    constructor (attend: (Q, seq<Kv>) -> O, maxLen: nat, sharing: bool)
      ensures Valid() && View() == map[] && this.attend == attend && this.maxLen == maxLen && this.sharing == sharing
      ensures Buffers() == {}
    {
      this.attend, this.maxLen, this.sharing := attend, maxLen, sharing;
      kvCache, prevReqIds := map[], {};
    }

    ghost function Buffers(): set<array<Kv>>
      reads this
    {
      set r | r in kvCache :: kvCache[r].kv
    }

    ghost predicate Valid()
      reads this, Buffers()
    {
      && (forall r :: r in kvCache ==> kvCache[r].cached <= kvCache[r].kv.Length == maxLen)
      && (forall r, s :: r in kvCache && s in kvCache && r != s ==> kvCache[r].kv != kvCache[s].kv)
      && kvCache.Keys <= prevReqIds
      && (sharing ==> kvCache == map[])
    }

    /** The keys in use, per request. */
    ghost function View(): map<nat, seq<Kv>>
      requires Valid()
      reads this, Buffers()
    {
      map r | r in kvCache :: kvCache[r].kv[..kvCache[r].cached]
    }

    /** Drops the entries of requests that have left the batch. */
    method Evict(reqIds: seq<nat>)
      requires Valid()
      modifies this`kvCache, this`prevReqIds
      ensures Valid() && (forall r :: r in prevReqIds <==> r in reqIds) && Buffers() <= old(Buffers())
      ensures View() == Evicted(old(View()), reqIds)
    {
      var current := set r | r in reqIds;
      var gone := prevReqIds - current;
      kvCache := map r | r in kvCache && r !in gone :: kvCache[r];
      prevReqIds := current;
    }

    /** The request's buffer, a new one on its first step, and how many of its places are in use. */
    method BufferOf(r: nat) returns (kv: array<Kv>, cached: nat)
      requires Valid()
      ensures kv.Length == maxLen && cached <= maxLen && kv[..cached] == Lookup(old(View()), r)
      ensures (kv in Buffers() || fresh(kv)) && forall s :: s in kvCache && s != r ==> kvCache[s].kv != kv
      ensures Valid() && Except(old(View()), r)
    {
      if r !in kvCache {
        kv := new Kv[maxLen];
        cached := 0;
      } else {
        kv, cached := kvCache[r].kv, kvCache[r].cached;
      }
    }

    /** Entries other than r's are those of `before`. */
    ghost predicate Except(before: map<nat, seq<Kv>>, r: nat)
      requires Valid()
      reads this, Buffers()
    {
      && (forall s :: s in kvCache && s != r ==> s in before && kvCache[s].kv[..kvCache[s].cached] == before[s])
      && forall s :: s in before && s != r ==> s in kvCache
    }

    /** Overwrites part of one buffer. */
    method Write(r: nat, kv: array<Kv>, at: nat, keys: seq<Kv>, ghost before: map<nat, seq<Kv>>)
      requires Valid() && Except(before, r) && at + |keys| <= kv.Length
      requires forall s :: s in kvCache && s != r ==> kvCache[s].kv != kv
      modifies kv
      ensures Valid() && Except(before, r) && kv[..at + |keys|] == old(kv[..at]) + keys
    {
      forall j | 0 <= j < |keys| {
        kv[at + j] := keys[j];
      }
      forall s | s in kvCache && s != r
        ensures kvCache[s].kv[..kvCache[s].cached] == before[s]
      {
        assert kvCache[s].kv[..kvCache[s].cached] == old(kvCache[s].kv[..kvCache[s].cached]);
      }
    }

    method Put(r: nat, kv: array<Kv>, cached: nat, ghost before: map<nat, seq<Kv>>)
      requires Valid() && Except(before, r) && !sharing && r in prevReqIds && cached <= kv.Length == maxLen
      requires forall s :: s in kvCache && s != r ==> kvCache[s].kv != kv
      modifies this`kvCache
      ensures Valid() && View() == before[r := kv[..cached]] && Buffers() <= old(Buffers()) + {kv}
    {
      kvCache := kvCache[r := Entry(kv, cached)];
    }

    /** Writes a request's new keys behind the ones it has, or from the start for a whole context. */
    method Store(r: nat, keys: seq<Kv>, seqLen: nat)
      requires Valid() && !sharing && r in prevReqIds
      requires |Stored(Lookup(View(), r), keys, seqLen)| <= maxLen
      modifies this`kvCache, Buffers()
      ensures Valid() && View() == old(View())[r := Stored(Lookup(old(View()), r), keys, seqLen)]
      ensures fresh(Buffers() - old(Buffers()))
    {
      ghost var before := View();
      var kv, cached := BufferOf(r);
      if |keys| == seqLen {
        cached := 0;
      }
      Append(r, kv, cached, keys, before);
    }

    /** Writes keys behind the first `at` places of a buffer and makes it the request's entry. */
    method Append(r: nat, kv: array<Kv>, at: nat, keys: seq<Kv>, ghost before: map<nat, seq<Kv>>)
      requires Valid() && Except(before, r) && !sharing && r in prevReqIds && at + |keys| <= kv.Length == maxLen
      requires forall s :: s in kvCache && s != r ==> kvCache[s].kv != kv
      modifies this`kvCache, kv
      ensures Valid() && View() == before[r := old(kv[..at]) + keys] && Buffers() <= old(Buffers()) + {kv}
    {
      Write(r, kv, at, keys, before);
      Put(r, kv, at + |keys|, before);
    }

    /** Rows start .. start + |queries| of the output: each query attends to what the causal mask leaves. */
    method AttendRows(queries: seq<Q>, keys: seq<Kv>, start: nat, output: array<O>)
      requires start + |queries| <= output.Length
      modifies output
      ensures output[start..start + |queries|] == seq(|queries|, k requires 0 <= k < |queries| => attend(queries[k], Seen(keys, |queries|, k)))
      ensures output[..start] == old(output[..start]) && output[start + |queries|..] == old(output[start + |queries|..])
    {
      var k := 0;
      while k < |queries|
        invariant k <= |queries|
        invariant forall i :: 0 <= i < k ==> output[start + i] == attend(queries[i], Seen(keys, |queries|, i))
        invariant output[..start] == old(output[..start]) && output[start + |queries|..] == old(output[start + |queries|..])
      {
        MaskedIsSeen(keys, |queries|, k);
        if |queries| == 1 {
          assert keys[..|keys|] == keys;
          output[start + k] := attend(queries[k], keys);
        } else {
          output[start + k] := Sdpa(attend, queries[k], keys, CausalMask(|queries|, |keys|, k));
        }
        k := k + 1;
      }
    }

    /** The rows of request i, whose keys in the cache are given. */
    method AttendRequest(b: Batch<Q, Kv>, i: nat, keys: seq<Kv>, output: array<O>, ghost view: map<nat, seq<Kv>>, ghost was: seq<O>)
      requires BatchShape(b) && i < |b.reqIds| && b.reqIds[i] in view && view[b.reqIds[i]] == keys
      requires |b.queries| <= output.Length == |was| && output[b.starts[i]..] == was[b.starts[i]..]
      modifies output
      ensures output[b.starts[i + 1]..] == was[b.starts[i + 1]..]
      ensures output[..b.starts[i + 1]] == old(output[..b.starts[i]]) + RowsOf(attend, view, b, i, was)
    {
      var c := ChunkAt(b, i);
      AttendRows(c.queries, keys, b.starts[i], output);
      SliceJoin(output[..], b.starts[i], b.starts[i + 1], old(output[..b.starts[i]]), RowsOf(attend, view, b, i, was));
      assert output[b.starts[i + 1]..] == old(output[b.starts[i]..])[b.starts[i + 1] - b.starts[i]..];
      assert was[b.starts[i]..][b.starts[i + 1] - b.starts[i]..] == was[b.starts[i + 1]..];
    }

    /** One request of a batch: store its keys if the layer brings its own, then attend if it has an entry. */
    method ServeRequest(b: Batch<Q, Kv>, i: nat, own: bool, output: array<O>, ghost was: seq<O>)
      requires Valid() && BatchShape(b) && i < |b.reqIds| && b.reqIds[i] in prevReqIds && (own ==> !sharing)
      requires own ==> |Stored(Lookup(View(), b.reqIds[i]), ChunkAt(b, i).keys, b.seqLens[i])| <= maxLen
      requires |b.queries| <= output.Length == |was| && output[b.starts[i]..] == was[b.starts[i]..]
      requires forall kv :: kv in Buffers() ==> kv as object != output
      modifies this`kvCache, Buffers(), output
      ensures Valid() && View() == StoreOne(old(View()), b, own, i) && fresh(Buffers() - old(Buffers()))
      ensures output[b.starts[i + 1]..] == was[b.starts[i + 1]..]
      ensures output[..b.starts[i + 1]] == old(output[..b.starts[i]]) + RowsOf(attend, View(), b, i, was)
    {
      var c, r := ChunkAt(b, i), b.reqIds[i];
      if own {
        Store(r, c.keys, c.seqLen);
        assert output[..] == old(output[..]);
      }
      AttendIfStored(b, i, output, was);
    }

    /** The attention of one request, if the layer has an entry for it. */
    method AttendIfStored(b: Batch<Q, Kv>, i: nat, output: array<O>, ghost was: seq<O>)
      requires Valid() && BatchShape(b) && i < |b.reqIds|
      requires |b.queries| <= output.Length == |was| && output[b.starts[i]..] == was[b.starts[i]..]
      requires forall kv :: kv in Buffers() ==> kv as object != output
      modifies output
      ensures Valid() && View() == old(View())
      ensures output[b.starts[i + 1]..] == was[b.starts[i + 1]..]
      ensures output[..b.starts[i + 1]] == old(output[..b.starts[i]]) + RowsOf(attend, View(), b, i, was)
    {
      var r := b.reqIds[i];
      ghost var view := View();
      if r in kvCache {
        AttendRequest(b, i, kvCache[r].kv[..kvCache[r].cached], output, view, was);
      } else {
        SkipRequest(b, i, output[..], view, was);
      }
    }

    lemma SkipRequest(b: Batch<Q, Kv>, i: nat, rows: seq<O>, view: map<nat, seq<Kv>>, was: seq<O>)
      requires BatchShape(b) && i < |b.reqIds| && b.reqIds[i] !in view
      requires |b.queries| <= |rows| == |was| && rows[b.starts[i]..] == was[b.starts[i]..]
      ensures b.starts[i] <= b.starts[i + 1] <= |rows| && rows[b.starts[i + 1]..] == was[b.starts[i + 1]..]
      ensures rows[..b.starts[i + 1]] == rows[..b.starts[i]] + RowsOf(attend, view, b, i, was)
    {
      var lo, hi := b.starts[i], b.starts[i + 1];
      assert rows[hi..] == rows[lo..][hi - lo..] && was[hi..] == was[lo..][hi - lo..];
      assert rows[lo..hi] == rows[lo..][..hi - lo] && was[lo..hi] == was[lo..][..hi - lo];
      SliceJoin(rows, lo, hi, rows[..lo], was[lo..hi]);
    }

    /** Request i of a batch, after those before it. */
    method ServeNext(b: Batch<Q, Kv>, i: nat, own: bool, output: array<O>, ghost view: map<nat, seq<Kv>>, ghost was: seq<O>)
      requires Valid() && BatchShape(b) && i < |b.reqIds| && |b.queries| <= output.Length == |was| && (own ==> !sharing && Fits(view, b, maxLen))
      requires View() == StoreUpTo(Evicted(view, b.reqIds), b, own, i) && b.reqIds[i] in prevReqIds
      requires output[..b.starts[i]] == RowsUpTo(attend, Evicted(view, b.reqIds), b, own, i, was) && output[b.starts[i]..] == was[b.starts[i]..]
      requires forall kv :: kv in Buffers() ==> kv as object != output
      modifies this`kvCache, Buffers(), output
      ensures Valid() && View() == StoreUpTo(Evicted(view, b.reqIds), b, own, i + 1) && fresh(Buffers() - old(Buffers()))
      ensures output[..b.starts[i + 1]] == RowsUpTo(attend, Evicted(view, b.reqIds), b, own, i + 1, was)
      ensures output[b.starts[i + 1]..] == was[b.starts[i + 1]..]
    {
      TurnOf(view, b, own, i);
      ServeRequest(b, i, own, output, was);
    }

    /** The loop over the requests of a batch. */
    method ServeAll(b: Batch<Q, Kv>, own: bool, output: array<O>, ghost view: map<nat, seq<Kv>>)
      requires Valid() && BatchShape(b) && |b.queries| <= output.Length && (own ==> !sharing && Fits(view, b, maxLen))
      requires View() == Evicted(view, b.reqIds) && forall r :: r in b.reqIds ==> r in prevReqIds
      requires forall kv :: kv in Buffers() ==> kv as object != output
      modifies this`kvCache, Buffers(), output
      ensures Valid() && View() == StoreUpTo(Evicted(view, b.reqIds), b, own, |b.reqIds|) && fresh(Buffers() - old(Buffers()))
      ensures output[..b.starts[|b.reqIds|]] == RowsUpTo(attend, Evicted(view, b.reqIds), b, own, |b.reqIds|, old(output[..]))
      ensures output[b.starts[|b.reqIds|]..] == old(output[b.starts[|b.reqIds|]..])
    {
      ghost var was := output[..];
      var i := 0;
      while i < |b.reqIds|
        invariant i <= |b.reqIds| && Valid() && View() == StoreUpTo(Evicted(view, b.reqIds), b, own, i)
        invariant fresh(Buffers() - old(Buffers()))
        invariant forall kv :: kv in Buffers() ==> kv as object != output
        invariant output[..b.starts[i]] == RowsUpTo(attend, Evicted(view, b.reqIds), b, own, i, was)
        invariant output[b.starts[i]..] == was[b.starts[i]..]
      {
        ServeNext(b, i, own, output, view, was);
        i := i + 1;
      }
    }

    /**
     `_run_sdpa_decode_forward`: evicts requests that left, then serves the batch request by request.  The
     rows of the output are those of the batch, and a layer that shares keys never has an entry to read.
     */
    method Forward(b: Batch<Q, Kv>, hasKeys: bool, output: array<O>)
      requires Valid() && BatchShape(b) && |b.queries| <= output.Length
      requires !sharing && hasKeys ==> Fits(View(), b, maxLen)
      requires forall kv :: kv in Buffers() ==> kv as object != output
      modifies this`kvCache, this`prevReqIds, Buffers(), output
      ensures Valid() && View() == StoreUpTo(Evicted(old(View()), b.reqIds), b, !sharing && hasKeys, |b.reqIds|)
      ensures !sharing && hasKeys ==> View() == NextView(old(View()), StepOf(b))
      ensures forall r :: r in View() ==> r in b.reqIds
      ensures output[..b.starts[|b.reqIds|]] ==
              RowsUpTo(attend, Evicted(old(View()), b.reqIds), b, !sharing && hasKeys, |b.reqIds|, old(output[..]))
      ensures output[b.starts[|b.reqIds|]..] == old(output[b.starts[|b.reqIds|]..])
      ensures fresh(Buffers() - old(Buffers()))
    {
      ghost var view := View();
      Evict(b.reqIds);
      ServeAll(b, !sharing && hasKeys, output, view);
      BatchIsStep(view, b);
      NoneLeft(view, b, !sharing && hasKeys, |b.reqIds|);
    }

    /** In a layer that shares keys the cache stays empty and the output is left as it was. */
    lemma SharingReadsNothing(b: Batch<Q, Kv>, was: seq<O>)
      requires Valid() && sharing && BatchShape(b) && |b.queries| <= |was|
      ensures StoreUpTo(Evicted(View(), b.reqIds), b, false, |b.reqIds|) == map[]
      ensures RowsUpTo(attend, Evicted(View(), b.reqIds), b, false, |b.reqIds|, was) == was[..b.starts[|b.reqIds|]]
    {
      assert View() == map[] && Evicted<Kv>(map[], b.reqIds) == map[];
      NothingStored(map[], b, |b.reqIds|);
      NoEntriesNoRows(attend, b, |b.reqIds|, was);
    }
  }

  lemma SliceJoin<T>(s: seq<T>, i: nat, j: nat, a: seq<T>, b: seq<T>)
    requires i <= j <= |s| && s[..i] == a && s[i..j] == b
    ensures s[..j] == a + b
  {
    assert s[..j] == s[..i] + s[i..j];
  }

  /** Every request's keys fit the buffer. */
  ghost predicate Fits<Q, Kv>(view: map<nat, seq<Kv>>, b: Batch<Q, Kv>, maxLen: nat)
    requires BatchShape(b)
  {
    forall i :: 0 <= i < |b.reqIds| ==> |Stored(Lookup(view, b.reqIds[i]), ChunkAt(b, i).keys, b.seqLens[i])| <= maxLen
  }
}
