/** Reordering of a batch so that decode requests come first, by swapping rows in place. */
module BatchReorder {
  import opened Arithmetic

  datatype Request = Request(id: nat, computed: nat, prompt: nat, scheduled: nat)

  /** A request whose whole prompt has been computed decodes; the others prefill. */
  predicate IsDecode(r: Request) { r.computed >= r.prompt }

  function DecodeFlags(rows: seq<Request>): (f: seq<bool>)
    ensures |f| == |rows| && forall i :: 0 <= i < |f| ==> f[i] == IsDecode(rows[i])
  {
    seq(|rows|, i requires 0 <= i < |rows| => IsDecode(rows[i]))
  }

  function DecodeTokens(rows: seq<Request>): nat {
    if rows == [] then 0
    else
      var n := |rows| - 1;
      DecodeTokens(rows[..n]) + if IsDecode(rows[n]) then rows[n].scheduled else 0
  }

  /** Decode rows first, each half as large as it has to be. */
  ghost predicate Split(rows: seq<Request>, d: nat) {
    d <= |rows| && forall i :: 0 <= i < |rows| ==> (rows[i].computed >= rows[i].prompt <==> i < d)
  }

  /** Row i is already in the half it belongs to. */
  predicate InPlace(rows: seq<Request>, d: nat, i: nat)
    requires i < |rows|
  {
    (rows[i].computed >= rows[i].prompt) == (i < d)
  }

  /** total is the number of scheduled tokens of the first d rows. */
  ghost predicate Scheduled(rows: seq<Request>, d: nat, total: nat)
    requires d <= |rows|
  {
    exists sums: seq<nat> :: ScheduledSums(rows, d, sums, total)
  }

  ghost predicate ScheduledSums(rows: seq<Request>, d: nat, sums: seq<nat>, total: nat)
    requires d <= |rows|
  {
    && |sums| == d + 1 && sums[0] == 0 && sums[d] == total
    && forall i :: 0 <= i < d ==> sums[i + 1] == sums[i] + rows[i].scheduled
  }

  lemma {:induction false} TokensWithout(rows: seq<Request>, j: nat)
    requires j < |rows|
    ensures DecodeTokens(rows) == DecodeTokens(rows[..j] + rows[j+1..]) + if IsDecode(rows[j]) then rows[j].scheduled else 0
    decreases |rows|
  {
    var n := |rows| - 1;
    if j < n {
      TokensWithout(rows[..n], j);
      var rest := rows[..j] + rows[j+1..];
      assert rows[..n][..j] + rows[..n][j+1..] == rest[..n-1];
      assert rest[n-1] == rows[n];
    } else {
      assert rows[..j] + rows[j+1..] == rows[..n];
    }
  }

  /** The order of the rows does not matter for the number of decode tokens. */
  lemma {:induction false} TokensPermuted(a: seq<Request>, b: seq<Request>)
    requires multiset(a) == multiset(b)
    ensures DecodeTokens(a) == DecodeTokens(b)
    decreases |a|
  {
    if a == [] {
      assert |multiset(b)| == |b|;
    } else {
      var n := |a| - 1;
      var j := PairedWith(a, b);
      TokensPermuted(a[..n], b[..j] + b[j+1..]);
      TokensWithout(b, j);
    }
  }

  /** In a split batch the decode tokens are those of the leading rows. */
  lemma SplitTokens(rows: seq<Request>, d: nat)
    requires Split(rows, d)
    ensures Scheduled(rows, d, DecodeTokens(rows))
  {
    var sums: seq<nat> := seq(d + 1, i requires 0 <= i <= d => DecodeTokens(rows[..i]));
    forall i | 0 <= i < d
      ensures sums[i + 1] == sums[i] + rows[i].scheduled
    {
      assert rows[..i + 1][..i] == rows[..i];
    }
    NoMoreTokens(rows, d, |rows|);
    assert rows[..|rows|] == rows;
    assert ScheduledSums(rows, d, sums, DecodeTokens(rows));
  }

  lemma {:induction false} NoMoreTokens(rows: seq<Request>, d: nat, n: nat)
    requires Split(rows, d) && d <= n <= |rows|
    ensures DecodeTokens(rows[..n]) == DecodeTokens(rows[..d])
    decreases n
  {
    if n > d {
      NoMoreTokens(rows, d, n - 1);
      assert rows[..n][..n - 1] == rows[..n - 1];
    }
  }

  // ----- counting -----

  /** Below d every index is a set one or not a set one. */
  lemma Halves(flags: seq<bool>, d: nat)
    requires d <= |flags|
    ensures |Where(flags[..d])| + |Where(Negated(flags)[..d])| == d
  {
    WhereSplit(flags[..d]);
    assert Negated(flags)[..d] == Negated(flags[..d]);
  }

  /** With d set flags in all: how many unset ones lie below d, which is also how many set ones do not. */
  function Misplaced(flags: seq<bool>): nat {
    WhereSplit(flags);
    |Where(Negated(flags)[..|Where(flags)|])|
  }

  lemma MisplacedBound(flags: seq<bool>)
    ensures Misplaced(flags) <= |Where(flags)| && Misplaced(flags) <= |Where(Negated(flags))|
  {
    WhereSplit(flags);
    Halves(flags, |Where(flags)|);
    WhereShorter(Negated(flags), |Where(flags)|);
  }

  /** The k-th set flag from the left is below d except for the last Misplaced ones. */
  lemma SetSide(flags: seq<bool>, k: nat)
    requires k < |Where(flags)|
    ensures Where(flags)[k] < |Where(flags)| <==> k + Misplaced(flags) < |Where(flags)|
  {
    WhereSplit(flags);
    Halves(flags, |Where(flags)|);
    WhereBelow(flags, |Where(flags)|, k);
  }

  /** The k-th unset flag is below d for the first Misplaced ones. */
  lemma UnsetSide(flags: seq<bool>, k: nat)
    requires k < |Where(Negated(flags))|
    ensures Where(Negated(flags))[k] < |Where(flags)| <==> k < Misplaced(flags)
  {
    WhereSplit(flags);
    WhereBelow(Negated(flags), |Where(flags)|, k);
  }

  /**
   The i-th unset flag from the left lies below d exactly when the i-th set flag from the right does not:
   there are as many of the one kind as of the other.
   */
  lemma MisplacedPairUp(flags: seq<bool>, i: nat)
    requires 0 < i <= |Where(flags)| && i <= |Where(Negated(flags))|
    ensures Where(flags)[|Where(flags)| - i] >= |Where(flags)| <==> Where(Negated(flags))[i - 1] < |Where(flags)|
    ensures Where(flags)[|Where(flags)| - i] >= |Where(flags)| <==> i <= Misplaced(flags)
  {
    SetSide(flags, |Where(flags)| - i);
    UnsetSide(flags, i - 1);
  }

  // ----- swapping -----

  ghost predicate Lists(n: nat, decodes: seq<nat>, prefills: seq<nat>) {
    (forall m :: 0 <= m < |decodes| ==> decodes[m] < n) && forall m :: 0 <= m < |prefills| ==> prefills[m] < n
  }

  ghost predicate Apart(decodes: seq<nat>, prefills: seq<nat>) {
    && Ascending(decodes) && Ascending(prefills)
    && forall i, j :: 0 <= i < |decodes| && 0 <= j < |prefills| ==> decodes[i] != prefills[j]
  }

  function Swap(rows: seq<Request>, i: nat, j: nat): (r: seq<Request>)
    requires i < |rows| && j < |rows|
  {
    rows[i := rows[j]][j := rows[i]]
  }

  /** rows after k swaps: first prefills with last decodes. */
  ghost function SwapAll(rows: seq<Request>, decodes: seq<nat>, prefills: seq<nat>, k: nat): (r: seq<Request>)
    requires Lists(|rows|, decodes, prefills) && k <= |decodes| && k <= |prefills|
    ensures |r| == |rows|
  {
    if k == 0 then rows else Swap(SwapAll(rows, decodes, prefills, k - 1), prefills[k - 1], decodes[|decodes| - k])
  }

  lemma {:induction false} SwapAllSame(rows: seq<Request>, decodes: seq<nat>, prefills: seq<nat>, k: nat, p: nat)
    requires Lists(|rows|, decodes, prefills) && k <= |decodes| && k <= |prefills| && p < |rows|
    requires forall m :: 0 <= m < k ==> prefills[m] != p
    requires forall m :: |decodes| - k <= m < |decodes| ==> decodes[m] != p
    ensures SwapAll(rows, decodes, prefills, k)[p] == rows[p]
  {
    if k > 0 {
      SwapAllSame(rows, decodes, prefills, k - 1, p);
    }
  }

  lemma {:induction false} SwapAllMoved(rows: seq<Request>, decodes: seq<nat>, prefills: seq<nat>, k: nat, m: nat)
    requires Lists(|rows|, decodes, prefills) && Apart(decodes, prefills) && m < k <= |decodes| && k <= |prefills|
    ensures SwapAll(rows, decodes, prefills, k)[prefills[m]] == rows[decodes[|decodes| - 1 - m]]
    ensures SwapAll(rows, decodes, prefills, k)[decodes[|decodes| - 1 - m]] == rows[prefills[m]]
  {
    if m < k - 1 {
      SwapAllMoved(rows, decodes, prefills, k - 1, m);
    } else {
      SwapAllSame(rows, decodes, prefills, m, prefills[m]);
      SwapAllSame(rows, decodes, prefills, m, decodes[|decodes| - 1 - m]);
    }
  }

  lemma ListsOf(rows: seq<Request>)
    ensures Lists(|rows|, Where(DecodeFlags(rows)), Where(Negated(DecodeFlags(rows))))
  {
  }

  lemma ApartOf(rows: seq<Request>)
    ensures Apart(Where(DecodeFlags(rows)), Where(Negated(DecodeFlags(rows))))
  {
    var flags := DecodeFlags(rows);
    var decodes, prefills := Where(flags), Where(Negated(flags));
    WhereAscends(flags);
    WhereAscends(Negated(flags));
    forall i, j | 0 <= i < |decodes| && 0 <= j < |prefills|
      ensures decodes[i] != prefills[j]
    {
      assert flags[decodes[i]] && !flags[prefills[j]];
    }
  }

  /** What the swap loop computes. */
  ghost function Reordered(rows: seq<Request>): (r: seq<Request>)
    ensures |r| == |rows|
  {
    ListsOf(rows);
    MisplacedBound(DecodeFlags(rows));
    SwapAll(rows, Where(DecodeFlags(rows)), Where(Negated(DecodeFlags(rows))), Misplaced(DecodeFlags(rows)))
  }

  lemma DecodeRow(rows: seq<Request>, k: nat)
    requires k < |Where(DecodeFlags(rows))|
    ensures var p := Where(DecodeFlags(rows))[k];
            && p < |rows| && IsDecode(rows[p])
            && if p < |Where(DecodeFlags(rows))| then Reordered(rows)[p] == rows[p] else !IsDecode(Reordered(rows)[p])
  {
    var flags := DecodeFlags(rows);
    var decodes, prefills, m := Where(flags), Where(Negated(flags)), Misplaced(flags);
    ListsOf(rows);
    ApartOf(rows);
    MisplacedBound(flags);
    SetSide(flags, k);
    assert flags[decodes[k]];
    if k + m < |decodes| {
      SwapAllSame(rows, decodes, prefills, m, decodes[k]);
    } else {
      SwapAllMoved(rows, decodes, prefills, m, |decodes| - 1 - k);
      assert Negated(flags)[prefills[|decodes| - 1 - k]];
    }
  }

  lemma PrefillRow(rows: seq<Request>, k: nat)
    requires k < |Where(Negated(DecodeFlags(rows)))|
    ensures var p := Where(Negated(DecodeFlags(rows)))[k];
            && p < |rows| && !IsDecode(rows[p])
            && if p < |Where(DecodeFlags(rows))| then IsDecode(Reordered(rows)[p]) else Reordered(rows)[p] == rows[p]
  {
    var flags := DecodeFlags(rows);
    var decodes, prefills, m := Where(flags), Where(Negated(flags)), Misplaced(flags);
    ListsOf(rows);
    ApartOf(rows);
    MisplacedBound(flags);
    UnsetSide(flags, k);
    assert Negated(flags)[prefills[k]];
    if k >= m {
      SwapAllSame(rows, decodes, prefills, m, prefills[k]);
    } else {
      SwapAllMoved(rows, decodes, prefills, m, k);
      assert flags[decodes[|decodes| - 1 - k]];
    }
  }

  lemma RowSplit(rows: seq<Request>, p: nat)
    requires p < |rows|
    ensures IsDecode(Reordered(rows)[p]) <==> p < |Where(DecodeFlags(rows))|
    ensures InPlace(rows, |Where(DecodeFlags(rows))|, p) ==> Reordered(rows)[p] == rows[p]
  {
    var flags := DecodeFlags(rows);
    if flags[p] {
      var k := WhereHas(flags, p);
      DecodeRow(rows, k);
    } else {
      var k := WhereHas(Negated(flags), p);
      PrefillRow(rows, k);
    }
  }

  /** The swaps split the batch, and rows already in place do not move. */
  lemma ReorderedIsSplit(rows: seq<Request>)
    ensures |Where(DecodeFlags(rows))| <= |rows| && Split(Reordered(rows), |Where(DecodeFlags(rows))|)
    ensures forall p :: 0 <= p < |rows| && InPlace(rows, |Where(DecodeFlags(rows))|, p) ==> Reordered(rows)[p] == rows[p]
  {
    WhereSplit(DecodeFlags(rows));
    forall p | 0 <= p < |rows|
      ensures IsDecode(Reordered(rows)[p]) <==> p < |Where(DecodeFlags(rows))|
      ensures InPlace(rows, |Where(DecodeFlags(rows))|, p) ==> Reordered(rows)[p] == rows[p]
    {
      RowSplit(rows, p);
    }
  }

  lemma SplitIffNone(rows: seq<Request>)
    ensures Split(rows, |Where(DecodeFlags(rows))|) <==> Misplaced(DecodeFlags(rows)) == 0
  {
    var flags := DecodeFlags(rows);
    WhereSplit(flags);
    if Misplaced(flags) == 0 {
      ListsOf(rows);
      ReorderedIsSplit(rows);
      assert Reordered(rows) == rows;
    } else {
      MisplacedBound(flags);
      UnsetSide(flags, 0);
      PrefillRow(rows, 0);
    }
  }

  // ----- the loop -----

  /** The indices of decode and prefill rows, and the tokens of the decode rows. */
  method Classify(rows: seq<Request>) returns (decodes: seq<nat>, prefills: seq<nat>, numDecodeTokens: nat)
    ensures decodes == Where(DecodeFlags(rows)) && prefills == Where(Negated(DecodeFlags(rows)))
    ensures numDecodeTokens == DecodeTokens(rows)
  {
    decodes, prefills, numDecodeTokens := [], [], 0;
    var i := 0;
    while i < |rows|
      invariant i <= |rows| && decodes == Where(DecodeFlags(rows[..i])) && prefills == Where(Negated(DecodeFlags(rows[..i])))
      invariant numDecodeTokens == DecodeTokens(rows[..i])
    {
      OneMore(rows, i);
      if rows[i].computed < rows[i].prompt {
        prefills := prefills + [i];
      } else {
        decodes := decodes + [i];
        numDecodeTokens := numDecodeTokens + rows[i].scheduled;
      }
      i := i + 1;
    }
    assert rows[..i] == rows;
  }

  lemma OneMore(rows: seq<Request>, i: nat)
    requires i < |rows|
    ensures Where(DecodeFlags(rows[..i + 1])) == Where(DecodeFlags(rows[..i])) + if IsDecode(rows[i]) then [i] else []
    ensures Where(Negated(DecodeFlags(rows[..i + 1]))) == Where(Negated(DecodeFlags(rows[..i]))) + if IsDecode(rows[i]) then [] else [i]
    ensures DecodeTokens(rows[..i + 1]) == DecodeTokens(rows[..i]) + if IsDecode(rows[i]) then rows[i].scheduled else 0
  {
    assert rows[..i + 1][..i] == rows[..i];
    assert DecodeFlags(rows[..i + 1])[..i] == DecodeFlags(rows[..i]);
    assert Negated(DecodeFlags(rows[..i + 1]))[..i] == Negated(DecodeFlags(rows[..i]));
  }

  /** `swap_states`. */
  method SwapStates(batch: array<Request>, i: nat, j: nat)
    requires i < batch.Length && j < batch.Length
    modifies batch
    ensures batch[..] == Swap(old(batch[..]), i, j)
  {
    batch[i], batch[j] := batch[j], batch[i];
    assert batch[..] == Swap(old(batch[..]), i, j);
  }

  /** Exactly the last m listed decodes lie beyond the decode half. */
  ghost predicate LastMisplaced(decodes: seq<nat>, prefills: seq<nat>, m: nat) {
    && m <= |decodes| && m <= |prefills|
    && forall k :: 0 <= k < |decodes| ==> (decodes[k] < |decodes| <==> k + m < |decodes|)
  }

  /** The i-th swap, of the i-th prefill and the i-th decode from the end. */
  method SwapNext(batch: array<Request>, decodes: seq<nat>, prefills: seq<nat>, i: nat, ghost rows: seq<Request>)
    requires |rows| == batch.Length && Lists(|rows|, decodes, prefills) && 1 <= i <= |decodes| && i <= |prefills|
    requires batch[..] == SwapAll(rows, decodes, prefills, i - 1)
    modifies batch
    ensures batch[..] == SwapAll(rows, decodes, prefills, i)
  {
    InBatch(rows, decodes, prefills, i);
    SwapStates(batch, prefills[i - 1], decodes[|decodes| - i]);
  }

  /** The loop with early break makes exactly m swaps. */
  method SwapLoop(batch: array<Request>, decodes: seq<nat>, prefills: seq<nat>, ghost m: nat) returns (modified: bool)
    requires Lists(batch.Length, decodes, prefills) && LastMisplaced(decodes, prefills, m)
    modifies batch
    ensures batch[..] == SwapAll(old(batch[..]), decodes, prefills, m) && multiset(batch[..]) == multiset(old(batch[..]))
    ensures modified <==> m > 0
  {
    ghost var rows := batch[..];
    modified := SwapRounds(batch, decodes, prefills, m);
    SwapAllMultiset(rows, decodes, prefills, m);
  }

  method SwapRounds(batch: array<Request>, decodes: seq<nat>, prefills: seq<nat>, ghost m: nat) returns (modified: bool)
    requires Lists(batch.Length, decodes, prefills) && LastMisplaced(decodes, prefills, m)
    modifies batch
    ensures batch[..] == SwapAll(old(batch[..]), decodes, prefills, m)
    ensures modified <==> m > 0
  {
    ghost var rows := batch[..];
    modified := false;
    var i := 1;
    while i <= |decodes| && i <= |prefills|
      invariant 1 <= i <= m + 1 && (modified <==> i > 1)
      invariant batch[..] == SwapAll(rows, decodes, prefills, i - 1)
    {
      FromTheEnd(decodes, prefills, m, i);
      var decodeIdx := decodes[|decodes| - i];
      if decodeIdx < |decodes| {
        break;
      }
      SwapNext(batch, decodes, prefills, i, rows);
      modified := true;
      i := i + 1;
    }
  }

  lemma FromTheEnd(decodes: seq<nat>, prefills: seq<nat>, m: nat, i: nat)
    requires LastMisplaced(decodes, prefills, m) && 1 <= i <= |decodes|
    ensures decodes[|decodes| - i] < |decodes| <==> i > m
  {
  }

  lemma InBatch(rows: seq<Request>, decodes: seq<nat>, prefills: seq<nat>, i: nat)
    requires Lists(|rows|, decodes, prefills) && 1 <= i <= |decodes| && i <= |prefills|
    ensures prefills[i - 1] < |rows| && decodes[|decodes| - i] < |rows|
    ensures SwapAll(rows, decodes, prefills, i) == Swap(SwapAll(rows, decodes, prefills, i - 1), prefills[i - 1], decodes[|decodes| - i])
  {
  }

  lemma {:induction false} SwapAllMultiset(rows: seq<Request>, decodes: seq<nat>, prefills: seq<nat>, k: nat)
    requires Lists(|rows|, decodes, prefills) && k <= |decodes| && k <= |prefills|
    ensures multiset(SwapAll(rows, decodes, prefills, k)) == multiset(rows)
  {
    if k > 0 {
      SwapAllMultiset(rows, decodes, prefills, k - 1);
      var before := SwapAll(rows, decodes, prefills, k - 1);
      SwapMultiset(before, Swap(before, prefills[k - 1], decodes[|decodes| - k]), prefills[k - 1], decodes[|decodes| - k]);
    }
  }

  lemma MisplacedLast(rows: seq<Request>)
    ensures LastMisplaced(Where(DecodeFlags(rows)), Where(Negated(DecodeFlags(rows))), Misplaced(DecodeFlags(rows)))
  {
    MisplacedBound(DecodeFlags(rows));
    forall k | 0 <= k < |Where(DecodeFlags(rows))|
      ensures Where(DecodeFlags(rows))[k] < |Where(DecodeFlags(rows))| <==> k + Misplaced(DecodeFlags(rows)) < |Where(DecodeFlags(rows))|
    {
      SetSide(DecodeFlags(rows), k);
    }
  }

  /**
   `reorder_batch_to_split_decodes_and_prefills`: the result is a permutation of the batch whose first
   numDecodes rows are exactly the decode requests; rows already in place stay, and the batch counts as
   modified exactly when some row was not.
   */
  method ReorderBatch(batch: array<Request>) returns (modified: bool, numDecodes: nat, numDecodeTokens: nat)
    modifies batch
    ensures multiset(batch[..]) == multiset(old(batch[..])) && Split(batch[..], numDecodes)
    ensures numDecodeTokens == DecodeTokens(old(batch[..])) && Scheduled(batch[..], numDecodes, numDecodeTokens)
    ensures forall i :: 0 <= i < batch.Length && InPlace(old(batch[..]), numDecodes, i) ==> batch[..][i] == old(batch[..])[i]
    ensures modified <==> !Split(old(batch[..]), numDecodes)
  {
    ghost var rows := batch[..];
    var decodes, prefills;
    decodes, prefills, numDecodeTokens := Classify(batch[..]);
    numDecodes := |decodes|;
    ListsOf(rows);
    MisplacedLast(rows);
    modified := SwapLoop(batch, decodes, prefills, Misplaced(DecodeFlags(rows)));
    ReorderedIsSplit(rows);
    SplitIffNone(rows);
    TokensPermuted(rows, batch[..]);
    SplitTokens(batch[..], numDecodes);
  }
}
