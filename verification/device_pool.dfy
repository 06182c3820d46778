/** The device pool of the CI scheduler: free devices with a cooldown, and devices in quarantine. */
module DevicePool {
  import opened Wrappers

  datatype Pool = Pool(free: seq<nat>, quarantined: set<nat>, cooldownUntil: map<nat, int>)

  function CoolAt(until: map<nat, int>, d: nat): int { if d in until then until[d] else 0 }

  /** Free devices whose cooldown has passed, in list order. */
  function Available(free: seq<nat>, until: map<nat, int>, now: int): (a: seq<nat>)
    ensures |a| <= |free|
    ensures forall d :: d in a <==> d in free && CoolAt(until, d) <= now
  {
    if free == [] then []
    else
      var rest := Available(free[1..], until, now);
      if CoolAt(until, free[0]) <= now then [free[0]] + rest else rest
  }

  /** `list.remove`: drops the first occurrence, if there is one. */
  function RemoveOne(s: seq<nat>, d: nat): (r: seq<nat>)
    ensures d in s ==> multiset(r) + multiset{d} == multiset(s)
  {
    if s == [] then []
    else
      assert s == [s[0]] + s[1..];
      if s[0] == d then s[1..] else [s[0]] + RemoveOne(s[1..], d)
  }

  /** Drops the listed devices one after the other. */
  function RemoveAll(s: seq<nat>, devices: seq<nat>): seq<nat>
    decreases devices
  {
    if devices == [] then s else RemoveAll(RemoveOne(s, devices[0]), devices[1..])
  }

  /** Removing the front of a list leaves its end. */
  lemma {:induction false} RemoveFront(s: seq<nat>, n: nat)
    requires n <= |s|
    ensures RemoveAll(s, s[..n]) == s[n..]
    decreases n
  {
    if n > 0 {
      RemoveFront(s[1..], n - 1);
      assert s[..n][1..] == s[1..][..n-1];
    }
  }

  lemma FrontMultiset(s: seq<nat>, n: nat)
    requires n <= |s|
    ensures multiset(s[n..]) + multiset(s[..n]) == multiset(s)
  {
    assert s == s[..n] + s[n..];
  }

  ghost predicate Unique(s: seq<nat>) {
    forall i, j :: 0 <= i < j < |s| ==> s[i] != s[j]
  }

  lemma {:induction false} UniqueMultiset(s: seq<nat>)
    requires Unique(s)
    ensures forall d :: multiset(s)[d] == if d in s then 1 else 0
    decreases |s|
  {
    if s != [] {
      var n := |s| - 1;
      UniqueMultiset(s[..n]);
      assert s == s[..n] + [s[n]];
      assert s[n] !in s[..n];
    }
  }

  lemma {:induction false} AvailableUnique(free: seq<nat>, until: map<nat, int>, now: int)
    requires Unique(free)
    ensures Unique(Available(free, until, now))
  {
    if free != [] {
      AvailableUnique(free[1..], until, now);
    }
  }

  /** With nothing cooling down the whole free list is available. */
  lemma AllAvailable(free: seq<nat>, until: map<nat, int>, now: int)
    requires forall d :: d in free ==> CoolAt(until, d) <= now
    ensures Available(free, until, now) == free
  {
  }

  /** All devices of the pool, wherever they are. */
  ghost function Inside(p: Pool): multiset<nat> {
    multiset(p.free) + multiset(p.quarantined)
  }

  /** The pool object; the caller's condition serialises its methods. */
  class DevicePoolObject {
    var free: seq<nat>
    var quarantined: set<nat>
    var cooldownUntil: map<nat, int>
    const cooldown: nat

    constructor (deviceIds: seq<nat>, cooldown: nat)
      ensures free == deviceIds && quarantined == {} && cooldownUntil == map[] && this.cooldown == cooldown
    {
      free, quarantined, cooldownUntil, this.cooldown := deviceIds, {}, map[], cooldown;
    }

    function State(): Pool
      reads this
    {
      Pool(free, quarantined, cooldownUntil)
    }

    /** `try_acquire`: the first `count` cooled-down devices, or nothing. */
    method TryAcquire(count: nat, now: int) returns (chosen: Option<seq<nat>>)
      modifies this`free
      ensures chosen.None? <==> |Available(old(free), cooldownUntil, now)| < count
      ensures Unique(old(free)) && now >= 0 ==> (chosen.None? <==> |set d | d in old(free) && Cool(cooldownUntil, d, now)| < count)
      ensures chosen.None? ==> free == old(free)
      ensures chosen.Some? ==> Acquired(old(State()), count, now, chosen.value, State())
    {
      var available := Available(free, cooldownUntil, now);
      if Unique(free) && now >= 0 {
        AvailableCount(free, cooldownUntil, now);
      }
      if |available| < count {
        return None;
      }
      var devices := available[..count];
      AvailableWithin(free, cooldownUntil, now, count);
      RemoveDevices(devices);
      return Some(devices);
    }

    method RemoveDevices(devices: seq<nat>)
      requires multiset(devices) <= multiset(free)
      modifies this`free
      ensures free == RemoveAll(old(free), devices)
      ensures multiset(free) + multiset(devices) == multiset(old(free))
    {
      ghost var before := free;
      var i := 0;
      assert devices[..0] == [] && devices[0..] == devices;
      while i < |devices|
        invariant i <= |devices|
        invariant RemoveAll(free, devices[i..]) == RemoveAll(before, devices)
        invariant multiset(free) + multiset(devices[..i]) == multiset(before)
      {
        NextWithin(devices, free, before, i);
        free := RemoveOne(free, devices[i]);
        i := i + 1;
      }
      assert devices[..|devices|] == devices;
    }

    /**
     `release`: devices that pass the readiness check cool down and become free, the others are
     quarantined; quarantined devices are checked again.  `order` is how the set of ready ones is walked.
     */
    method Release(deviceIds: seq<nat>, ready: set<nat>, order: seq<nat>, now: int)
      requires Unique(order) && (forall d :: d in order <==> d in ready && (d in quarantined || d in deviceIds))
      modifies this`free, this`quarantined, this`cooldownUntil
      ensures Released(old(State()), deviceIds, ready, order, now, cooldown, State())
    {
      var candidates := quarantined + (set d | d in deviceIds);
      var i := 0;
      while i < |order|
        invariant i <= |order|
        invariant free == old(free) + order[..i]
        invariant quarantined == old(quarantined) - (set d | d in order[..i])
        invariant forall d :: CoolAt(cooldownUntil, d) == if d in order[..i] then now + cooldown else CoolAt(old(cooldownUntil), d)
      {
        var d := order[i];
        assert order[..i+1] == order[..i] + [d];
        quarantined := quarantined - {d};
        cooldownUntil := cooldownUntil[d := now + cooldown];
        free := free + [d];
        i := i + 1;
      }
      assert order[..|order|] == order;
      quarantined := quarantined + (candidates - ready);
    }
  }

  /** The next device to remove is still there. */
  lemma NextWithin(devices: seq<nat>, free: seq<nat>, before: seq<nat>, i: nat)
    requires i < |devices| && multiset(devices) <= multiset(before)
    requires multiset(free) + multiset(devices[..i]) == multiset(before)
    ensures devices[i] in free && devices[i..][0] == devices[i] && devices[i..][1..] == devices[i+1..]
    ensures multiset(devices[..i+1]) == multiset(devices[..i]) + multiset{devices[i]}
  {
    assert devices == devices[..i] + ([devices[i]] + devices[i+1..]);
    assert multiset(devices)[devices[i]] > multiset(devices[..i])[devices[i]];
    assert devices[i] in multiset(free);
    assert devices[..i+1] == devices[..i] + [devices[i]];
  }

  lemma {:induction false} AvailableWithin(free: seq<nat>, until: map<nat, int>, now: int, count: nat)
    requires count <= |Available(free, until, now)|
    ensures multiset(Available(free, until, now)[..count]) <= multiset(free)
    decreases |free|
  {
    if free != [] && count > 0 {
      var rest := Available(free[1..], until, now);
      if CoolAt(until, free[0]) <= now {
        AvailableWithin(free[1..], until, now, count - 1);
        PrefixWithin(free, rest, count - 1);
      } else {
        AvailableWithin(free[1..], until, now, count);
        assert multiset([free[0]] + free[1..]) == multiset{free[0]} + multiset(free[1..]);
        assert free == [free[0]] + free[1..];
      }
    }
  }

  lemma PrefixWithin(free: seq<nat>, rest: seq<nat>, count: nat)
    requires free != [] && count <= |rest| && multiset(rest[..count]) <= multiset(free[1..])
    ensures multiset(([free[0]] + rest)[..count + 1]) <= multiset(free)
  {
    assert ([free[0]] + rest)[..count + 1] == [free[0]] + rest[..count];
    assert free == [free[0]] + free[1..];
  }

  /** What a successful acquire does. */
  ghost predicate Acquired(p: Pool, count: nat, now: int, chosen: seq<nat>, p': Pool) {
    && count <= |Available(p.free, p.cooldownUntil, now)|
    && chosen == Available(p.free, p.cooldownUntil, now)[..count]
    && p'.free == RemoveAll(p.free, chosen) && multiset(p'.free) + multiset(chosen) == multiset(p.free)
    && p'.quarantined == p.quarantined && p'.cooldownUntil == p.cooldownUntil
  }

  /** What a release does. */
  ghost predicate Released(p: Pool, ids: seq<nat>, ready: set<nat>, order: seq<nat>, now: int, cooldown: nat, p': Pool) {
    && Unique(order) && (forall d :: d in order <==> d in ready && (d in p.quarantined || d in ids))
    && p'.free == p.free + order
    && p'.quarantined == p.quarantined + (set d | d in ids) - ready
    && forall d :: CoolAt(p'.cooldownUntil, d) == if d in order then now + cooldown else CoolAt(p.cooldownUntil, d)
  }

  /** Acquired devices have passed their cooldown, are distinct, and leave the pool without loss or copy. */
  lemma AcquireMoves(p: Pool, count: nat, now: int, chosen: seq<nat>, p': Pool)
    requires Acquired(p, count, now, chosen, p')
    ensures |chosen| == count && Inside(p') + multiset(chosen) == Inside(p)
    ensures forall d :: d in chosen ==> CoolAt(p.cooldownUntil, d) <= now
    ensures Unique(p.free) ==> Unique(chosen)
  {
    assert forall d :: d in chosen ==> d in Available(p.free, p.cooldownUntil, now);
    if Unique(p.free) {
      AvailableUnique(p.free, p.cooldownUntil, now);
    }
  }

  /** d may be handed out at time `now`: it was never released, or its cooldown is over. */
  ghost predicate Cool(until: map<nat, int>, d: nat, now: int) {
    d !in until || until[d] <= now
  }

  lemma CoolSet(free: seq<nat>, until: map<nat, int>, now: int)
    requires Unique(free) && free != []
    ensures var all, rest := set d | d in free && Cool(until, d, now), set d | d in free[1..] && Cool(until, d, now);
            |all| == |rest| + if Cool(until, free[0], now) then 1 else 0
  {
    var all, rest := set d | d in free && Cool(until, d, now), set d | d in free[1..] && Cool(until, d, now);
    assert free[0] !in free[1..];
    assert all == if Cool(until, free[0], now) then rest + {free[0]} else rest;
  }

  /** Of distinct free devices, exactly the cool ones are available. */
  lemma {:induction false} AvailableCount(free: seq<nat>, until: map<nat, int>, now: int)
    requires Unique(free) && now >= 0
    ensures |Available(free, until, now)| == |set d | d in free && Cool(until, d, now)|
  {
    if free == [] {
      assert (set d | d in free && Cool(until, d, now)) == {};
    } else {
      AvailableCount(free[1..], until, now);
      CoolSet(free, until, now);
    }
  }

  /** The n-th available device sits in the free list behind the ones before it and before all other cool ones. */
  lemma {:induction false} AvailableInOrder(free: seq<nat>, until: map<nat, int>, now: int, p: nat, q: nat, n: nat)
    requires Unique(free) && now >= 0 && n <= |Available(free, until, now)| && p < |free| && q < |free|
    requires free[p] in Available(free, until, now)[..n] && free[q] !in Available(free, until, now)[..n] && Cool(until, free[q], now)
    ensures p < q
  {
    var rest := Available(free[1..], until, now);
    if CoolAt(until, free[0]) <= now {
      var a := Available(free, until, now)[..n];
      assert a == [free[0]] + rest[..n-1];
      if p > 0 && q > 0 {
        AvailableInOrder(free[1..], until, now, p - 1, q - 1, n - 1);
      }
    } else {
      assert free[0] !in Available(free, until, now)[..n];
      if p > 0 && q > 0 {
        AvailableInOrder(free[1..], until, now, p - 1, q - 1, n);
      }
    }
  }

  /**
   An acquire succeeds exactly when enough devices are cool, and then takes the first of them in list order and
   leaves the others free.
   */
  lemma AcquireTakesFirst(p: Pool, count: nat, now: int, chosen: seq<nat>, p': Pool)
    requires Acquired(p, count, now, chosen, p') && Unique(p.free) && now >= 0
    ensures |set d | d in p.free && Cool(p.cooldownUntil, d, now)| >= |chosen| == count
    ensures forall d: nat :: d in p'.free <==> d in p.free && d !in chosen
    ensures forall d :: d in chosen ==> d in p.free && Cool(p.cooldownUntil, d, now)
    ensures forall i, k ::
      (0 <= i < |p.free| && 0 <= k < |p.free| && p.free[i] in chosen && p.free[k] !in chosen && Cool(p.cooldownUntil, p.free[k], now)) ==> i < k
  {
    AvailableCount(p.free, p.cooldownUntil, now);
    forall i, k | 0 <= i < |p.free| && 0 <= k < |p.free| && p.free[i] in chosen && p.free[k] !in chosen && Cool(p.cooldownUntil, p.free[k], now)
      ensures i < k
    {
      AvailableInOrder(p.free, p.cooldownUntil, now, i, k, count);
    }
    assert forall d :: d in chosen ==> d in Available(p.free, p.cooldownUntil, now);
    LeftFree(p.free, chosen, p'.free);
  }

  lemma LeftFree(free: seq<nat>, chosen: seq<nat>, left: seq<nat>)
    requires Unique(free) && multiset(left) + multiset(chosen) == multiset(free)
    ensures forall d: nat :: d in left <==> d in free && d !in chosen
  {
    UniqueMultiset(free);
    forall d: nat
      ensures d in left <==> d in free && d !in chosen
    {
      assert (multiset(left) + multiset(chosen))[d] == multiset(free)[d];
      assert d in left <==> multiset(left)[d] > 0;
      assert d in chosen <==> multiset(chosen)[d] > 0;
    }
  }

  /** A release checks its own and the quarantined devices: those that pass are free with a fresh cooldown, the others quarantined. */
  lemma ReleaseSorts(p: Pool, ids: seq<nat>, ready: set<nat>, order: seq<nat>, now: int, cooldown: nat, p': Pool)
    requires Released(p, ids, ready, order, now, cooldown, p') && now + cooldown > 0
    ensures forall d: nat :: d in p'.free <==> d in p.free || (d in ready && (d in ids || d in p.quarantined))
    ensures forall d: nat :: d in p'.quarantined <==> d !in ready && (d in ids || d in p.quarantined)
    ensures forall d: nat :: d in ready && (d in ids || d in p.quarantined) ==> d in p'.cooldownUntil && p'.cooldownUntil[d] == now + cooldown
  {
    forall d: nat | d in ready && (d in ids || d in p.quarantined)
      ensures d in p'.cooldownUntil && p'.cooldownUntil[d] == now + cooldown
    {
      assert d in order && CoolAt(p'.cooldownUntil, d) == now + cooldown;
    }
  }

  /** Released devices return to the pool without loss or copy, free or quarantined. */
  lemma ReleaseReturns(p: Pool, ids: seq<nat>, ready: set<nat>, order: seq<nat>, now: int, cooldown: nat, p': Pool)
    requires Released(p, ids, ready, order, now, cooldown, p')
    requires Unique(ids) && forall d :: d in ids ==> d !in p.quarantined
    ensures Inside(p') == Inside(p) + multiset(ids)
  {
    UniqueMultiset(ids);
    UniqueMultiset(order);
    forall d: nat
      ensures Inside(p')[d] == (Inside(p) + multiset(ids))[d]
    {
      assert multiset(order)[d] == if d in order then 1 else 0;
      assert multiset(ids)[d] == if d in ids then 1 else 0;
      assert multiset(p.free + order)[d] == multiset(p.free)[d] + multiset(order)[d];
    }
  }
}
