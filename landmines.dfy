/**
 The two queues of techies.landmines. Each object is bound to one key of the
 store and holds, as a field, the value stored under that key: a list for
 Queue, a sorted set (member to score) for UniQueue. Every method is one or
 more store commands on that value; none keeps other state.
 */
module Landmines {
  import opened Store

  // ---------------------------------------------------------------------------
  // Queue: FIFO over a list
  // ---------------------------------------------------------------------------

  class Queue {
    const key: string
    /** The list stored under `key`. */
    var list: seq<string>

    /**
     Binds the queue to `key`, whose list already holds `stored`; initialising
     a Queue does nothing, so existing items stay.
     */
    constructor (key: string, stored: seq<string>)
      ensures this.key == key && list == stored
    {
      this.key := key;
      list := stored;
      new;
      Initialize();
    }

    method Initialize()
      ensures unchanged(this)
    {
    }

    /** DEL key, then initialise again. */
    method Clear()
      modifies this
      ensures list == []
    {
      list := [];
      Initialize();
    }

    /** LLEN key. */
    method Qsize() returns (n: nat)
      ensures n == |list|
    {
      n := |list|;
    }

    method Empty() returns (e: bool)
      ensures e <==> list == []
    {
      var n := Qsize();
      e := n == 0;
    }

    /** No capacity bound is enforced: the queue is never full. */
    method Full() returns (f: bool)
      ensures !f
    {
      f := false;
    }

    method TaskDone()
      ensures unchanged(this)
    {
    }

    method Join()
      ensures unchanged(this)
    {
    }

    method Len() returns (n: nat)
      ensures n == |list|
    {
      n := Qsize();
    }

    /** RPUSH key x; the reply is the new length. */
    method Put(x: string) returns (n: nat)
      modifies this
      ensures (list, n) == RPush(old(list), x)
    {
      var r := RPush(list, x);
      list, n := r.0, r.1;
    }

    method PutNowait(x: string) returns (n: nat)
      modifies this
      ensures (list, n) == RPush(old(list), x)
    {
      n := Put(x);
    }

    /** LPOP key: the head, or None when the list is empty. */
    method Get() returns (r: Option<string>)
      modifies this
      ensures (r, list) == LPop(old(list))
    {
      var p := LPop(list);
      r, list := p.0, p.1;
    }

    method GetNowait() returns (r: Option<string>)
      modifies this
      ensures (r, list) == LPop(old(list))
    {
      r := Get();
    }
  }

  // ---------------------------------------------------------------------------
  // UniQueue: deduplicating queue over a sorted set scored by arrival time
  // ---------------------------------------------------------------------------

  /**
   What UniQueue.put does to the sorted set and replies: a member whose
   ZSCORE is falsy (absent, or a zero score) is added with score `now`;
   otherwise nothing changes and the reply is 0.
   */
  function UniPut(z: map<string, nat>, x: string, now: nat): (r: (map<string, nat>, nat))
    ensures x !in z ==> r.0 == z[x := now] && r.1 == 1
    ensures x in z && z[x] > 0 ==> r == (z, 0)
    ensures x in z && z[x] == 0 ==> r == (z[x := now], 0)
  {
    if !Truthy(ZScore(z, x)) then ZAdd(z, now, x) else (z, 0)
  }

  /**
   What UniQueue.get does to the sorted set and returns: None on an empty
   set; otherwise the first member in ZRANGE order, which is removed when its
   score is truthy.
   */
  ghost function UniGet(z: map<string, nat>): (r: (Option<string>, map<string, nat>))
    ensures |z| == 0 ==> r == (None, z)
    ensures |z| > 0 ==> r.0.Some? && IsFirst(z, r.0.value)
    ensures |z| > 0 && Positive(z) ==>
              r.1.Keys == z.Keys - {r.0.value} && forall o :: o in r.1 ==> r.1[o] == z[o]
    ensures |z| > 0 && !Truthy(ZScore(z, r.0.value)) ==> r.1 == z
  {
    if |z| == 0 then (None, z)
    else
      var f := First(z);
      if Truthy(ZScore(z, f)) then (Some(f), ZRem(z, f).0) else (Some(f), z)
  }

  class UniQueue {
    const key: string
    /** The sorted set stored under `key`: member to arrival time. */
    var zset: map<string, nat>

    /** Scores come from a clock, so none is zero. */
    ghost predicate Valid()
      reads this
    {
      Positive(zset)
    }

    constructor (key: string, stored: map<string, nat>)
      requires Positive(stored)
      ensures Valid() && this.key == key && zset == stored
    {
      this.key := key;
      zset := stored;
      new;
      Initialize();
    }

    method Initialize()
      ensures unchanged(this)
    {
    }

    /** DEL key, then initialise again. */
    method Clear()
      modifies this
      ensures Valid() && zset == map[]
    {
      zset := map[];
      Initialize();
    }

    /** ZCARD key: the number of distinct members. */
    method Qsize() returns (n: nat)
      ensures n == |zset.Keys|
    {
      n := |zset|;
    }

    method Empty() returns (e: bool)
      ensures e <==> zset.Keys == {}
    {
      var n := Qsize();
      e := n == 0;
    }

    method Full() returns (f: bool)
      ensures !f
    {
      f := false;
    }

    method TaskDone()
      ensures unchanged(this)
    {
    }

    method Join()
      ensures unchanged(this)
    {
    }

    method Len() returns (n: nat)
      ensures n == |zset.Keys|
    {
      n := Qsize();
    }

    /** ZSCORE key x, then ZADD key now x when the score was falsy. */
    method Put(x: string, now: nat) returns (added: nat)
      requires Valid() && now > 0
      modifies this
      ensures Valid()
      ensures (zset, added) == UniPut(old(zset), x, now)
    {
      if !Truthy(ZScore(zset, x)) {
        var r := ZAdd(zset, now, x);
        zset, added := r.0, r.1;
        return;
      }
      added := 0;
    }

    method PutNowait(x: string, now: nat) returns (added: nat)
      requires Valid() && now > 0
      modifies this
      ensures Valid()
      ensures (zset, added) == UniPut(old(zset), x, now)
    {
      added := Put(x, now);
    }

    /** ZRANGE key 0 0 unless empty, then ZREM of that member if ZSCORE is truthy. */
    method Get() returns (r: Option<string>)
      requires Valid()
      modifies this
      ensures Valid()
      ensures (r, zset) == UniGet(old(zset))
    {
      r := None;
      var e := Empty();
      if !e {
        var first := ZRangeFirst(zset);
        r := Some(first[0]);
        FirstUnique(zset, first[0], First(zset));
      }
      if r.Some? && Truthy(ZScore(zset, r.value)) {
        zset := ZRem(zset, r.value).0;
      }
    }

    method GetNowait() returns (r: Option<string>)
      requires Valid()
      modifies this
      ensures Valid()
      ensures (r, zset) == UniGet(old(zset))
    {
      r := Get();
    }
  }
}
