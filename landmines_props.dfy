/**
 What the queues of techies.landmines promise over many calls: FIFO order
 for Queue; for UniQueue, idempotent insertion (the first arrival keeps its
 score) and retrieval in arrival order without duplicates.
 */
module LandminesProps {
  import opened Store
  import opened Landmines

  // ---------------------------------------------------------------------------
  // Queue
  // ---------------------------------------------------------------------------

  /** One call on a Queue: put(x) or get(). */
  datatype QueueOp = PutOp(x: string) | GetOp

  /**
   Runs `ops` on a queue holding `list`, each call as Queue.Put and
   Queue.Get do it; yields the replies of the gets, in order, and the final list.
   */
  function RunQueue(list: seq<string>, ops: seq<QueueOp>): (seq<Option<string>>, seq<string>)
    decreases |ops|
  {
    if ops == [] then ([], list)
    else match ops[0]
      case PutOp(x) => RunQueue(RPush(list, x).0, ops[1..])
      case GetOp =>
        var p := LPop(list);
        var rest := RunQueue(p.1, ops[1..]);
        ([p.0] + rest.0, rest.1)
  }

  /** The items put by `ops`, in order. */
  function Puts(ops: seq<QueueOp>): seq<string>
  {
    if ops == [] then []
    else (if ops[0].PutOp? then [ops[0].x] else []) + Puts(ops[1..])
  }

  /** The items among the replies, dropping the None replies. */
  function Values(replies: seq<Option<string>>): seq<string>
  {
    if replies == [] then []
    else (if replies[0].Some? then [replies[0].value] else []) + Values(replies[1..])
  }

  /**
   FIFO: whatever the interleaving of puts and gets, the items the gets
   return, followed by what is left, are the initial items followed by the
   items put, in the order they were put.
   */
  lemma {:induction false} QueueFifo(list: seq<string>, ops: seq<QueueOp>)
    ensures Values(RunQueue(list, ops).0) + RunQueue(list, ops).1 == list + Puts(ops)
    decreases |ops|
  {
    if ops == [] {
      assert list + [] == list;
    } else {
      var tail := ops[1..];
      match ops[0]
      case PutOp(x) =>
        var pushed := RPush(list, x).0;
        assert pushed == list + [x];
        QueueFifo(pushed, tail);
        assert Puts(ops) == [x] + Puts(tail);
        assert (list + [x]) + Puts(tail) == list + ([x] + Puts(tail));
      case GetOp =>
        var p := LPop(list);
        var rest := RunQueue(p.1, tail);
        assert RunQueue(list, ops) == ([p.0] + rest.0, rest.1);
        assert Puts(ops) == Puts(tail);
        QueueFifo(p.1, tail);
        GetStep(list, p.0, p.1, rest.0, rest.1, Puts(tail));
    }
  }

  /** One get in QueueFifo: the head moves from the list to the replies. */
  lemma GetStep(list: seq<string>, v: Option<string>, left: seq<string>,
                replies: seq<Option<string>>, final: seq<string>, puts: seq<string>)
    requires (v, left) == LPop(list)
    requires Values(replies) + final == left + puts
    ensures Values([v] + replies) + final == list + puts
  {
    assert ([v] + replies)[1..] == replies;
    if list != [] {
      var h := v.value;
      assert Values([v] + replies) == [h] + Values(replies);
      assert ([h] + Values(replies)) + final == [h] + (Values(replies) + final);
      assert ([h] + left) + puts == [h] + (left + puts);
    }
  }

  /** A put on an empty queue followed by a get returns the item put and empties the queue. */
  lemma PutThenGetOnEmpty(x: string)
    ensures RunQueue([], [PutOp(x), GetOp]) == ([Some(x)], [])
  {
    var ops := [PutOp(x), GetOp];
    assert RPush([], x).0 == [x];
    assert ops[1..] == [GetOp];
    assert RunQueue([], ops) == RunQueue([x], [GetOp]);
    assert LPop([x]) == (Some(x), []);
    assert [GetOp][1..] == [];
    assert RunQueue([x], [GetOp]) == ([Some(x)] + RunQueue([], []).0, RunQueue([], []).1);
    assert [Some(x)] + [] == [Some(x)];
  }

  /** The replies of `while len(q): q.get()` on a queue holding `list`. */
  function Drain(list: seq<string>): seq<string>
    decreases |list|
  {
    if |list| == 0 then []
    else
      var p := LPop(list);
      [p.0.value] + Drain(p.1)
  }

  /** Draining a queue returns every item it holds, head first. */
  lemma {:induction false} DrainReturnsAll(list: seq<string>)
    ensures Drain(list) == list
    decreases |list|
  {
    if |list| != 0 {
      DrainReturnsAll(LPop(list).1);
    }
  }

  // ---------------------------------------------------------------------------
  // UniQueue
  // ---------------------------------------------------------------------------

  /** Every clock reading is positive. */
  predicate AllPositive(ts: seq<nat>)
  {
    forall i :: 0 <= i < |ts| ==> ts[i] > 0
  }

  /** The clock strictly increases from one reading to the next. */
  predicate Increasing(ts: seq<nat>)
  {
    forall i, j :: 0 <= i < j < |ts| ==> ts[i] < ts[j]
  }

  /** UniQueue.put(xs[i]) at time ts[i], for each i in order, starting from z. */
  function UniPutAll(z: map<string, nat>, xs: seq<string>, ts: seq<nat>): map<string, nat>
    requires |xs| == |ts|
    decreases |xs|
  {
    if xs == [] then z
    else UniPut(UniPutAll(z, xs[..|xs| - 1], ts[..|ts| - 1]), xs[|xs| - 1], ts[|ts| - 1]).0
  }

  /** The items of xs in order of first occurrence, each once. */
  function Dedup(xs: seq<string>): (d: seq<string>)
    ensures forall m :: m in d <==> m in xs
    ensures forall i, j :: 0 <= i < j < |d| ==> d[i] != d[j]
    decreases |xs|
  {
    if xs == [] then []
    else
      var p := Dedup(xs[..|xs| - 1]);
      var x := xs[|xs| - 1];
      assert forall m :: m in xs <==> m in xs[..|xs| - 1] || m == x by {
        assert xs == xs[..|xs| - 1] + [x];
      }
      if x in p then p else p + [x]
  }

  /** The replies of `while len(q): q.get()` on a UniQueue holding z. */
  ghost function UniDrain(z: map<string, nat>): seq<string>
    requires Positive(z)
    decreases |z|
  {
    if |z| == 0 then []
    else
      var g := UniGet(z);
      assert |g.1.Keys| < |z.Keys|;
      [g.0.value] + UniDrain(g.1)
  }

  /** Draining returns one item per member: as many items as qsize() reported. */
  lemma {:induction false} UniDrainLength(z: map<string, nat>)
    requires Positive(z)
    ensures |UniDrain(z)| == |z|
    decreases |z|
  {
    if |z| != 0 {
      var g := UniGet(z);
      assert |g.1.Keys| == |z.Keys| - 1;
      UniDrainLength(g.1);
    }
  }

  /**
   Idempotent put: putting the same item any number n >= 1 of times adds it
   once, with the score of the first put (or keeps the score it had), and
   leaves every other member alone; from an empty set the size is 1.
   */
  lemma {:induction false} RepeatedPut(z: map<string, nat>, x: string, xs: seq<string>, ts: seq<nat>)
    requires Positive(z) && |xs| == |ts| && |xs| >= 1 && AllPositive(ts)
    requires forall i :: 0 <= i < |xs| ==> xs[i] == x
    ensures var r := UniPutAll(z, xs, ts);
      && Positive(r)
      && r.Keys == z.Keys + {x}
      && r[x] == (if x in z then z[x] else ts[0])
      && (forall o :: o in z && o != x ==> r[o] == z[o])
      && (z == map[] ==> |r| == 1)
    decreases |xs|
  {
    var n := |xs|;
    var ps, pt := xs[..n - 1], ts[..n - 1];
    var prev := UniPutAll(z, ps, pt);
    var r := UniPutAll(z, xs, ts);
    assert r == UniPut(prev, x, ts[n - 1]).0 by {
      assert xs[n - 1] == x;
    }
    if n > 1 {
      assert pt[0] == ts[0] && AllPositive(pt) by {
        assert forall i :: 0 <= i < n - 1 ==> pt[i] == ts[i];
      }
      RepeatedPut(z, x, ps, pt);
      assert r == prev;
    } else {
      assert prev == z;
    }
    if z == map[] {
      assert r.Keys == {x};
    }
  }

  /**
   Putting one item n >= 1 times into an empty UniQueue, then calling get()
   twice: the first get returns the item and empties the queue, the second
   returns None.
   */
  lemma RepeatedPutThenGetTwice(x: string, xs: seq<string>, ts: seq<nat>)
    requires |xs| == |ts| && |xs| >= 1 && AllPositive(ts)
    requires forall i :: 0 <= i < |xs| ==> xs[i] == x
    ensures var r := UniPutAll(map[], xs, ts);
      && UniGet(r) == (Some(x), map[])
      && UniGet(UniGet(r).1) == (None, map[])
  {
    RepeatedPut(map[], x, xs, ts);
    var r := UniPutAll(map[], xs, ts);
    assert r.Keys == {x};
    assert UniGet(r).1.Keys == {};
  }

  /**
   After puts from an empty set at strictly increasing positive times, the
   members are exactly the items put, every score is positive and none is
   later than the last put.
   */
  lemma {:induction false} PutAllShape(xs: seq<string>, ts: seq<nat>)
    requires |xs| == |ts| && AllPositive(ts) && Increasing(ts)
    ensures var r := UniPutAll(map[], xs, ts);
      && Positive(r)
      && (forall m :: m in r <==> m in xs)
      && (|ts| > 0 ==> forall m :: m in r ==> r[m] <= ts[|ts| - 1])
    decreases |xs|
  {
    var n := |xs|;
    if n > 0 {
      var p, tp := xs[..n - 1], ts[..n - 1];
      PutAllShape(p, tp);
      assert xs == p + [xs[n - 1]];
      var z := UniPutAll(map[], p, tp);
      assert forall m :: m in z ==> z[m] <= ts[n - 1] by {
        if n > 1 {
          assert tp[n - 2] == ts[n - 2] < ts[n - 1];
        }
      }
    }
  }

  /** On a set with positive scores, get returns the first member and removes exactly it. */
  lemma GetRemovesFirst(z: map<string, nat>)
    requires Positive(z) && |z| > 0
    ensures UniGet(z) == (Some(First(z)), z - {First(z)})
    ensures UniDrain(z) == [First(z)] + UniDrain(z - {First(z)})
  {
  }

  /** A member put later than every other does not change which member is first. */
  lemma FirstAfterLaterPut(z: map<string, nat>, x: string, t: nat)
    requires |z| > 0 && x !in z
    requires forall m :: m in z ==> z[m] < t
    ensures First(z[x := t]) == First(z)
  {
    var z', f := z[x := t], First(z);
    assert IsFirst(z', f) by {
      forall o | o in z' && o != f
        ensures Precedes(z', f, o)
      {
        if o != x {
          assert Precedes(z, f, o);
        }
      }
    }
    FirstUnique(z', First(z'), f);
  }

  lemma RemoveThenPut(z: map<string, nat>, f: string, x: string, t: nat)
    requires f != x
    ensures z[x := t] - {f} == (z - {f})[x := t]
  {
    var l, r := z[x := t] - {f}, (z - {f})[x := t];
    assert l.Keys == r.Keys;
    assert forall m :: m in l ==> l[m] == r[m];
  }

  /**
   A put of a new item later than every member is retrieved after all of
   them.
   */
  lemma {:induction false} DrainAppend(z: map<string, nat>, x: string, t: nat)
    requires Positive(z) && x !in z && t > 0
    requires forall m :: m in z ==> z[m] < t
    ensures Positive(z[x := t])
    ensures UniDrain(z[x := t]) == UniDrain(z) + [x]
    decreases |z|
  {
    var z' := z[x := t];
    GetRemovesFirst(z');
    if |z| == 0 {
      assert z'.Keys == {x};
      assert (z' - {First(z')}).Keys == {};
    } else {
      var f := First(z);
      FirstAfterLaterPut(z, x, t);
      GetRemovesFirst(z);
      RemoveThenPut(z, f, x, t);
      var rest := z - {f};
      assert rest.Keys <= z.Keys;
      DrainAppend(rest, x, t);
    }
  }

  /**
   UniQueue order: after puts at strictly increasing positive times, starting
   from an empty set, draining the queue returns the distinct items in the
   order of their first put, and qsize() is the number of distinct items.
   */
  lemma {:induction false} UniQueueFifo(xs: seq<string>, ts: seq<nat>)
    requires |xs| == |ts| && AllPositive(ts) && Increasing(ts)
    ensures Positive(UniPutAll(map[], xs, ts))
    ensures UniDrain(UniPutAll(map[], xs, ts)) == Dedup(xs)
    ensures |UniPutAll(map[], xs, ts)| == |Dedup(xs)|
    decreases |xs|
  {
    UniQueueDrainOrder(xs, ts);
    UniDrainLength(UniPutAll(map[], xs, ts));
  }

  lemma {:induction false} UniQueueDrainOrder(xs: seq<string>, ts: seq<nat>)
    requires |xs| == |ts| && AllPositive(ts) && Increasing(ts)
    ensures Positive(UniPutAll(map[], xs, ts))
    ensures UniDrain(UniPutAll(map[], xs, ts)) == Dedup(xs)
    decreases |xs|
  {
    PutAllShape(xs, ts);
    var n := |xs|;
    if n > 0 {
      var p, tp := xs[..n - 1], ts[..n - 1];
      var x := xs[n - 1];
      UniQueueDrainOrder(p, tp);
      PutAllShape(p, tp);
      var z := UniPutAll(map[], p, tp);
      if x !in z {
        assert forall m :: m in z ==> z[m] < ts[n - 1] by {
          if n > 1 {
            assert tp[n - 2] == ts[n - 2] < ts[n - 1];
          }
        }
        DrainAppend(z, x, ts[n - 1]);
      }
    }
  }
}
