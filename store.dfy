/**
 In-memory stand-in for the part of the Redis key-value store that the
 queues use: the value stored under one key is either a list of strings
 (RPUSH, LPOP, LLEN) or a sorted set, a map from member to score (ZADD,
 ZSCORE, ZREM, ZRANGE, ZCARD). Scores are natural-number clock ticks.
 */
module Store {

  datatype Option<T> = None | Some(value: T)

  // ---------------------------------------------------------------------------
  // Lists
  // ---------------------------------------------------------------------------

  /** RPUSH key x: append at the tail; the reply is the new length. */
  function RPush(list: seq<string>, x: string): (r: (seq<string>, nat))
    ensures |r.0| == |list| + 1 && r.1 == |r.0|
    ensures r.0[..|list|] == list && r.0[|list|] == x
  {
    (list + [x], |list| + 1)
  }

  /** LPOP key: remove and return the head; nil (None) on an empty list. */
  function LPop(list: seq<string>): (r: (Option<string>, seq<string>))
    ensures r.0.None? <==> list == []
    ensures list == [] ==> r.1 == []
    ensures list != [] ==> [r.0.value] + r.1 == list && |r.1| == |list| - 1
  {
    if list == [] then (None, []) else (Some(list[0]), list[1..])
  }

  // ---------------------------------------------------------------------------
  // Sorted sets
  // ---------------------------------------------------------------------------

  /** ZSCORE key m: the member's score, nil (None) when it is not a member. */
  function ZScore(z: map<string, nat>, m: string): (r: Option<nat>)
    ensures r.Some? <==> m in z
    ensures m in z ==> r.value == z[m]
  {
    if m in z then Some(z[m]) else None
  }

  /** Python truthiness of a ZSCORE reply: nil and a zero score are both false. */
  predicate Truthy(s: Option<nat>)
  {
    s.Some? && s.value != 0
  }

  /** ZADD key score m: set the member's score; the reply counts the members added. */
  function ZAdd(z: map<string, nat>, score: nat, m: string): (r: (map<string, nat>, nat))
    ensures r.0.Keys == z.Keys + {m} && r.0[m] == score
    ensures forall o :: o in z && o != m ==> r.0[o] == z[o]
    ensures r.1 == if m in z then 0 else 1
  {
    (z[m := score], if m in z then 0 else 1)
  }

  /** ZREM key m: remove the member; the reply counts the members removed. */
  function ZRem(z: map<string, nat>, m: string): (r: (map<string, nat>, nat))
    ensures r.0.Keys == z.Keys - {m}
    ensures forall o :: o in r.0 ==> r.0[o] == z[o]
    ensures r.1 == if m in z then 1 else 0
  {
    (z - {m}, if m in z then 1 else 0)
  }

  /** Every member has a positive score (true of scores taken from a clock). */
  ghost predicate Positive(z: map<string, nat>)
  {
    forall m :: m in z ==> z[m] > 0
  }

  // ---------------------------------------------------------------------------
  // Member order: ascending score, equal scores by byte-wise member order
  // ---------------------------------------------------------------------------

  /** Strict lexicographic order on strings, character by character. */
  predicate LexLess(a: string, b: string)
  {
    if |a| == 0 then |b| > 0
    else if |b| == 0 then false
    else if a[0] != b[0] then a[0] < b[0]
    else LexLess(a[1..], b[1..])
  }

  lemma {:induction false} LexLessAsymmetric(a: string, b: string)
    ensures !(LexLess(a, b) && LexLess(b, a))
  {
    if |a| > 0 && |b| > 0 && a[0] == b[0] {
      LexLessAsymmetric(a[1..], b[1..]);
    }
  }

  lemma {:induction false} LexLessTransitive(a: string, b: string, c: string)
    requires LexLess(a, b) && LexLess(b, c)
    ensures LexLess(a, c)
  {
    if |a| > 0 && a[0] == b[0] && b[0] == c[0] {
      LexLessTransitive(a[1..], b[1..], c[1..]);
    }
  }

  lemma {:induction false} LexLessTotal(a: string, b: string)
    requires a != b
    ensures LexLess(a, b) || LexLess(b, a)
  {
    if |a| > 0 && |b| > 0 && a[0] == b[0] {
      assert a == [a[0]] + a[1..] && b == [b[0]] + b[1..];
      LexLessTotal(a[1..], b[1..]);
    }
  }

  /** In ZRANGE order, member a of z comes before member b. */
  predicate Precedes(z: map<string, nat>, a: string, b: string)
    requires a in z && b in z
  {
    z[a] < z[b] || (z[a] == z[b] && LexLess(a, b))
  }

  lemma PrecedesTransitive(z: map<string, nat>, a: string, b: string, c: string)
    requires a in z && b in z && c in z
    requires Precedes(z, a, b) && Precedes(z, b, c)
    ensures Precedes(z, a, c)
  {
    if z[a] == z[b] == z[c] {
      LexLessTransitive(a, b, c);
    }
  }

  /** Two distinct members are ordered one way and not the other. */
  lemma PrecedesTotal(z: map<string, nat>, a: string, b: string)
    requires a in z && b in z && a != b
    ensures Precedes(z, a, b) != Precedes(z, b, a)
  {
    LexLessTotal(a, b);
    LexLessAsymmetric(a, b);
  }

  /** m is the member ZRANGE key 0 0 returns: it precedes every other member. */
  ghost predicate IsFirst(z: map<string, nat>, m: string)
  {
    m in z && forall o :: o in z && o != m ==> Precedes(z, m, o)
  }

  lemma FirstUnique(z: map<string, nat>, a: string, b: string)
    requires IsFirst(z, a) && IsFirst(z, b)
    ensures a == b
  {
    if a != b {
      PrecedesTotal(z, a, b);
      assert false;
    }
  }

  lemma {:induction false} FirstExists(z: map<string, nat>)
    requires |z| > 0
    ensures exists m :: IsFirst(z, m)
    decreases |z|
  {
    var k :| k in z;
    var rest := z - {k};
    assert rest.Keys == z.Keys - {k};
    if |rest| == 0 {
      assert IsFirst(z, k);
    } else {
      FirstExists(rest);
      var m :| IsFirst(rest, m);
      forall o | o in rest && o != m
        ensures Precedes(z, m, o)
      {
        assert Precedes(rest, m, o);
      }
      if Precedes(z, k, m) {
        forall o | o in z && o != k
          ensures Precedes(z, k, o)
        {
          if o != m {
            PrecedesTransitive(z, k, m, o);
          }
        }
        assert IsFirst(z, k);
      } else {
        PrecedesTotal(z, k, m);
        assert IsFirst(z, m);
      }
    }
  }

  /** The member ZRANGE key 0 0 returns from a non-empty sorted set. */
  ghost function First(z: map<string, nat>): (m: string)
    requires |z| > 0
    ensures IsFirst(z, m)
  {
    FirstExists(z);
    var m :| IsFirst(z, m);
    m
  }

  /**
   ZRANGE key 0 0: the list holding the first member in score order (equal
   scores ordered by member), empty when the set is empty.
   */
  method ZRangeFirst(z: map<string, nat>) returns (r: seq<string>)
    ensures |z| == 0 ==> r == []
    ensures |z| > 0 ==> |r| == 1 && IsFirst(z, r[0])
  {
    if |z| == 0 {
      return [];
    }
    var rest := z.Keys;
    var best :| best in rest;
    rest := rest - {best};
    while rest != {}
      invariant rest <= z.Keys && best in z && best !in rest
      invariant forall o :: o in z && o !in rest && o != best ==> Precedes(z, best, o)
      decreases rest
    {
      var o :| o in rest;
      if Precedes(z, o, best) {
        forall v | v in z && v !in rest && v != best && v != o
          ensures Precedes(z, o, v)
        {
          PrecedesTransitive(z, o, best, v);
        }
        best := o;
      } else {
        PrecedesTotal(z, best, o);
      }
      rest := rest - {o};
    }
    r := [best];
  }
}
