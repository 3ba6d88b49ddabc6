/** Recency order: what a bounded move-to-front list of requests should hold, said without the list. */
module Recency {

  const CAPACITY := 10

  /** A request for a key, with the value (here a time stamp) it carried. */
  datatype Play<K, V> = Play(key: K, value: V)

  function Truncated<T>(s: seq<T>): seq<T> {
    if |s| > CAPACITY then s[..CAPACITY] else s
  }

  function MoveToFront<T>(s: seq<T>, i: nat): seq<T>
    requires i < |s|
  {
    [s[i]] + s[..i] + s[i + 1..]
  }

  /** One past the position of the latest request for the key, 0 when there is none. */
  function LastAt<K(==), V>(history: seq<Play<K, V>>, key: K): (n: nat)
    ensures n <= |history|
    ensures n > 0 ==> history[n - 1].key == key
    ensures forall k :: n <= k < |history| ==> history[k].key != key
  {
    if history == [] then 0
    else if history[|history| - 1].key == key then |history|
    else LastAt(history[..|history| - 1], key)
  }

  /** Later requests come first. */
  ghost predicate Descending<K, V>(ps: seq<Play<K, V>>, history: seq<Play<K, V>>) {
    forall i, j :: 0 <= i < j < |ps| ==> LastAt(history, ps[i].key) > LastAt(history, ps[j].key)
  }

  ghost predicate Latest<K, V>(p: Play<K, V>, history: seq<Play<K, V>>) {
    LastAt(history, p.key) > 0 && history[LastAt(history, p.key) - 1] == p
  }

  /** The list `ps` holds the latest requests for the ten keys requested last, most recent first: every
      entry is the latest request for its key, entries are ordered by that request, and the latest
      request for a key is missing only when ten keys requested later are present. */
  ghost predicate IsTenMostRecent<K(!new), V(!new)>(ps: seq<Play<K, V>>, history: seq<Play<K, V>>) {
    && |ps| <= 10
    && (forall p :: p in ps ==> Latest(p, history))
    && Descending(ps, history)
    && (forall p :: p in history && Latest(p, history) && p !in ps ==>
          |ps| == 10 && forall k :: 0 <= k < |ps| ==> LastAt(history, ps[k].key) > LastAt(history, p.key))
  }

  // ---------- the unbounded list ----------

  function Without<K(==), V>(ps: seq<Play<K, V>>, key: K): seq<Play<K, V>> {
    if ps == [] then []
    else if ps[0].key == key then Without(ps[1..], key)
    else [ps[0]] + Without(ps[1..], key)
  }

  /** The unbounded move-to-front list of a request history. */
  function Unbounded<K(==), V>(history: seq<Play<K, V>>): seq<Play<K, V>> {
    if history == [] then []
    else
      var p := history[|history| - 1];
      [p] + Without(Unbounded(history[..|history| - 1]), p.key)
  }

  lemma {:induction false} WithoutMembers<K, V>(ps: seq<Play<K, V>>, key: K, p: Play<K, V>)
    ensures p in Without(ps, key) <==> p in ps && p.key != key
  {
    if ps != [] {
      WithoutMembers(ps[1..], key, p);
      assert ps == [ps[0]] + ps[1..];
    }
  }

  lemma {:induction false} WithoutDescends<K(!new), V(!new)>(ps: seq<Play<K, V>>, key: K, history: seq<Play<K, V>>)
    requires Descending(ps, history)
    ensures Descending(Without(ps, key), history)
  {
    if ps != [] {
      WithoutDescends(ps[1..], key, history);
      forall j | 0 <= j < |Without(ps[1..], key)|
        ensures LastAt(history, ps[0].key) > LastAt(history, Without(ps[1..], key)[j].key)
      {
        WithoutMembers(ps[1..], key, Without(ps[1..], key)[j]);
      }
    }
  }

  lemma LastAtAppend<K, V>(history: seq<Play<K, V>>, p: Play<K, V>, key: K)
    ensures LastAt(history + [p], key) == if p.key == key then |history| + 1 else LastAt(history, key)
  {
    assert (history + [p])[..|history|] == history;
  }

  lemma {:induction false} DescendingCarries<K, V>(ps: seq<Play<K, V>>, history: seq<Play<K, V>>, p: Play<K, V>)
    requires Descending(ps, history)
    requires forall k :: 0 <= k < |ps| ==> ps[k].key != p.key
    ensures Descending([p] + ps, history + [p])
  {
    LastAtAppend(history, p, p.key);
    forall k | 0 <= k < |ps| {
      LastAtAppend(history, p, ps[k].key);
    }
  }

  /** Each requested key occurs once in the unbounded list, as its latest request, later requests first. */
  lemma {:induction false} UnboundedIsRecencyOrder<K(!new), V(!new)>(history: seq<Play<K, V>>)
    ensures Descending(Unbounded(history), history)
    ensures forall p :: p in Unbounded(history) <==> p in history && Latest(p, history)
  {
    if history != [] {
      var n := |history| - 1;
      var before, p := history[..n], history[n];
      assert history == before + [p];
      UnboundedIsRecencyOrder(before);
      var u := Unbounded(before);
      var rest := Without(u, p.key);
      WithoutDescends(u, p.key, before);
      forall k | 0 <= k < |rest| ensures rest[k].key != p.key {
        WithoutMembers(u, p.key, rest[k]);
      }
      DescendingCarries(rest, before, p);
      forall q ensures q in [p] + rest <==> q in history && Latest(q, history) {
        WithoutMembers(u, p.key, q);
        LastAtAppend(before, p, q.key);
      }
    }
  }

  lemma {:induction false} WithoutAbsent<K, V>(ps: seq<Play<K, V>>, key: K)
    requires forall i :: 0 <= i < |ps| ==> ps[i].key != key
    ensures Without(ps, key) == ps
  {
    if ps != [] {
      WithoutAbsent(ps[1..], key);
    }
  }

  lemma {:induction false} WithoutAt<K, V>(ps: seq<Play<K, V>>, i: nat)
    requires i < |ps|
    requires forall k :: 0 <= k < |ps| && k != i ==> ps[k].key != ps[i].key
    ensures Without(ps, ps[i].key) == ps[..i] + ps[i + 1..]
  {
    if i == 0 {
      WithoutAbsent(ps[1..], ps[0].key);
    } else {
      WithoutAt(ps[1..], i - 1);
      assert ps[..i] + ps[i + 1..] == [ps[0]] + (ps[1..][..i - 1] + ps[1..][i..]);
    }
  }

  function Backwards<T>(s: seq<T>): seq<T> {
    if s == [] then [] else Backwards(s[1..]) + [s[0]]
  }

  /** A list without a key twice is the recency order of its entries requested from last to first. */
  lemma {:induction false} UnboundedBackwards<K, V>(ps: seq<Play<K, V>>)
    requires forall i, j :: 0 <= i < j < |ps| ==> ps[i].key != ps[j].key
    ensures Unbounded(Backwards(ps)) == ps
  {
    if ps != [] {
      UnboundedBackwards(ps[1..]);
      var h := Backwards(ps[1..]);
      assert (h + [ps[0]])[..|h|] == h;
      WithoutAbsent(ps[1..], ps[0].key);
    }
  }

  /** The ten-prefix of the recency order is the ten most recent. */
  lemma PrefixIsTenMostRecent<K(!new), V(!new)>(history: seq<Play<K, V>>)
    ensures IsTenMostRecent(Truncated(Unbounded(history)), history)
  {
    UnboundedIsRecencyOrder(history);
    CutKeepsTheLatest(Unbounded(history), Truncated(Unbounded(history)), history);
  }

  lemma CutKeepsTheLatest<K(!new), V(!new)>(u: seq<Play<K, V>>, ps: seq<Play<K, V>>, history: seq<Play<K, V>>)
    requires Descending(u, history) && ps == Truncated(u)
    requires forall p :: p in u <==> p in history && Latest(p, history)
    ensures IsTenMostRecent(ps, history)
  {
    forall p | p in history && Latest(p, history) && p !in ps
      ensures |ps| == CAPACITY && forall k :: 0 <= k < |ps| ==> LastAt(history, ps[k].key) > LastAt(history, p.key)
    {
      var i := PositionPastCut(u, ps, p);
      forall k | 0 <= k < |ps| ensures LastAt(history, ps[k].key) > LastAt(history, p.key) {
        assert ps[k] == u[k];
      }
    }
  }

  lemma PositionPastCut<T>(u: seq<T>, ps: seq<T>, p: T) returns (i: nat)
    requires ps == Truncated(u) && p in u && p !in ps
    ensures |ps| == CAPACITY <= i < |u| && u[i] == p
  {
    i :| i < |u| && u[i] == p;
    assert forall k :: 0 <= k < |ps| ==> ps[k] == u[k];
  }

  // ---------- the bounded step ----------

  /** What one request does to the bounded list. */
  function Touch<K(==), V>(ps: seq<Play<K, V>>, i: nat, p: Play<K, V>): seq<Play<K, V>>
    requires i <= |ps|
  {
    if i < |ps| then MoveToFront(ps[i := p], i) else Truncated([p] + ps)
  }

  /** If the bounded list is the ten-prefix of the unbounded one, it still is after a request, whether
      the request hits the list, misses it for good, or misses a key that was evicted earlier. */
  lemma {:induction false} TouchKeepsPrefix<K(!new), V(!new)>(ps: seq<Play<K, V>>, history: seq<Play<K, V>>, i: nat, p: Play<K, V>)
    requires ps == Truncated(Unbounded(history))
    requires i <= |ps| && forall k :: 0 <= k < i ==> ps[k].key != p.key
    requires i < |ps| ==> ps[i].key == p.key
    ensures Touch(ps, i, p) == Truncated(Unbounded(history + [p]))
  {
    UnboundedIsRecencyOrder(history);
    assert (history + [p])[..|history|] == history;
    TouchIsCutOfMove(Unbounded(history), ps, i, p);
  }

  lemma TouchIsCutOfMove<K(!new), V(!new)>(u: seq<Play<K, V>>, ps: seq<Play<K, V>>, i: nat, p: Play<K, V>)
    requires forall a, b :: 0 <= a < b < |u| ==> u[a].key != u[b].key
    requires ps == Truncated(u)
    requires i <= |ps| && forall k :: 0 <= k < i ==> ps[k].key != p.key
    requires i < |ps| ==> ps[i].key == p.key
    ensures Touch(ps, i, p) == Truncated([p] + Without(u, p.key))
  {
    if i < |ps| {
      assert u[i] == ps[i];
      WithoutAt(u, i);
      PrefixOfMove(u, ps, i, p);
    } else {
      MissIsCutOfMove(u, ps, p);
    }
  }

  lemma MissIsCutOfMove<K(!new), V(!new)>(u: seq<Play<K, V>>, ps: seq<Play<K, V>>, p: Play<K, V>)
    requires forall a, b :: 0 <= a < b < |u| ==> u[a].key != u[b].key
    requires ps == Truncated(u) && forall k :: 0 <= k < |ps| ==> ps[k].key != p.key
    ensures Truncated([p] + ps) == Truncated([p] + Without(u, p.key))
  {
    if j :| 0 <= j < |u| && u[j].key == p.key {
      WithoutAt(u, j);
      assert forall k :: 0 <= k < |ps| ==> ps[k] == u[k];
      PrefixOfInsert(u, j, p);
    } else {
      WithoutAbsent(u, p.key);
      CutTwice(u, p);
    }
  }

  lemma CutTwice<T>(u: seq<T>, p: T)
    ensures Truncated([p] + Truncated(u)) == Truncated([p] + u)
  {
    if |u| > CAPACITY {
      assert ([p] + u)[..CAPACITY] == ([p] + u[..CAPACITY])[..CAPACITY];
    }
  }

  lemma PrefixOfInsert<T>(u: seq<T>, j: nat, p: T)
    requires CAPACITY <= j < |u|
    ensures Truncated([p] + Truncated(u)) == Truncated([p] + (u[..j] + u[j + 1..]))
  {
    var w := [p] + (u[..j] + u[j + 1..]);
    assert |w| > CAPACITY;
    assert w[..CAPACITY] == [p] + u[..CAPACITY - 1];
    assert ([p] + u[..CAPACITY])[..CAPACITY] == [p] + u[..CAPACITY - 1];
  }

  lemma PrefixOfMove<T>(u: seq<T>, ps: seq<T>, i: nat, p: T)
    requires ps == Truncated(u) && i < |ps|
    ensures MoveToFront(ps[i := p], i) == Truncated([p] + (u[..i] + u[i + 1..]))
  {
    var w := [p] + (u[..i] + u[i + 1..]);
    assert |w| == |u|;
    assert MoveToFront(ps[i := p], i) == w[..|ps|];
  }

  // ---------- duplicates ----------

  predicate NoDuplicates<T(==)>(s: seq<T>) {
    forall i, j :: 0 <= i < j < |s| ==> s[i] != s[j]
  }

  lemma MoveKeepsNoDuplicates<T>(s: seq<T>, i: nat)
    requires i < |s| && NoDuplicates(s)
    ensures NoDuplicates(MoveToFront(s, i))
  {
    forall k | 0 <= k < |s|
      ensures MoveToFront(s, i)[k] == s[if k == 0 then i else if k <= i then k - 1 else k]
    {
    }
  }

  lemma InsertKeepsNoDuplicates<T>(s: seq<T>, x: T)
    requires NoDuplicates(s) && forall k :: 0 <= k < |s| ==> s[k] != x
    ensures NoDuplicates(Truncated([x] + s))
  {
    forall k | 1 <= k < |Truncated([x] + s)| ensures Truncated([x] + s)[k] == s[k - 1] {
    }
  }
}
