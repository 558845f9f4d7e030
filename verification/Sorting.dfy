/** Sorting by key, known by its specification only: ties may come out in any order. */
module Sorting {

  /** `order` lists every index of `keys` once, by nondecreasing key. */
  ghost predicate SortedOrder(keys: seq<nat>, order: seq<nat>) {
    && |order| == |keys|
    && (forall i :: 0 <= i < |order| ==> order[i] < |keys|)
    && (forall i, j :: 0 <= i < j < |order| ==> order[i] != order[j] && keys[order[i]] <= keys[order[j]])
    && (forall k :: 0 <= k < |keys| ==> k in order)
  }

  /** The elements of xs in the given order. */
  function Arranged<T>(xs: seq<T>, order: seq<nat>): (ys: seq<T>)
    requires |order| == |xs| && forall i :: 0 <= i < |order| ==> order[i] < |xs|
    ensures |ys| == |xs| && forall i :: 0 <= i < |ys| ==> ys[i] == xs[order[i]]
  {
    seq(|order|, i requires 0 <= i < |order| => xs[order[i]])
  }

  /** Any function that sorts; Sort.sort and sort.Slice are two unknown members. */
  ghost predicate Sorts(f: seq<nat> -> seq<nat>) {
    forall keys :: SortedOrder(keys, f(keys))
  }

  type Sorter = f: seq<nat> -> seq<nat> | Sorts(f)
    ghost witness (SomeSorterExists(); InsertionOrder)

  lemma SomeSorterExists()
    ensures forall keys :: SortedOrder(keys, InsertionOrder(keys))
  {
    forall keys ensures SortedOrder(keys, InsertionOrder(keys)) {
      InsertionSorts(keys, |keys|);
    }
  }

  function InsertionOrder(keys: seq<nat>): seq<nat> {
    InsertUpTo(keys, |keys|)
  }

  function InsertUpTo(keys: seq<nat>, n: nat): seq<nat>
    requires n <= |keys|
  {
    if n == 0 then [] else Insert(keys, InsertUpTo(keys, n - 1), n - 1)
  }

  function Insert(keys: seq<nat>, order: seq<nat>, k: nat): seq<nat>
    requires k < |keys|
  {
    if order == [] || order[0] >= |keys| || keys[k] < keys[order[0]] then [k] + order
    else [order[0]] + Insert(keys, order[1..], k)
  }

  ghost predicate Ascending(keys: seq<nat>, order: seq<nat>) {
    && (forall i :: 0 <= i < |order| ==> order[i] < |keys|)
    && (forall i, j :: 0 <= i < j < |order| ==> order[i] != order[j] && keys[order[i]] <= keys[order[j]])
  }

  lemma {:induction false} InsertKeepsOrder(keys: seq<nat>, order: seq<nat>, k: nat)
    requires k < |keys| && k !in order && Ascending(keys, order)
    ensures var r := Insert(keys, order, k);
            && |r| == |order| + 1 && Ascending(keys, r)
            && forall x: nat :: x in r <==> x == k || x in order
  {
    var r := Insert(keys, order, k);
    if !(order == [] || keys[k] < keys[order[0]]) {
      InsertKeepsOrder(keys, order[1..], k);
      var tail := Insert(keys, order[1..], k);
      assert r == [order[0]] + tail;
      forall x | x in tail ensures x != order[0] && x < |keys| && keys[order[0]] <= keys[x] {}
    }
  }

  lemma {:induction false} InsertionSorts(keys: seq<nat>, n: nat)
    requires n <= |keys|
    ensures var r := InsertUpTo(keys, n);
            |r| == n && Ascending(keys, r) && forall x: nat :: x in r <==> x < n
  {
    if n > 0 {
      InsertionSorts(keys, n - 1);
      InsertKeepsOrder(keys, InsertUpTo(keys, n - 1), n - 1);
      forall x: nat ensures x in InsertUpTo(keys, n) <==> x < n {}
    }
  }

  /** With pairwise distinct keys the sorted order is unique, stable sort or not. */
  lemma UniqueOrder(keys: seq<nat>, p: seq<nat>, q: seq<nat>)
    requires SortedOrder(keys, p) && SortedOrder(keys, q)
    requires forall i, j :: 0 <= i < j < |keys| ==> keys[i] != keys[j]
    ensures p == q
  {
    UniqueUpTo(keys, p, q, |keys|);
  }

  lemma {:induction false} UniqueUpTo(keys: seq<nat>, p: seq<nat>, q: seq<nat>, n: nat)
    requires SortedOrder(keys, p) && SortedOrder(keys, q)
    requires forall i, j :: 0 <= i < j < |keys| ==> keys[i] != keys[j]
    requires n <= |keys|
    ensures forall k :: 0 <= k < n ==> p[k] == q[k]
  {
    if n > 0 {
      UniqueUpTo(keys, p, q, n - 1);
      var a, b := p[n - 1], q[n - 1];
      assert a in q && b in p;
      var i :| 0 <= i < |q| && q[i] == a;
      var j :| 0 <= j < |p| && p[j] == b;
      assert n - 1 <= i && n - 1 <= j;
      assert keys[b] <= keys[a] && keys[a] <= keys[b];
    }
  }
}
