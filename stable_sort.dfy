/** The ordering that `Array.prototype.sort` produces with a comparator of
    the form `(a, b) => key(b) - key(a)`: descending by key, and, because the
    sort is stable, equal keys in their input order. The order is computed as
    a sequence of input positions; `Arrange` then picks the elements. */
module StableSort {

  /** Position `i` goes before position `j`: a larger key, or an equal key
      and an earlier position. */
  predicate Before(keys: seq<real>, i: nat, j: nat)
    requires i < |keys| && j < |keys|
  {
    keys[i] > keys[j] || (keys[i] == keys[j] && i < j)
  }

  predicate InRange(keys: seq<real>, order: seq<nat>) {
    forall k :: 0 <= k < |order| ==> order[k] < |keys|
  }

  /** Every earlier position of `order` goes before every later one. */
  predicate Ordered(keys: seq<real>, order: seq<nat>)
    requires InRange(keys, order)
  {
    forall a, b :: 0 <= a < b < |order| ==> Before(keys, order[a], order[b])
  }

  /** `order` lists each of the positions `lo`, ..., `|keys| - 1` exactly once. */
  predicate ListsFrom(keys: seq<real>, order: seq<nat>, lo: nat) {
    && |order| + lo == |keys|
    && (forall k :: 0 <= k < |order| ==> lo <= order[k] < |keys|)
    && (forall i :: lo <= i < |keys| ==> i in order)
  }

  lemma BeforeTransitive(keys: seq<real>, i: nat, j: nat, k: nat)
    requires i < |keys| && j < |keys| && k < |keys|
    requires Before(keys, i, j) && Before(keys, j, k)
    ensures Before(keys, i, k)
  {
  }

  /** Inserts position `i` in front of the first position of `order` whose
      key is smaller than that of `i`. */
  function Insert(keys: seq<real>, i: nat, order: seq<nat>): (r: seq<nat>)
    requires i < |keys| && InRange(keys, order)
    ensures |r| == |order| + 1 && InRange(keys, r)
    ensures forall x :: x in r <==> x == i || x in order
  {
    if order == [] || keys[i] >= keys[order[0]] then [i] + order
    else
      assert order == [order[0]] + order[1..];
      [order[0]] + Insert(keys, i, order[1..])
  }

  /** Inserting a position smaller than all of `order` keeps it ordered. */
  lemma {:induction false} InsertOrdered(keys: seq<real>, i: nat, order: seq<nat>)
    requires i < |keys| && InRange(keys, order) && Ordered(keys, order)
    requires forall k :: 0 <= k < |order| ==> i < order[k]
    ensures Ordered(keys, Insert(keys, i, order))
    decreases |order|
  {
    var r := Insert(keys, i, order);
    if order == [] || keys[i] >= keys[order[0]] {
      assert r == [i] + order;
      forall a, b | 0 <= a < b < |r| ensures Before(keys, r[a], r[b]) {
        assert r[b] == order[b - 1];
        if a > 0 {
          assert r[a] == order[a - 1];
        } else if b > 1 {
          BeforeTransitive(keys, i, order[0], order[b - 1]);
        }
      }
    } else {
      var tail := Insert(keys, i, order[1..]);
      InsertOrdered(keys, i, order[1..]);
      assert r == [order[0]] + tail;
      forall a, b | 0 <= a < b < |r| ensures Before(keys, r[a], r[b]) {
        assert r[b] == tail[b - 1];
        if a > 0 {
          assert r[a] == tail[a - 1];
        } else {
          assert tail[b - 1] in tail;
          if tail[b - 1] != i {
            var j :| 0 <= j < |order[1..]| && order[1..][j] == tail[b - 1];
            assert order[1..][j] == order[j + 1];
          }
        }
      }
    }
  }

  /** The sorted order of positions `lo`, ..., `|keys| - 1`, built by
      inserting each position, from the last to `lo`, into the order of the
      positions after it. */
  function OrderFrom(keys: seq<real>, lo: nat): (r: seq<nat>)
    requires lo <= |keys|
    ensures InRange(keys, r)
    decreases |keys| - lo
  {
    if lo == |keys| then [] else Insert(keys, lo, OrderFrom(keys, lo + 1))
  }

  lemma {:induction false} OrderFromSorted(keys: seq<real>, lo: nat)
    requires lo <= |keys|
    ensures Ordered(keys, OrderFrom(keys, lo)) && ListsFrom(keys, OrderFrom(keys, lo), lo)
    decreases |keys| - lo
  {
    if lo < |keys| {
      var rest := OrderFrom(keys, lo + 1);
      OrderFromSorted(keys, lo + 1);
      InsertOrdered(keys, lo, rest);
      var r := Insert(keys, lo, rest);
      assert forall k :: 0 <= k < |r| ==> r[k] in r;
    }
  }

  /** The sorted order of all positions. */
  function Order(keys: seq<real>): (r: seq<nat>)
    ensures InRange(keys, r) && Ordered(keys, r) && ListsFrom(keys, r, 0)
  {
    OrderFromSorted(keys, 0);
    OrderFrom(keys, 0)
  }

  /** The elements of `s` at the positions `order`, in that order
      (positions outside `s` contribute nothing). */
  function Arrange<T>(s: seq<T>, order: seq<nat>): (r: seq<T>)
  {
    if order == [] then []
    else (if order[0] < |s| then [s[order[0]]] else []) + Arrange(s, order[1..])
  }

  lemma {:induction false} ArrangeAt<T>(s: seq<T>, order: seq<nat>, k: nat)
    requires forall k :: 0 <= k < |order| ==> order[k] < |s|
    requires k < |order|
    ensures |Arrange(s, order)| == |order| && Arrange(s, order)[k] == s[order[k]]
    decreases |order|
  {
    if |order| > 1 {
      ArrangeAt(s, order[1..], if k > 0 then k - 1 else 0);
    }
  }

  lemma {:induction false} ArrangeInsert<T>(s: seq<T>, keys: seq<real>, i: nat, order: seq<nat>)
    requires |keys| == |s| && i < |keys| && InRange(keys, order)
    ensures multiset(Arrange(s, Insert(keys, i, order))) == multiset(Arrange(s, order)) + multiset{s[i]}
    decreases |order|
  {
    if order == [] || keys[i] >= keys[order[0]] {
    } else {
      ArrangeInsert(s, keys, i, order[1..]);
      assert Arrange(s, order) == [s[order[0]]] + Arrange(s, order[1..]);
    }
  }

  lemma {:induction false} ArrangeOrderFrom<T>(s: seq<T>, keys: seq<real>, lo: nat)
    requires |keys| == |s| && lo <= |keys|
    ensures multiset(Arrange(s, OrderFrom(keys, lo))) == multiset(s[lo..])
    decreases |keys| - lo
  {
    if lo < |keys| {
      var rest := OrderFrom(keys, lo + 1);
      var m := multiset(s[lo + 1..]);
      assert OrderFrom(keys, lo) == Insert(keys, lo, rest);
      ArrangeOrderFrom(s, keys, lo + 1);
      ArrangeInsert(s, keys, lo, rest);
      MultisetSuffix(s, lo);
    }
  }

  lemma MultisetSuffix<T>(s: seq<T>, lo: nat)
    requires lo < |s|
    ensures multiset(s[lo..]) == multiset(s[lo + 1..]) + multiset{s[lo]}
  {
    assert s[lo..] == [s[lo]] + s[lo + 1..];
  }

  /** `s` sorted by descending key, equal keys keeping their input order.
      The result is a rearrangement of `s`: the element at position `k` is
      the input element at position `Order(keys)[k]`, and `Order(keys)`
      lists every input position exactly once. */
  function SortByKeyDescending<T>(s: seq<T>, keys: seq<real>): (r: seq<T>)
    requires |keys| == |s|
    ensures |r| == |s|
    ensures multiset(r) == multiset(s)
    ensures forall k :: 0 <= k < |r| ==> r[k] == s[Order(keys)[k]]
    ensures forall a, b :: 0 <= a < b < |r| ==> keys[Order(keys)[a]] >= keys[Order(keys)[b]]
    ensures forall a, b :: 0 <= a < b < |r| && keys[Order(keys)[a]] == keys[Order(keys)[b]]
              ==> Order(keys)[a] < Order(keys)[b]
  {
    var order := Order(keys);
    ArrangeOrderFrom(s, keys, 0);
    assert order == OrderFrom(keys, 0);
    forall k | 0 <= k < |order| ensures Arrange(s, order)[k] == s[order[k]] {
      ArrangeAt(s, order, k);
    }
    assert s[0..] == s;
    assert forall a, b :: 0 <= a < b < |order| ==> Before(keys, order[a], order[b]);
    Arrange(s, order)
  }
}
