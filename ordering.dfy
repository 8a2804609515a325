/**
 * Python's `sorted(items, key=...)` for the two kinds of keys the stores sort
 * on: integers (timestamps, negated for `reverse=True`) and strings (compared
 * code point by code point, a proper prefix first). Both sorts are stable
 * insertion sorts: an item goes in front of the first item whose key is not
 * smaller, so equal keys keep their input order.
 */
module Ordering {

  // ---------------------------------------------------------------------------
  // String order
  // ---------------------------------------------------------------------------

  /** `a <= b` on Python strings. */
  predicate TextLe(a: string, b: string) {
    if a == [] then true
    else if b == [] then false
    else if a[0] != b[0] then a[0] < b[0]
    else TextLe(a[1..], b[1..])
  }

  lemma {:induction false} TextLeTotal(a: string, b: string)
    ensures TextLe(a, b) || TextLe(b, a)
  {
    if a != [] && b != [] && a[0] == b[0] {
      TextLeTotal(a[1..], b[1..]);
    }
  }

  lemma {:induction false} TextLeTransitive(a: string, b: string, c: string)
    requires TextLe(a, b) && TextLe(b, c)
    ensures TextLe(a, c)
  {
    if a != [] && b != [] && c != [] && a[0] == b[0] && b[0] == c[0] {
      TextLeTransitive(a[1..], b[1..], c[1..]);
    }
  }

  lemma {:induction false} TextLeAntisymmetric(a: string, b: string)
    requires TextLe(a, b) && TextLe(b, a)
    ensures a == b
  {
    if a != [] && b != [] {
      TextLeAntisymmetric(a[1..], b[1..]);
      assert a == [a[0]] + a[1..] && b == [b[0]] + b[1..];
    }
  }

  // ---------------------------------------------------------------------------
  // Sorting by an integer key
  // ---------------------------------------------------------------------------

  predicate SortedByInt<T>(xs: seq<T>, key: T -> int) {
    forall i, j :: 0 <= i < j < |xs| ==> key(xs[i]) <= key(xs[j])
  }

  /** Where an insertion puts `x`: after every item with a smaller key, before the rest. */
  function IntPosition<T>(x: T, xs: seq<T>, key: T -> int): (p: nat)
    ensures p <= |xs|
    ensures forall i :: 0 <= i < p ==> key(xs[i]) < key(x)
    ensures p < |xs| ==> key(x) <= key(xs[p])
  {
    if xs == [] || key(x) <= key(xs[0]) then 0 else 1 + IntPosition(x, xs[1..], key)
  }

  /** The item at index `i` once `x` is inserted at `p`. */
  lemma InsertedAt<T>(x: T, xs: seq<T>, p: nat, i: nat)
    requires p <= |xs| && i <= |xs|
    ensures (xs[..p] + [x] + xs[p..])[i] == if i < p then xs[i] else if i == p then x else xs[i - 1]
  {
  }

  function InsertByInt<T>(x: T, xs: seq<T>, key: T -> int): (r: seq<T>)
    ensures multiset(r) == multiset(xs) + multiset{x}
  {
    var p := IntPosition(x, xs, key);
    assert xs == xs[..p] + xs[p..];
    xs[..p] + [x] + xs[p..]
  }

  lemma InsertByIntSorted<T>(x: T, xs: seq<T>, key: T -> int)
    requires SortedByInt(xs, key)
    ensures SortedByInt(InsertByInt(x, xs, key), key)
  {
    var p := IntPosition(x, xs, key);
    var r := InsertByInt(x, xs, key);
    forall i, j | 0 <= i < j < |r| ensures key(r[i]) <= key(r[j]) {
      InsertedAt(x, xs, p, i);
      InsertedAt(x, xs, p, j);
      if i > p {
        assert key(xs[i - 1]) <= key(xs[j - 1]);
      } else if i == p {
        assert key(x) <= key(xs[p]);
      } else if j > p {
        assert key(xs[i]) < key(x) <= key(xs[p]);
      }
    }
  }

  /** `sorted(xs, key=key)`: the same items, in ascending key order. */
  function SortByInt<T>(xs: seq<T>, key: T -> int): (r: seq<T>)
    ensures multiset(r) == multiset(xs)
    ensures SortedByInt(r, key)
  {
    if xs == [] then []
    else
      assert xs == [xs[0]] + xs[1..];
      InsertByIntSorted(xs[0], SortByInt(xs[1..], key), key);
      InsertByInt(xs[0], SortByInt(xs[1..], key), key)
  }

  /** Sorting keeps the number of items and which items there are. */
  lemma SortByIntKeepsItems<T>(xs: seq<T>, key: T -> int)
    ensures |SortByInt(xs, key)| == |xs|
    ensures forall x :: x in SortByInt(xs, key) <==> x in xs
  {
    var r := SortByInt(xs, key);
    assert |r| == |multiset(r)| == |multiset(xs)|;
    forall x ensures x in r <==> x in xs {
      assert x in r <==> x in multiset(r);
    }
  }

  /**
   * Cutting a sorted sequence after `n` items (SQL's LIMIT) keeps the smallest
   * keys: an item left out has a key at least as large as every item kept.
   */
  lemma {:induction false} SortedPrefixKeepsSmallest<T>(xs: seq<T>, key: T -> int, n: nat, x: T)
    requires SortedByInt(xs, key)
    requires n <= |xs| && x in xs && x !in xs[..n]
    ensures forall y :: y in xs[..n] ==> key(y) <= key(x)
  {
    var j :| 0 <= j < |xs| && xs[j] == x;
    forall y | y in xs[..n] ensures key(y) <= key(x) {
      var i :| 0 <= i < n && xs[..n][i] == y;
      assert xs[i] == y;
    }
  }

  // ---------------------------------------------------------------------------
  // Sorting by a string key
  // ---------------------------------------------------------------------------

  predicate SortedByText<T>(xs: seq<T>, key: T -> string) {
    forall i, j :: 0 <= i < j < |xs| ==> TextLe(key(xs[i]), key(xs[j]))
  }

  /** Where an insertion puts `x`: after every item with a strictly smaller key, before the rest. */
  function TextPosition<T>(x: T, xs: seq<T>, key: T -> string): (p: nat)
    ensures p <= |xs|
    ensures forall i :: 0 <= i < p ==> !TextLe(key(x), key(xs[i]))
    ensures p < |xs| ==> TextLe(key(x), key(xs[p]))
  {
    if xs == [] || TextLe(key(x), key(xs[0])) then 0 else 1 + TextPosition(x, xs[1..], key)
  }

  function InsertByText<T>(x: T, xs: seq<T>, key: T -> string): (r: seq<T>)
    ensures multiset(r) == multiset(xs) + multiset{x}
  {
    var p := TextPosition(x, xs, key);
    assert xs == xs[..p] + xs[p..];
    xs[..p] + [x] + xs[p..]
  }

  lemma InsertByTextSorted<T>(x: T, xs: seq<T>, key: T -> string)
    requires SortedByText(xs, key)
    ensures SortedByText(InsertByText(x, xs, key), key)
  {
    var p := TextPosition(x, xs, key);
    var r := InsertByText(x, xs, key);
    forall i, j | 0 <= i < j < |r| ensures TextLe(key(r[i]), key(r[j])) {
      InsertedAt(x, xs, p, i);
      InsertedAt(x, xs, p, j);
      if i > p {
        assert TextLe(key(xs[i - 1]), key(xs[j - 1]));
      } else if i == p {
        if j - 1 > p {
          TextLeTransitive(key(x), key(xs[p]), key(xs[j - 1]));
        }
      } else if j == p {
        TextLeTotal(key(xs[i]), key(x));
      } else if j > p {
        TextLeTotal(key(xs[i]), key(x));
        TextLeTransitive(key(xs[i]), key(x), key(xs[p]));
        if j - 1 > p {
          TextLeTransitive(key(xs[i]), key(xs[p]), key(xs[j - 1]));
        }
      }
    }
  }

  /** `sorted(xs, key=key)` for a string key: the same items, in ascending key order. */
  function SortByText<T>(xs: seq<T>, key: T -> string): (r: seq<T>)
    ensures multiset(r) == multiset(xs)
    ensures SortedByText(r, key)
  {
    if xs == [] then []
    else
      assert xs == [xs[0]] + xs[1..];
      InsertByTextSorted(xs[0], SortByText(xs[1..], key), key);
      InsertByText(xs[0], SortByText(xs[1..], key), key)
  }

  /** Sorting by a string key keeps the number of items and which items there are. */
  lemma SortByTextKeepsItems<T>(xs: seq<T>, key: T -> string)
    ensures |SortByText(xs, key)| == |xs|
    ensures forall x :: x in SortByText(xs, key) <==> x in xs
  {
    var r := SortByText(xs, key);
    assert |r| == |multiset(r)| == |multiset(xs)|;
    forall x ensures x in r <==> x in xs {
      assert x in r <==> x in multiset(r);
    }
  }

  /** Sorted with distinct keys means strictly increasing keys. */
  lemma SortedDistinctIsStrict<T>(xs: seq<T>, key: T -> string, i: int, j: int)
    requires SortedByText(xs, key)
    requires 0 <= i < j < |xs| && key(xs[i]) != key(xs[j])
    ensures !TextLe(key(xs[j]), key(xs[i]))
  {
    if TextLe(key(xs[j]), key(xs[i])) {
      TextLeAntisymmetric(key(xs[i]), key(xs[j]));
    }
  }
}
