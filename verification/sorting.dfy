/** A stable sort of a sequence by an integer key, ascending, and facts about taking a
    prefix of a sorted sequence. Both orderings the dashboard applies to the activity log
    (the database's `ORDER BY created_at DESC` and the controller's comparator sort) are
    instances of it. */
module Sorting {

  ghost predicate SortedBy<T>(s: seq<T>, key: T -> int) {
    forall i, j :: 0 <= i < j < |s| ==> key(s[i]) <= key(s[j])
  }

  /** Inserts `x` before the first element whose key is not smaller, so `x` precedes
      every element of equal key that it is inserted among. */
  function Insert<T>(x: T, s: seq<T>, key: T -> int): (r: seq<T>)
    requires SortedBy(s, key)
    ensures SortedBy(r, key)
    ensures multiset(r) == multiset(s) + multiset{x}
  {
    if |s| == 0 || key(x) <= key(s[0]) then
      ConsSorted(x, s, key);
      [x] + s
    else
      var rest := Insert(x, s[1..], key);
      LowerBoundByMultiset(s[0], rest, x, s[1..], key);
      ConsSorted(s[0], rest, key);
      assert s == [s[0]] + s[1..];
      [s[0]] + rest
  }

  lemma ConsSorted<T>(a: T, s: seq<T>, key: T -> int)
    requires SortedBy(s, key)
    requires forall i :: 0 <= i < |s| ==> key(a) <= key(s[i])
    ensures SortedBy([a] + s, key)
  {
    var r := [a] + s;
    forall i, j | 0 <= i < j < |r| ensures key(r[i]) <= key(r[j]) {
      if i > 0 {
        assert r[i] == s[i - 1] && r[j] == s[j - 1];
      } else {
        assert r[j] == s[j - 1];
      }
    }
  }

  /** A bound that holds for `x` and for every element of `s` holds for every element of
      any sequence with the same elements as `s` plus `x`. */
  lemma LowerBoundByMultiset<T>(a: T, r: seq<T>, x: T, s: seq<T>, key: T -> int)
    requires multiset(r) == multiset(s) + multiset{x}
    requires key(a) <= key(x)
    requires forall i :: 0 <= i < |s| ==> key(a) <= key(s[i])
    ensures forall i :: 0 <= i < |r| ==> key(a) <= key(r[i])
  {
    forall i | 0 <= i < |r| ensures key(a) <= key(r[i]) {
      assert r[i] in multiset(r);
      if r[i] != x {
        assert r[i] in multiset(s);
      }
    }
  }

  /** Insertion sort; ties keep their input order, as PHP 8's stable sort does. */
  function SortByKey<T>(s: seq<T>, key: T -> int): (r: seq<T>)
    ensures SortedBy(r, key)
    ensures multiset(r) == multiset(s)
    ensures |r| == |s|
  {
    if |s| == 0 then []
    else
      assert s == [s[0]] + s[1..];
      Insert(s[0], SortByKey(s[1..], key), key)
  }

  /** The first `n` elements of a sorted sequence have keys no greater than any element
      left out of them. */
  lemma {:induction false} PrefixHoldsSmallestKeys<T>(s: seq<T>, key: T -> int, n: nat, x: T, y: T)
    requires SortedBy(s, key)
    requires n <= |s|
    requires x in s[..n]
    requires y in multiset(s) - multiset(s[..n])
    ensures key(x) <= key(y)
  {
    assert s == s[..n] + s[n..];
    assert multiset(s) == multiset(s[..n]) + multiset(s[n..]);
    assert y in multiset(s[n..]);
    var i :| 0 <= i < n && s[..n][i] == x;
    var j :| 0 <= j < |s[n..]| && s[n..][j] == y;
    assert s[i] == x && s[n + j] == y;
  }

  /** A prefix keeps the order and holds a sub-multiset of the elements. */
  lemma PrefixOfSorted<T>(s: seq<T>, key: T -> int, n: nat)
    requires SortedBy(s, key)
    requires n <= |s|
    ensures SortedBy(s[..n], key)
    ensures multiset(s[..n]) <= multiset(s)
  {
    assert s == s[..n] + s[n..];
    assert multiset(s) == multiset(s[..n]) + multiset(s[n..]);
  }
}
