/** Ordering query results (lists of row ids) by a numeric key, as an `order_by` clause does. */
module Ordering {

  predicate SortedBy(s: seq<int>, key: int -> int) {
    forall i, j :: 0 <= i < j < |s| ==> key(s[i]) <= key(s[j])
  }

  /** Every row id occurs at most once. */
  predicate Distinct(s: seq<int>) {
    forall i, j :: 0 <= i < j < |s| ==> s[i] != s[j]
  }

  /** Putting a head no larger than any element in front of a sorted sequence keeps it sorted. */
  lemma ConsSorted(h: int, t: seq<int>, key: int -> int)
    requires SortedBy(t, key)
    requires forall y :: y in t ==> key(h) <= key(y)
    ensures SortedBy([h] + t, key)
  {
    var r := [h] + t;
    forall i, j | 0 <= i < j < |r| ensures key(r[i]) <= key(r[j]) {
      assert r[j] == t[j - 1];
      if i == 0 {
        assert t[j - 1] in t;
      } else {
        assert r[i] == t[i - 1];
      }
    }
  }

  /** Putting a new element in front of a duplicate-free sequence keeps it duplicate-free. */
  lemma ConsDistinct(h: int, t: seq<int>)
    ensures Distinct(t) && h !in t ==> Distinct([h] + t)
  {
    var r := [h] + t;
    if Distinct(t) && h !in t {
      forall i, j | 0 <= i < j < |r| ensures r[i] != r[j] {
        assert r[j] == t[j - 1];
        if i > 0 {
          assert r[i] == t[i - 1];
        }
      }
    }
  }

  /** In a sorted sequence the head has the smallest key. */
  lemma HeadSmallest(s: seq<int>, key: int -> int)
    requires SortedBy(s, key)
    ensures s != [] ==> forall y :: y in s ==> key(s[0]) <= key(y)
  {
    forall y | y in s ensures key(s[0]) <= key(y) {
      var m :| 0 <= m < |s| && s[m] == y;
    }
  }

  lemma TailSorted(s: seq<int>, key: int -> int)
    requires SortedBy(s, key) && s != []
    ensures SortedBy(s[1..], key)
  {
    var t := s[1..];
    forall i, j | 0 <= i < j < |t| ensures key(t[i]) <= key(t[j]) {
      assert t[i] == s[i + 1] && t[j] == s[j + 1];
    }
  }

  /** The tail of a duplicate-free sequence is duplicate-free and does not hold the head. */
  lemma TailDistinct(s: seq<int>)
    requires Distinct(s) && s != []
    ensures Distinct(s[1..]) && s[0] !in s[1..]
  {
    var t := s[1..];
    forall i, j | 0 <= i < j < |t| ensures t[i] != t[j] {
      assert t[i] == s[i + 1] && t[j] == s[j + 1];
    }
    forall m | 0 <= m < |t| ensures t[m] != s[0] {
      assert t[m] == s[m + 1];
    }
  }

  /**
   * Puts `x` into `s` after the leading elements with a smaller key; on a
   * sorted `s` that is after every element with a smaller key.
   */
  function InsertBy(s: seq<int>, x: int, key: int -> int): (r: seq<int>)
    ensures multiset(r) == multiset(s) + multiset{x}
  {
    if s == [] || key(x) <= key(s[0]) then
      [x] + s
    else
      assert s == [s[0]] + s[1..];
      [s[0]] + InsertBy(s[1..], x, key)
  }

  /** Inserting into a sorted sequence keeps it sorted. */
  lemma {:induction false} InsertBySorted(s: seq<int>, x: int, key: int -> int)
    requires SortedBy(s, key)
    ensures SortedBy(InsertBy(s, x, key), key)
  {
    HeadSmallest(s, key);
    if s == [] || key(x) <= key(s[0]) {
      ConsSorted(x, s, key);
    } else {
      TailSorted(s, key);
      InsertBySorted(s[1..], x, key);
      var rest := InsertBy(s[1..], x, key);
      forall y | y in rest ensures key(s[0]) <= key(y) {
        assert y in multiset(rest);
      }
      ConsSorted(s[0], rest, key);
    }
  }

  /** Inserting an element that is not yet there keeps the sequence free of duplicates. */
  lemma {:induction false} InsertByDistinct(s: seq<int>, x: int, key: int -> int)
    requires Distinct(s) && x !in s
    ensures Distinct(InsertBy(s, x, key))
    ensures forall y :: y in InsertBy(s, x, key) <==> y in s || y == x
  {
    var r := InsertBy(s, x, key);
    assert forall y :: y in r <==> y in multiset(r);
    if s != [] && key(s[0]) < key(x) {
      TailDistinct(s);
      InsertByDistinct(s[1..], x, key);
      assert s == [s[0]] + s[1..];
      ConsDistinct(s[0], InsertBy(s[1..], x, key));
    } else {
      ConsDistinct(x, s);
    }
  }
}
