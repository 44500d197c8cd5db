/** A stable insertion sort by an integer key, standing for the store's `orderBy`. */
module Sorting {

  /** `s` is ordered by `key`, smallest key first. */
  ghost predicate SortedBy<T>(s: seq<T>, key: T -> int) {
    forall i, j :: 0 <= i < j < |s| ==> key(s[i]) <= key(s[j])
  }

  /** No element of `s` has a key larger than `k`. */
  ghost predicate KeysAtMost<T>(s: seq<T>, key: T -> int, k: int) {
    forall i :: 0 <= i < |s| ==> key(s[i]) <= k
  }

  /** Appending an element whose key bounds every key keeps a sequence ordered. */
  lemma SortedAppend<T>(s: seq<T>, x: T, key: T -> int)
    requires SortedBy(s, key) && KeysAtMost(s, key, key(x))
    ensures SortedBy(s + [x], key)
  {
    forall i, j | 0 <= i < j < |s + [x]|
      ensures key((s + [x])[i]) <= key((s + [x])[j])
    {
      if j == |s| {
        assert (s + [x])[i] == s[i];
      }
    }
  }

  /** Where `x` goes in the ordered `s`: after every element whose key is not larger. */
  function InsertPosition<T>(s: seq<T>, x: T, key: T -> int): (k: nat)
    requires SortedBy(s, key)
    ensures k <= |s|
    ensures forall i :: 0 <= i < k ==> key(s[i]) <= key(x)
    ensures forall i :: k <= i < |s| ==> key(x) < key(s[i])
  {
    if |s| == 0 || key(s[|s| - 1]) <= key(x) then |s|
    else InsertPosition(s[..|s| - 1], x, key)
  }

  /** `x` placed into the ordered `s`, keeping it ordered and losing nothing. */
  function Insert<T>(s: seq<T>, x: T, key: T -> int): (r: seq<T>)
    requires SortedBy(s, key)
    ensures SortedBy(r, key)
    ensures multiset(r) == multiset(s) + multiset{x}
    ensures KeysAtMost(s, key, key(x)) ==> r == s + [x]
  {
    var k := InsertPosition(s, x, key);
    assert s == s[..k] + s[k..];
    if k == |s| then
      SortedAppend(s, x, key);
      s + [x]
    else
      assert !KeysAtMost(s, key, key(x)) by {
        assert key(x) < key(s[k]);
      }
      InsertedInOrder(s, x, key, k);
      s[..k] + [x] + s[k..]
  }

  /** Placing `x` between the elements whose keys are not larger and those whose keys are keeps
      an ordered sequence ordered. */
  lemma InsertedInOrder<T>(s: seq<T>, x: T, key: T -> int, k: nat)
    requires SortedBy(s, key) && k <= |s|
    requires forall i :: 0 <= i < k ==> key(s[i]) <= key(x)
    requires forall i :: k <= i < |s| ==> key(x) < key(s[i])
    ensures SortedBy(s[..k] + [x] + s[k..], key)
  {
    var r := s[..k] + [x] + s[k..];
    forall i | 0 <= i < |r|
      ensures r[i] == if i < k then s[i] else if i == k then x else s[i - 1]
    {
    }
    forall i, j | 0 <= i < j < |r|
      ensures key(r[i]) <= key(r[j])
    {
    }
  }

  /** The elements of `s` ordered by `key`: a permutation of `s`, sorted by key. */
  function SortBy<T>(s: seq<T>, key: T -> int): (r: seq<T>)
    ensures SortedBy(r, key)
    ensures multiset(r) == multiset(s)
    ensures |r| == |s|
  {
    if |s| == 0 then []
    else
      var init := s[..|s| - 1];
      assert s == init + [s[|s| - 1]];
      Insert(SortBy(init, key), s[|s| - 1], key)
  }

  /** Sorting an already ordered sequence leaves it as it is. */
  lemma {:induction false} SortSorted<T>(s: seq<T>, key: T -> int)
    requires SortedBy(s, key)
    ensures SortBy(s, key) == s
  {
    if |s| > 0 {
      var init := s[..|s| - 1];
      SortSorted(init, key);
      assert KeysAtMost(init, key, key(s[|s| - 1]));
      assert s == init + [s[|s| - 1]];
    }
  }
}
