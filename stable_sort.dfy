/** A stable sort by a real-valued key, the behaviour of Python's `list.sort(key=...)`
    and of an ORDER BY over rows that arrive in table order. Descending order
    (`reverse=True`, which Python also keeps stable) is the ascending sort by the
    negated key. */
module StableSort {

  /** `s` is non-decreasing in `key`. */
  ghost predicate Sorted<T>(s: seq<T>, key: T -> real) {
    forall i, j :: 0 <= i < j < |s| ==> key(s[i]) <= key(s[j])
  }

  /** The elements of `s` whose key is `v`, in their order in `s`. */
  function KeyClass<T>(s: seq<T>, key: T -> real, v: real): seq<T>
    decreases |s|
  {
    if |s| == 0 then []
    else (if key(s[0]) == v then [s[0]] else []) + KeyClass(s[1..], key, v)
  }

  /** Places `x` in front of the first element whose key is not smaller than its own,
      so that `x` stays ahead of the elements with an equal key. */
  function Insert<T>(x: T, s: seq<T>, key: T -> real): seq<T>
    decreases |s|
  {
    if |s| == 0 || key(x) <= key(s[0]) then [x] + s
    else [s[0]] + Insert(x, s[1..], key)
  }

  /** Stable insertion sort: the reference definition of the sorts in this model. */
  function SortBy<T>(s: seq<T>, key: T -> real): seq<T>
    decreases |s|
  {
    if |s| == 0 then [] else Insert(s[0], SortBy(s[1..], key), key)
  }

  /** Inserting adds exactly `x`. */
  lemma {:induction false} InsertPermutation<T>(x: T, s: seq<T>, key: T -> real)
    ensures multiset(Insert(x, s, key)) == multiset(s) + multiset{x}
    decreases |s|
  {
    if |s| == 0 || key(x) <= key(s[0]) {
      assert Insert(x, s, key) == [x] + s;
    } else {
      InsertPermutation(x, s[1..], key);
      assert s == [s[0]] + s[1..];
      assert Insert(x, s, key) == [s[0]] + Insert(x, s[1..], key);
    }
  }

  /** Inserting into an ordered sequence keeps it ordered. */
  lemma {:induction false} InsertSorted<T>(x: T, s: seq<T>, key: T -> real)
    requires Sorted(s, key)
    ensures Sorted(Insert(x, s, key), key)
    decreases |s|
  {
    if |s| == 0 || key(x) <= key(s[0]) {
      assert Insert(x, s, key) == [x] + s;
    } else {
      var t := Insert(x, s[1..], key);
      InsertSorted(x, s[1..], key);
      InsertPermutation(x, s[1..], key);
      assert Insert(x, s, key) == [s[0]] + t;
      forall j | 0 <= j < |t| ensures key(s[0]) <= key(t[j]) {
        assert t[j] in multiset(t);
        if t[j] != x {
          assert t[j] in multiset(s[1..]);
          var k :| 0 <= k < |s[1..]| && s[1..][k] == t[j];
          assert s[k + 1] == t[j];
        }
      }
    }
  }

  lemma {:induction false} InsertClass<T>(x: T, s: seq<T>, key: T -> real, v: real)
    ensures KeyClass(Insert(x, s, key), key, v)
            == (if key(x) == v then [x] else []) + KeyClass(s, key, v)
    decreases |s|
  {
    if |s| == 0 || key(x) <= key(s[0]) {
      assert Insert(x, s, key) == [x] + s;
      assert ([x] + s)[1..] == s;
    } else {
      InsertClass(x, s[1..], key, v);
      var t := Insert(x, s[1..], key);
      assert ([s[0]] + t)[1..] == t;
      var cx: seq<T> := if key(x) == v then [x] else [];
      var c0: seq<T> := if key(s[0]) == v then [s[0]] else [];
      assert KeyClass(s, key, v) == c0 + KeyClass(s[1..], key, v);
      assert KeyClass(Insert(x, s, key), key, v) == c0 + (cx + KeyClass(s[1..], key, v));
      // key(s[0]) < key(x), so at most one of the two is in the class of v
      assert c0 == [] || cx == [];
    }
  }

  /** The sorted sequence is ordered and a permutation of its input. */
  lemma {:induction false} SortByOrderedPermutation<T>(s: seq<T>, key: T -> real)
    ensures Sorted(SortBy(s, key), key)
    ensures multiset(SortBy(s, key)) == multiset(s)
    decreases |s|
  {
    if |s| > 0 {
      SortByOrderedPermutation(s[1..], key);
      InsertPermutation(s[0], SortBy(s[1..], key), key);
      InsertSorted(s[0], SortBy(s[1..], key), key);
      assert s == [s[0]] + s[1..];
    }
  }

  /** Stability: for every key value, the elements with that key come out in their
      input order. Together with `SortByOrderedPermutation` this fixes the result. */
  lemma {:induction false} SortByStable<T>(s: seq<T>, key: T -> real, v: real)
    ensures KeyClass(SortBy(s, key), key, v) == KeyClass(s, key, v)
    decreases |s|
  {
    if |s| > 0 {
      SortByStable(s[1..], key, v);
      InsertClass(s[0], SortBy(s[1..], key), key, v);
    }
  }

  /** An input that is already ordered comes out unchanged. */
  lemma {:induction false} SortByOfSorted<T>(s: seq<T>, key: T -> real)
    requires Sorted(s, key)
    ensures SortBy(s, key) == s
    decreases |s|
  {
    if |s| > 0 {
      assert Sorted(s[1..], key) by {
        forall i, j | 0 <= i < j < |s[1..]| ensures key(s[1..][i]) <= key(s[1..][j]) {
          assert s[1..][i] == s[i + 1] && s[1..][j] == s[j + 1];
        }
      }
      SortByOfSorted(s[1..], key);
      assert s == [s[0]] + s[1..];
    }
  }

  /** Taking a prefix keeps, for each key, a prefix of that key's elements. */
  lemma {:induction false} KeyClassOfPrefix<T>(s: seq<T>, n: nat, key: T -> real, v: real)
    requires n <= |s|
    ensures |KeyClass(s[..n], key, v)| <= |KeyClass(s, key, v)|
    ensures KeyClass(s[..n], key, v) == KeyClass(s, key, v)[..|KeyClass(s[..n], key, v)|]
    decreases |s|
  {
    if n > 0 {
      KeyClassOfPrefix(s[1..], n - 1, key, v);
      assert s[..n][1..] == s[1..][..n - 1];
    }
  }
}
