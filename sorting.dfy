/** Python's `list.sort(key=key, reverse=True)`: a stable sort into descending
    key order. Elements whose keys compare equal keep their input order. The
    key order is any total preorder `le` (Python's `<=` on the key type). */
module Sorting {

  ghost predicate TotalPreorder<K(!new)>(le: (K, K) -> bool) {
    && (forall a, b :: le(a, b) || le(b, a))
    && (forall a, b, c :: le(a, b) && le(b, c) ==> le(a, c))
  }

  /** Every element's key is at least that of every later element. */
  ghost predicate SortedDesc<T, K>(s: seq<T>, key: T -> K, le: (K, K) -> bool) {
    forall i, j :: 0 <= i < j < |s| ==> le(key(s[j]), key(s[i]))
  }

  /** Places `x` after every element whose key is not smaller than its own. */
  function Insert<T, K>(s: seq<T>, x: T, key: T -> K, le: (K, K) -> bool): seq<T>
    decreases |s|
  {
    if s == [] then [x]
    else if le(key(x), key(s[0])) then [s[0]] + Insert(s[1..], x, key, le)
    else [x] + s
  }

  /** The sort, as insertion of each element in input order. */
  function SortDesc<T, K>(s: seq<T>, key: T -> K, le: (K, K) -> bool): seq<T>
    decreases |s|
  {
    if s == [] then [] else Insert(SortDesc(s[..|s| - 1], key, le), s[|s| - 1], key, le)
  }

  /** The elements of `s` whose key is equivalent to `k`, in order. */
  function KeyClass<T, K>(s: seq<T>, k: K, key: T -> K, le: (K, K) -> bool): seq<T>
    decreases |s|
  {
    if s == [] then []
    else (if le(key(s[0]), k) && le(k, key(s[0])) then [s[0]] else []) + KeyClass(s[1..], k, key, le)
  }

  lemma {:induction false} KeyClassConcat<T, K>(a: seq<T>, b: seq<T>, k: K, key: T -> K, le: (K, K) -> bool)
    ensures KeyClass(a + b, k, key, le) == KeyClass(a, k, key, le) + KeyClass(b, k, key, le)
    decreases |a|
  {
    if a == [] {
      assert a + b == b;
    } else {
      assert (a + b)[1..] == a[1..] + b;
      KeyClassConcat(a[1..], b, k, key, le);
    }
  }

  lemma {:induction false} InsertPermutation<T, K>(s: seq<T>, x: T, key: T -> K, le: (K, K) -> bool)
    ensures multiset(Insert(s, x, key, le)) == multiset(s) + multiset{x}
    decreases |s|
  {
    if s != [] && le(key(x), key(s[0])) {
      InsertPermutation(s[1..], x, key, le);
      assert s == [s[0]] + s[1..];
    }
  }

  lemma {:induction false} InsertSorted<T, K(!new)>(s: seq<T>, x: T, key: T -> K, le: (K, K) -> bool)
    requires TotalPreorder(le)
    requires SortedDesc(s, key, le)
    ensures SortedDesc(Insert(s, x, key, le), key, le)
    decreases |s|
  {
    if s != [] && le(key(x), key(s[0])) {
      SortedTail(s, key, le);
      InsertSorted(s[1..], x, key, le);
      var r := Insert(s, x, key, le);
      var t := Insert(s[1..], x, key, le);
      forall j | 0 < j < |r| ensures le(key(r[j]), key(r[0])) {
        assert r[j] == t[j - 1];
        InsertMember(s[1..], x, j - 1, key, le);
        if r[j] != x {
          var m :| 0 <= m < |s| - 1 && s[1..][m] == r[j];
          assert s[m + 1] == r[j];
        }
      }
    }
  }

  /** Every element of an insertion is the inserted one or one of the
      list's. */
  lemma InsertMember<T, K>(s: seq<T>, x: T, j: nat, key: T -> K, le: (K, K) -> bool)
    requires j < |Insert(s, x, key, le)|
    ensures var y := Insert(s, x, key, le)[j];
      y == x || exists m :: 0 <= m < |s| && s[m] == y
  {
    var t := Insert(s, x, key, le);
    InsertPermutation(s, x, key, le);
    assert t[j] in multiset(t);
    if t[j] != x {
      assert t[j] in multiset(s);
      assert t[j] in s;
    }
  }

  /** The sorted result is in descending key order. */
  lemma {:induction false} SortDescSorted<T, K(!new)>(s: seq<T>, key: T -> K, le: (K, K) -> bool)
    requires TotalPreorder(le)
    ensures SortedDesc(SortDesc(s, key, le), key, le)
    decreases |s|
  {
    if s != [] {
      SortDescSorted(s[..|s| - 1], key, le);
      InsertSorted(SortDesc(s[..|s| - 1], key, le), s[|s| - 1], key, le);
    }
  }

  /** The sorted result is a permutation of the input. */
  lemma {:induction false} SortDescPermutation<T, K>(s: seq<T>, key: T -> K, le: (K, K) -> bool)
    ensures multiset(SortDesc(s, key, le)) == multiset(s)
    decreases |s|
  {
    if s != [] {
      SortDescPermutation(s[..|s| - 1], key, le);
      InsertPermutation(SortDesc(s[..|s| - 1], key, le), s[|s| - 1], key, le);
      assert s == s[..|s| - 1] + [s[|s| - 1]];
    }
  }

  lemma {:induction false} KeyClassEmpty<T, K>(s: seq<T>, k: K, key: T -> K, le: (K, K) -> bool)
    requires forall i :: 0 <= i < |s| ==> !le(k, key(s[i]))
    ensures KeyClass(s, k, key, le) == []
    decreases |s|
  {
    if s != [] { KeyClassEmpty(s[1..], k, key, le); }
  }

  /** When `x` goes in front of a sorted list, no element of the list has a
      key equivalent to that of `x`. */
  lemma BelowHead<T, K(!new)>(s: seq<T>, x: T, k: K, i: nat, key: T -> K, le: (K, K) -> bool)
    requires TotalPreorder(le)
    requires SortedDesc(s, key, le)
    requires i < |s| && !le(key(x), key(s[0])) && le(key(x), k)
    ensures !le(k, key(s[i]))
  {
    var kx, ki, k0 := key(x), key(s[i]), key(s[0]);
    assert le(kx, k) && le(k, ki) ==> le(kx, ki);
    assert le(kx, ki) && le(ki, k0) ==> le(kx, k0);
  }

  lemma {:induction false} InsertStable<T, K(!new)>(s: seq<T>, x: T, k: K, key: T -> K, le: (K, K) -> bool)
    requires TotalPreorder(le)
    requires SortedDesc(s, key, le)
    ensures KeyClass(Insert(s, x, key, le), k, key, le)
         == KeyClass(s, k, key, le) + KeyClass([x], k, key, le)
    decreases |s|
  {
    if s == [] {
    } else if le(key(x), key(s[0])) {
      SortedTail(s, key, le);
      InsertStable(s[1..], x, k, key, le);
      var r := Insert(s, x, key, le);
      var head := if le(key(s[0]), k) && le(k, key(s[0])) then [s[0]] else [];
      assert r[0] == s[0] && r[1..] == Insert(s[1..], x, key, le);
      calc {
        KeyClass(r, k, key, le);
        head + KeyClass(Insert(s[1..], x, key, le), k, key, le);
        head + (KeyClass(s[1..], k, key, le) + KeyClass([x], k, key, le));
        (head + KeyClass(s[1..], k, key, le)) + KeyClass([x], k, key, le);
        KeyClass(s, k, key, le) + KeyClass([x], k, key, le);
      }
    } else {
      InsertInFront(s, x, k, key, le);
    }
  }

  /** The tail of a sorted list is sorted. */
  lemma SortedTail<T, K>(s: seq<T>, key: T -> K, le: (K, K) -> bool)
    requires s != [] && SortedDesc(s, key, le)
    ensures SortedDesc(s[1..], key, le)
  {
    forall i, j | 0 <= i < j < |s| - 1
      ensures le(key(s[1..][j]), key(s[1..][i]))
    {
      assert s[1..][j] == s[j + 1] && s[1..][i] == s[i + 1];
    }
  }

  /** When `x` goes in front, its key class gains `x` after the list's own
      members of the class, of which there are none. */
  lemma InsertInFront<T, K(!new)>(s: seq<T>, x: T, k: K, key: T -> K, le: (K, K) -> bool)
    requires TotalPreorder(le)
    requires SortedDesc(s, key, le)
    requires s != [] && !le(key(x), key(s[0]))
    ensures KeyClass(Insert(s, x, key, le), k, key, le)
         == KeyClass(s, k, key, le) + KeyClass([x], k, key, le)
  {
    if le(key(x), k) && le(k, key(x)) {
      forall i | 0 <= i < |s| ensures !le(k, key(s[i])) {
        BelowHead(s, x, k, i, key, le);
      }
      KeyClassEmpty(s, k, key, le);
    }
    KeyClassConcat([x], s, k, key, le);
  }

  /** Stability: for every key, the elements with that key appear in the
      result in the same order as in the input. */
  lemma {:induction false} SortDescStable<T, K(!new)>(s: seq<T>, k: K, key: T -> K, le: (K, K) -> bool)
    requires TotalPreorder(le)
    ensures KeyClass(SortDesc(s, key, le), k, key, le) == KeyClass(s, k, key, le)
    decreases |s|
  {
    if s != [] {
      var init := s[..|s| - 1];
      SortDescStable(init, k, key, le);
      SortDescSorted(init, key, le);
      InsertStable(SortDesc(init, key, le), s[|s| - 1], k, key, le);
      assert s == init + [s[|s| - 1]];
      KeyClassConcat(init, [s[|s| - 1]], k, key, le);
    }
  }

  lemma {:induction false} InsertAtEnd<T, K>(s: seq<T>, x: T, key: T -> K, le: (K, K) -> bool)
    requires forall i :: 0 <= i < |s| ==> le(key(x), key(s[i]))
    ensures Insert(s, x, key, le) == s + [x]
    decreases |s|
  {
    if s != [] {
      InsertAtEnd(s[1..], x, key, le);
      assert s == [s[0]] + s[1..];
    }
  }

  /** A list already in descending key order is left as it is. In particular
      a list whose keys are all equal is left as it is. */
  lemma {:induction false} SortDescOfSorted<T, K>(s: seq<T>, key: T -> K, le: (K, K) -> bool)
    requires SortedDesc(s, key, le)
    ensures SortDesc(s, key, le) == s
    decreases |s|
  {
    if s != [] {
      var init := s[..|s| - 1];
      assert SortedDesc(init, key, le);
      SortDescOfSorted(init, key, le);
      InsertAtEnd(init, s[|s| - 1], key, le);
    }
  }

  /** Python's `<=` on floats, restricted to non-NaN values. */
  function RealLe(): (le: (real, real) -> bool)
    ensures TotalPreorder(le)
  {
    (a: real, b: real) => a <= b
  }
}
