/** A stable sort by descending key, the behaviour of Python's
    `sorted(xs, key=key, reverse=True)`: the largest keys first, and
    elements with equal keys in the order they had in the input. The
    specification is stated independently of any algorithm; insertion sort
    meets it, and it admits exactly one output, so any stable descending
    sort returns what insertion sort returns. */
module StableSort {

  /** `s` is ordered by `key`, largest first. */
  ghost predicate NonIncreasing<T>(s: seq<T>, key: T -> int) {
    forall i, j :: 0 <= i < j < |s| ==> key(s[i]) >= key(s[j])
  }

  /** The elements of `s` whose key is `k`, in their order in `s`. */
  function WithKey<T>(s: seq<T>, key: T -> int, k: int): (r: seq<T>)
    ensures |r| <= |s|
    ensures forall i :: 0 <= i < |r| ==> key(r[i]) == k && r[i] in s
  {
    if s == [] then []
    else (if key(s[0]) == k then [s[0]] else []) + WithKey(s[1..], key, k)
  }

  /** `out` is `input` sorted by descending key, ties in input order. */
  ghost predicate IsStableDescending<T>(input: seq<T>, out: seq<T>, key: T -> int) {
    NonIncreasing(out, key) && forall k :: WithKey(out, key, k) == WithKey(input, key, k)
  }

  /** Puts `x` in front of the first element of `s` whose key does not
      exceed its own. */
  function Insert<T>(x: T, s: seq<T>, key: T -> int): (r: seq<T>)
    ensures multiset(r) == multiset(s) + multiset{x}
  {
    if s == [] || key(s[0]) <= key(x) then [x] + s
    else
      assert s == [s[0]] + s[1..];
      [s[0]] + Insert(x, s[1..], key)
  }

  /** Insertion sort by descending key. */
  function SortDescending<T>(s: seq<T>, key: T -> int): (r: seq<T>)
    ensures multiset(r) == multiset(s)
    ensures |r| == |s|
  {
    if s == [] then []
    else
      assert s == [s[0]] + s[1..];
      Insert(s[0], SortDescending(s[1..], key), key)
  }

  lemma WithKeyCons<T>(x: T, s: seq<T>, key: T -> int, k: int)
    ensures WithKey([x] + s, key, k) == (if key(x) == k then [x] else []) + WithKey(s, key, k)
  {
  }

  lemma {:induction false} InsertKeepsOrder<T>(x: T, s: seq<T>, key: T -> int)
    requires NonIncreasing(s, key)
    ensures NonIncreasing(Insert(x, s, key), key)
  {
    if s != [] && key(s[0]) > key(x) {
      var tail := s[1..];
      InsertKeepsOrder(x, tail, key);
      var t := Insert(x, tail, key);
      forall j | 0 <= j < |t|
        ensures key(t[j]) <= key(s[0])
      {
        assert t[j] in multiset(t);
        if t[j] != x {
          assert t[j] in multiset(tail);
          var i :| 0 <= i < |tail| && tail[i] == t[j];
          assert tail[i] == s[i + 1];
        }
      }
      assert Insert(x, s, key) == [s[0]] + t;
    }
  }

  /** Inserting `x` in front of the elements it does not outrank keeps every
      key group in input order. */
  lemma {:induction false} InsertWithKey<T>(x: T, s: seq<T>, key: T -> int, k: int)
    ensures WithKey(Insert(x, s, key), key, k) == WithKey([x] + s, key, k)
  {
    if s != [] && key(s[0]) > key(x) {
      var tail := s[1..];
      var inserted := Insert(x, tail, key);
      var headS := if key(s[0]) == k then [s[0]] else [];
      var headX := if key(x) == k then [x] else [];
      calc {
        WithKey(Insert(x, s, key), key, k);
        WithKey([s[0]] + inserted, key, k);
        { WithKeyCons(s[0], inserted, key, k); }
        headS + WithKey(inserted, key, k);
        { InsertWithKey(x, tail, key, k); WithKeyCons(x, tail, key, k); }
        headS + (headX + WithKey(tail, key, k));
        { DisjointHeadsCommute(headS, headX, WithKey(tail, key, k)); }
        headX + (headS + WithKey(tail, key, k));
        headX + WithKey(s, key, k);
        { WithKeyCons(x, s, key, k); }
        WithKey([x] + s, key, k);
      }
    }
  }

  lemma DisjointHeadsCommute<T>(a: seq<T>, b: seq<T>, rest: seq<T>)
    requires a == [] || b == []
    ensures a + (b + rest) == b + (a + rest)
  {
  }

  /** Insertion sort is a stable descending sort. */
  lemma {:induction false} SortDescendingIsStable<T>(s: seq<T>, key: T -> int)
    ensures IsStableDescending(s, SortDescending(s, key), key)
  {
    if s != [] {
      var t := SortDescending(s[1..], key);
      SortDescendingIsStable(s[1..], key);
      InsertKeepsOrder(s[0], t, key);
      forall k
        ensures WithKey(SortDescending(s, key), key, k) == WithKey(s, key, k)
      {
        InsertWithKey(s[0], t, key, k);
        WithKeyCons(s[0], t, key, k);
        assert s == [s[0]] + s[1..];
        WithKeyCons(s[0], s[1..], key, k);
      }
    }
  }

  lemma {:induction false} WithKeyHasElement<T>(s: seq<T>, key: T -> int, i: nat)
    requires i < |s|
    ensures WithKey(s, key, key(s[i])) != []
  {
    if i > 0 {
      WithKeyHasElement(s[1..], key, i - 1);
      assert s[1..][i - 1] == s[i];
    }
  }

  lemma NonEmptyHasGroup<T>(s: seq<T>, key: T -> int)
    requires s != []
    ensures WithKey(s, key, key(s[0])) != []
  {
  }

  /** In a sequence sorted by descending key, no element outranks the first. */
  lemma FirstIsGreatest<T>(s: seq<T>, key: T -> int, y: T)
    requires NonIncreasing(s, key)
    requires y in s
    ensures key(y) <= key(s[0])
  {
  }

  /** In a sequence sorted by descending key, nothing after the first `m`
      elements outranks any of them. */
  lemma RestNoGreater<T>(s: seq<T>, m: nat, key: T -> int)
    requires NonIncreasing(s, key) && m <= |s|
    ensures forall x, i :: x in multiset(s) - multiset(s[..m]) && 0 <= i < m ==> key(x) <= key(s[i])
  {
    assert s == s[..m] + s[m..];
    assert multiset(s) - multiset(s[..m]) == multiset(s[m..]);
    forall x, i | x in multiset(s[m..]) && 0 <= i < m
      ensures key(x) <= key(s[i])
    {
      var j :| 0 <= j < |s[m..]| && s[m..][j] == x;
      assert s[m + j] == x;
    }
  }

  /** Sorted sequences with the same key groups start with the same element:
      both start with the first element of the group of the largest key. */
  lemma SameGroupsSameFirst<T>(a: seq<T>, b: seq<T>, key: T -> int)
    requires a != [] && b != []
    requires NonIncreasing(a, key) && NonIncreasing(b, key)
    requires forall k :: WithKey(a, key, k) == WithKey(b, key, k)
    ensures a[0] == b[0]
  {
    var ka, kb := key(a[0]), key(b[0]);
    assert ka <= kb by {
      NonEmptyHasGroup(a, key);
      assert WithKey(b, key, ka) == WithKey(a, key, ka);
      FirstIsGreatest(b, key, WithKey(b, key, ka)[0]);
    }
    assert kb <= ka by {
      NonEmptyHasGroup(b, key);
      assert WithKey(a, key, kb) == WithKey(b, key, kb);
      FirstIsGreatest(a, key, WithKey(a, key, kb)[0]);
    }
    assert WithKey(a, key, ka)[0] == a[0];
    assert WithKey(b, key, kb)[0] == b[0];
    assert WithKey(a, key, ka) == WithKey(b, key, kb);
  }

  /** Removing a common first element keeps the key groups equal. */
  lemma SameGroupsAfterFirst<T>(a: seq<T>, b: seq<T>, key: T -> int)
    requires a != [] && b != [] && a[0] == b[0]
    requires forall k :: WithKey(a, key, k) == WithKey(b, key, k)
    ensures forall k :: WithKey(a[1..], key, k) == WithKey(b[1..], key, k)
  {
    forall k
      ensures WithKey(a[1..], key, k) == WithKey(b[1..], key, k)
    {
      var head := if key(a[0]) == k then [a[0]] else [];
      assert WithKey(a, key, k) == head + WithKey(a[1..], key, k);
      assert WithKey(b, key, k) == head + WithKey(b[1..], key, k);
      assert WithKey(a[1..], key, k) == (head + WithKey(a[1..], key, k))[|head|..];
      assert WithKey(b[1..], key, k) == (head + WithKey(b[1..], key, k))[|head|..];
    }
  }

  /** Two sequences sorted by descending key with the same key groups are
      equal: the specification determines the output. */
  lemma {:induction false} SameGroupsSameSequence<T>(a: seq<T>, b: seq<T>, key: T -> int)
    requires NonIncreasing(a, key) && NonIncreasing(b, key)
    requires forall k :: WithKey(a, key, k) == WithKey(b, key, k)
    ensures a == b
    decreases |a|
  {
    if a == [] || b == [] {
      if a != b {
        NonEmptyHasGroup(if a == [] then b else a, key);
        assert false;
      }
    } else {
      SameGroupsSameFirst(a, b, key);
      SameGroupsAfterFirst(a, b, key);
      SameGroupsSameSequence(a[1..], b[1..], key);
      assert a == [a[0]] + a[1..] && b == [b[0]] + b[1..];
    }
  }

  /** Any stable descending sort of `input` is insertion sort's result. */
  lemma StableDescendingIsUnique<T>(input: seq<T>, out: seq<T>, key: T -> int)
    requires IsStableDescending(input, out, key)
    ensures out == SortDescending(input, key)
  {
    SortDescendingIsStable(input, key);
    SameGroupsSameSequence(out, SortDescending(input, key), key);
  }

  /** The key groups of a prefix are prefixes of the key groups. */
  lemma {:induction false} WithKeyOfPrefix<T>(s: seq<T>, m: nat, key: T -> int, k: int)
    requires m <= |s|
    ensures WithKey(s[..m], key, k) <= WithKey(s, key, k)
  {
    if m > 0 {
      var tail := s[1..];
      var head := if key(s[0]) == k then [s[0]] else [];
      WithKeyOfPrefix(tail, m - 1, key, k);
      assert s[..m] == [s[0]] + tail[..m - 1];
      WithKeyCons(s[0], tail[..m - 1], key, k);
      assert WithKey(s, key, k) == head + WithKey(tail, key, k);
      assert WithKey(s[..m], key, k) == head + WithKey(tail[..m - 1], key, k);
      PrefixUnderHead(head, WithKey(tail[..m - 1], key, k), WithKey(tail, key, k));
    }
  }

  lemma PrefixUnderHead<T>(head: seq<T>, p: seq<T>, q: seq<T>)
    requires p <= q
    ensures head + p <= head + q
  {
    assert head + q == (head + p) + q[|p|..];
  }
}
