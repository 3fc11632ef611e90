/** Stable sorting by an integer key: what `sort.SliceStable` promises, stated
    without naming an algorithm, and the insertion step that keeps the promise. */
module StableOrder {

  ghost predicate Sorted<T>(s: seq<T>, key: T -> int) {
    forall i, j :: 0 <= i < j < |s| ==> key(s[i]) <= key(s[j])
  }

  /** The elements of `s` with key `k`, in their order in `s`. */
  function WithKey<T>(s: seq<T>, key: T -> int, k: int): seq<T> {
    if s == [] then []
    else
      var last := s[|s| - 1];
      WithKey(s[..|s| - 1], key, k) + (if key(last) == k then [last] else [])
  }

  /** `sorted` is a stable sort of `s`: ordered, and equal keys keep their order. */
  ghost predicate StableSortOf<T>(sorted: seq<T>, s: seq<T>, key: T -> int) {
    Sorted(sorted, key) && forall k :: WithKey(sorted, key, k) == WithKey(s, key, k)
  }

  lemma {:induction false} WithKeyConcat<T>(a: seq<T>, b: seq<T>, key: T -> int, k: int)
    ensures WithKey(a + b, key, k) == WithKey(a, key, k) + WithKey(b, key, k)
  {
    if b == [] {
      assert a + b == a;
    } else {
      assert (a + b)[..|a + b| - 1] == a + b[..|b| - 1];
      WithKeyConcat(a, b[..|b| - 1], key, k);
    }
  }

  lemma {:induction false} WithKeyMember<T>(s: seq<T>, key: T -> int, k: int, x: T)
    ensures x in WithKey(s, key, k) <==> x in s && key(x) == k
  {
    if s != [] {
      assert s == s[..|s| - 1] + [s[|s| - 1]];
      WithKeyMember(s[..|s| - 1], key, k, x);
    }
  }

  lemma {:induction false} WithKeyCount<T>(s: seq<T>, key: T -> int, x: T)
    ensures multiset(WithKey(s, key, key(x)))[x] == multiset(s)[x]
  {
    if s != [] {
      assert s == s[..|s| - 1] + [s[|s| - 1]];
      WithKeyCount(s[..|s| - 1], key, x);
    }
  }

  /** A stable sort is a permutation. */
  lemma StableSortIsPermutation<T>(sorted: seq<T>, s: seq<T>, key: T -> int)
    requires StableSortOf(sorted, s, key)
    ensures multiset(sorted) == multiset(s)
    ensures |sorted| == |s|
    ensures forall x :: x in sorted <==> x in s
  {
    forall x: T
      ensures multiset(sorted)[x] == multiset(s)[x]
    {
      WithKeyCount(sorted, key, x);
      WithKeyCount(s, key, x);
    }
    assert multiset(sorted) == multiset(s);
    assert |multiset(sorted)| == |multiset(s)|;
    assert forall x :: x in sorted <==> x in multiset(sorted);
    assert forall x :: x in s <==> x in multiset(s);
  }

  /** Two sorted sequences with the same key classes end in the same element. */
  lemma SameLast<T>(a: seq<T>, b: seq<T>, s: seq<T>, key: T -> int)
    requires StableSortOf(a, s, key) && StableSortOf(b, s, key)
    requires a != [] && b != []
    ensures a[|a| - 1] == b[|b| - 1]
  {
    var x, y := a[|a| - 1], b[|b| - 1];
    WithKeyMember(b, key, key(x), x);
    WithKeyMember(a, key, key(y), y);
    WithKeyMember(a, key, key(x), x);
    WithKeyMember(b, key, key(y), y);
    assert key(x) == key(y);
    var c := WithKey(s, key, key(x));
    assert WithKey(a, key, key(x)) == c && WithKey(b, key, key(x)) == c;
    assert c[|c| - 1] == x && c[|c| - 1] == y;
  }

  /** "The" stable sort: the two promises leave no choice. */
  lemma {:induction false} StableSortUnique<T>(a: seq<T>, b: seq<T>, s: seq<T>, key: T -> int)
    requires StableSortOf(a, s, key) && StableSortOf(b, s, key)
    ensures a == b
    decreases |a|
  {
    StableSortIsPermutation(a, s, key);
    StableSortIsPermutation(b, s, key);
    if a != [] {
      SameLast(a, b, s, key);
      var a', b' := a[..|a| - 1], b[..|b| - 1];
      forall k ensures WithKey(a', key, k) == WithKey(b', key, k) {
        var tail := if key(a[|a| - 1]) == k then [a[|a| - 1]] else [];
        assert WithKey(a, key, k) == WithKey(s, key, k) == WithKey(b, key, k);
        assert WithKey(a', key, k) + tail == WithKey(b', key, k) + tail;
        assert WithKey(a', key, k) == (WithKey(a', key, k) + tail)[..|WithKey(a', key, k)|];
      }
      StableSortUnique(a', b', b', key);
      assert a == a' + [a[|a| - 1]] && b == b' + [b[|b| - 1]];
    }
  }

  /** `i` is where an element of key `k` goes after its equals. */
  ghost predicate InsertionPoint<T>(s: seq<T>, key: T -> int, k: int, i: int) {
    && 0 <= i <= |s|
    && (forall j :: 0 <= j < i ==> key(s[j]) <= k)
    && (forall j :: i <= j < |s| ==> k < key(s[j]))
  }

  lemma InsertKeepsClass<T>(a: seq<T>, b: seq<T>, key: T -> int, x: T, k: int)
    requires forall j :: 0 <= j < |b| ==> key(x) < key(b[j])
    ensures WithKey(a + [x] + b, key, k) == WithKey(a + b + [x], key, k)
  {
    WithKeyConcat(a + [x], b, key, k);
    WithKeyConcat(a, [x], key, k);
    WithKeyConcat(a + b, [x], key, k);
    WithKeyConcat(a, b, key, k);
    if k == key(x) && WithKey(b, key, k) != [] {
      WithKeyMember(b, key, k, WithKey(b, key, k)[0]);
      assert false;
    }
  }

  lemma InsertKeepsStable<T>(sorted: seq<T>, s: seq<T>, key: T -> int, x: T, i: int)
    requires StableSortOf(sorted, s, key) && InsertionPoint(sorted, key, key(x), i)
    ensures StableSortOf(sorted[..i] + [x] + sorted[i..], s + [x], key)
  {
    var a, b := sorted[..i], sorted[i..];
    assert sorted == a + b;
    forall k ensures WithKey(a + [x] + b, key, k) == WithKey(s + [x], key, k) {
      InsertKeepsClass(a, b, key, x, k);
      WithKeyConcat(a + b, [x], key, k);
      WithKeyConcat(s, [x], key, k);
    }
  }

  /** Position after the last element whose key is at most `k`. */
  function UpperBound<T>(s: seq<T>, key: T -> int, k: int): (i: nat)
    ensures i <= |s|
    ensures forall j :: i <= j < |s| ==> k < key(s[j])
    ensures i > 0 ==> key(s[i - 1]) <= k
  {
    if s == [] then 0
    else if key(s[|s| - 1]) <= k then |s|
    else UpperBound(s[..|s| - 1], key, k)
  }

  function StableSort<T>(s: seq<T>, key: T -> int): (r: seq<T>)
    ensures StableSortOf(r, s, key)
  {
    if s == [] then []
    else
      var x := s[|s| - 1];
      var t := StableSort(s[..|s| - 1], key);
      var i := UpperBound(t, key, key(x));
      assert StableSortOf(t[..i] + [x] + t[i..], s, key) by {
        assert s == s[..|s| - 1] + [x];
        InsertKeepsStable(t, s[..|s| - 1], key, x, i);
      }
      t[..i] + [x] + t[i..]
  }
}
