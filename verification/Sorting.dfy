/** Stable sorting by a small key. */
module Sorting {

  /** The elements with this key, in order. */
  function Keyed<T>(s: seq<T>, key: T -> nat, k: nat): seq<T> {
    if s == [] then []
    else Keyed(s[..|s| - 1], key, k) + if key(s[|s| - 1]) == k then [s[|s| - 1]] else []
  }

  /** The elements with keys below `n`, by key, and in order within a key. */
  function SortByKey<T>(s: seq<T>, key: T -> nat, n: nat): seq<T> {
    if n == 0 then [] else SortByKey(s, key, n - 1) + Keyed(s, key, n - 1)
  }

  ghost predicate Ascending<T>(s: seq<T>, key: T -> nat) { forall i, j :: 0 <= i < j < |s| ==> key(s[i]) <= key(s[j]) }

  ghost predicate Below<T>(s: seq<T>, key: T -> nat, n: nat) { forall i :: 0 <= i < |s| ==> key(s[i]) < n }

  /** What a stable sort promises. */
  ghost predicate StableSort<T>(r: seq<T>, s: seq<T>, key: T -> nat) {
    Ascending(r, key) && forall k: nat :: Keyed(r, key, k) == Keyed(s, key, k)
  }

  lemma {:induction false} KeyedAppend<T>(a: seq<T>, b: seq<T>, key: T -> nat, k: nat)
    ensures Keyed(a + b, key, k) == Keyed(a, key, k) + Keyed(b, key, k)
  {
    if b == [] {
      assert a + b == a;
    } else {
      KeyedAppend(a, b[..|b| - 1], key, k);
      assert (a + b)[..|a + b| - 1] == a + b[..|b| - 1];
    }
  }

  lemma {:induction false} KeyedHasKey<T>(s: seq<T>, key: T -> nat, k: nat)
    ensures forall i :: 0 <= i < |Keyed(s, key, k)| ==> key(Keyed(s, key, k)[i]) == k
  {
    if s != [] {
      KeyedHasKey(s[..|s| - 1], key, k);
    }
  }

  lemma KeyedMore<T>(s: seq<T>, x: T, key: T -> nat, k: nat)
    ensures Keyed(s + [x], key, k) == if key(x) == k then Keyed(s, key, k) + [x] else Keyed(s, key, k)
  {
    assert (s + [x])[..|s|] == s;
  }

  lemma {:induction false} KeyedOfKeyed<T>(s: seq<T>, key: T -> nat, k: nat, j: nat)
    ensures Keyed(Keyed(s, key, k), key, j) == if j == k then Keyed(s, key, k) else []
  {
    if s != [] {
      var init, last := s[..|s| - 1], s[|s| - 1];
      KeyedOfKeyed(init, key, k, j);
      assert Keyed(s, key, k) == if key(last) == k then Keyed(init, key, k) + [last] else Keyed(init, key, k);
      if key(last) == k {
        KeyedMore(Keyed(init, key, k), last, key, j);
      }
    }
  }

  lemma {:induction false} SortIsAscending<T>(s: seq<T>, key: T -> nat, n: nat)
    ensures Ascending(SortByKey(s, key, n), key) && Below(SortByKey(s, key, n), key, n)
  {
    hide Keyed;
    if n > 0 {
      SortIsAscending(s, key, n - 1);
      KeyedHasKey(s, key, n - 1);
    }
  }

  lemma KeyedOfParts<T>(a: seq<T>, b: seq<T>, key: T -> nat, k: nat)
    ensures Keyed(a, key, k) == [] ==> Keyed(a + b, key, k) == Keyed(b, key, k)
    ensures Keyed(b, key, k) == [] ==> Keyed(a + b, key, k) == Keyed(a, key, k)
  {
    KeyedAppend(a, b, key, k);
  }

  lemma KeyedOfNothing<T>(key: T -> nat, k: nat)
    ensures Keyed<T>([], key, k) == []
  {
  }

  lemma {:induction false} SortKeeps<T>(s: seq<T>, key: T -> nat, n: nat, k: nat)
    ensures Keyed(SortByKey(s, key, n), key, k) == if k < n then Keyed(s, key, k) else []
  {
    hide Keyed;
    if n == 0 {
      KeyedOfNothing(key, k);
    } else {
      SortKeeps(s, key, n - 1, k);
      KeyedOfParts(SortByKey(s, key, n - 1), Keyed(s, key, n - 1), key, k);
      KeyedOfKeyed(s, key, n - 1, k);
    }
  }

  /** An element with the greatest key sorts to the end. */
  lemma {:induction false} SortMore<T>(s: seq<T>, x: T, key: T -> nat, n: nat)
    requires Below(s, key, key(x) + 1)
    ensures SortByKey(s + [x], key, n) == SortByKey(s, key, n) + if key(x) < n then [x] else []
  {
    hide Keyed;
    if n > 0 {
      SortMore(s, x, key, n - 1);
      KeyedMore(s, x, key, n - 1);
      if key(x) < n - 1 {
        NoneAbove(s, key, n - 1);
      }
    }
  }

  lemma {:induction false} NoneAbove<T>(s: seq<T>, key: T -> nat, k: nat)
    requires Below(s, key, k)
    ensures Keyed(s, key, k) == []
  {
    if s != [] {
      NoneAbove(s[..|s| - 1], key, k);
    }
  }

  lemma {:induction false} AscendingIsSorted<T>(r: seq<T>, key: T -> nat, n: nat)
    requires Ascending(r, key) && Below(r, key, n)
    ensures SortByKey(r, key, n) == r
  {
    if r == [] {
      SortOfNothing<T>(key, n);
    } else {
      var init, last := r[..|r| - 1], r[|r| - 1];
      AscendingIsSorted(init, key, n);
      SortMore(init, last, key, n);
      assert init + [last] == r;
    }
  }

  lemma {:induction false} SortOfNothing<T>(key: T -> nat, n: nat)
    ensures SortByKey<T>([], key, n) == []
  {
    if n > 0 {
      SortOfNothing<T>(key, n - 1);
    }
  }

  lemma {:induction false} SortByBuckets<T>(r: seq<T>, s: seq<T>, key: T -> nat, n: nat)
    requires forall k: nat :: k < n ==> Keyed(r, key, k) == Keyed(s, key, k)
    ensures SortByKey(r, key, n) == SortByKey(s, key, n)
  {
    if n > 0 {
      SortByBuckets(r, s, key, n - 1);
    }
  }

  lemma {:induction false} SortLength<T>(s: seq<T>, key: T -> nat, n: nat)
    requires Below(s, key, n)
    ensures |SortByKey(s, key, n)| == |s|
  {
    if s == [] {
      SortOfNothing<T>(key, n);
    } else {
      SortLength(s[..|s| - 1], key, n);
      OneLonger(s, key, n);
    }
  }

  lemma {:induction false} OneLonger<T>(s: seq<T>, key: T -> nat, n: nat)
    requires s != []
    ensures |SortByKey(s, key, n)| == |SortByKey(s[..|s| - 1], key, n)| + if key(s[|s| - 1]) < n then 1 else 0
  {
    if n > 0 {
      OneLonger(s, key, n - 1);
    }
  }

  /** `SortByKey` is the only stable sort. */
  lemma StableSortIsUnique<T>(r: seq<T>, s: seq<T>, key: T -> nat, n: nat)
    requires Below(s, key, n) && Below(r, key, n)
    ensures StableSort(r, s, key) <==> r == SortByKey(s, key, n)
  {
    if StableSort(r, s, key) {
      AscendingIsSorted(r, key, n);
      SortByBuckets(r, s, key, n);
    }
    if r == SortByKey(s, key, n) {
      SortIsAscending(s, key, n);
      forall k: nat ensures Keyed(r, key, k) == Keyed(s, key, k) {
        SortKeeps(s, key, n, k);
        if k >= n {
          NoneAbove(s, key, k);
        }
      }
    }
  }
}
