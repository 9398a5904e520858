/** The stable sort by timestamp that every indicator applies to a copy of its
    input (`Vec::sort_by_key`, which keeps equal keys in their original order).
    It is modelled by its result: insertion of each element, in input order,
    after every element whose key is not greater. The lemmas show the result is
    sorted, a permutation of the input, stable, and the only sequence with those
    three properties. */
module StableSort {

  /** Adjacent elements are in non-decreasing key order. */
  ghost predicate SortedBy<T>(s: seq<T>, key: T -> int) {
    forall i :: 0 < i < |s| ==> key(s[i - 1]) <= key(s[i])
  }

  /** Adjacent elements are in strictly increasing key order. */
  ghost predicate StrictlySortedBy<T>(s: seq<T>, key: T -> int) {
    forall i :: 0 < i < |s| ==> key(s[i - 1]) < key(s[i])
  }

  /** No two positions carry the same key (all timestamps differ). */
  ghost predicate DistinctKeys<T>(s: seq<T>, key: T -> int) {
    forall i, j :: 0 <= i < j < |s| ==> key(s[i]) != key(s[j])
  }

  /** Insert `x` after every element of `s` whose key is at most `key(x)`. */
  function InsertBy<T>(s: seq<T>, x: T, key: T -> int): seq<T>
    decreases |s|
  {
    if |s| == 0 || key(s[|s| - 1]) <= key(x) then s + [x]
    else InsertBy(s[..|s| - 1], x, key) + [s[|s| - 1]]
  }

  /** The stable sort of `s` by `key`. */
  function SortBy<T>(s: seq<T>, key: T -> int): seq<T>
    decreases |s|
  {
    if |s| == 0 then [] else InsertBy(SortBy(s[..|s| - 1], key), s[|s| - 1], key)
  }

  /** The elements of `s` whose key is `k`, in their order in `s`. */
  function WithKey<T>(s: seq<T>, key: T -> int, k: int): seq<T>
    decreases |s|
  {
    if |s| == 0 then []
    else WithKey(s[..|s| - 1], key, k) + (if key(s[|s| - 1]) == k then [s[|s| - 1]] else [])
  }

  // ---------------------------------------------------------------------
  // Facts about the building blocks

  lemma SortedByOrder<T>(s: seq<T>, key: T -> int, i: int, j: int)
    requires SortedBy(s, key) && 0 <= i <= j < |s|
    ensures key(s[i]) <= key(s[j])
    decreases j - i
  {
    if i < j {
      SortedByOrder(s, key, i, j - 1);
    }
  }

  lemma StrictlySortedByOrder<T>(s: seq<T>, key: T -> int, i: int, j: int)
    requires StrictlySortedBy(s, key) && 0 <= i < j < |s|
    ensures key(s[i]) < key(s[j])
    decreases j - i
  {
    if i < j - 1 {
      StrictlySortedByOrder(s, key, i, j - 1);
    }
  }

  lemma {:induction false} InsertByFacts<T>(s: seq<T>, x: T, key: T -> int)
    ensures |InsertBy(s, x, key)| == |s| + 1
    ensures multiset(InsertBy(s, x, key)) == multiset(s) + multiset{x}
    ensures var r := InsertBy(s, x, key);
      r[|r| - 1] == x || (|s| > 0 && r[|r| - 1] == s[|s| - 1])
    decreases |s|
  {
    if |s| == 0 || key(s[|s| - 1]) <= key(x) {
    } else {
      var init := s[..|s| - 1];
      InsertByFacts(init, x, key);
      assert s == init + [s[|s| - 1]];
    }
  }

  lemma {:induction false} InsertBySorted<T>(s: seq<T>, x: T, key: T -> int)
    requires SortedBy(s, key)
    ensures SortedBy(InsertBy(s, x, key), key)
    decreases |s|
  {
    if |s| == 0 || key(s[|s| - 1]) <= key(x) {
    } else {
      var init := s[..|s| - 1];
      InsertBySorted(init, x, key);
      InsertByFacts(init, x, key);
      var r := InsertBy(init, x, key);
      if |init| > 0 {
        SortedByOrder(s, key, |init| - 1, |s| - 1);
      }
      assert key(r[|r| - 1]) <= key(s[|s| - 1]);
    }
  }

  lemma {:induction false} InsertByStrict<T>(s: seq<T>, x: T, key: T -> int)
    requires StrictlySortedBy(s, key)
    requires forall i :: 0 <= i < |s| ==> key(s[i]) != key(x)
    ensures StrictlySortedBy(InsertBy(s, x, key), key)
    decreases |s|
  {
    if |s| == 0 || key(s[|s| - 1]) <= key(x) {
    } else {
      var init := s[..|s| - 1];
      InsertByStrict(init, x, key);
      InsertByFacts(init, x, key);
      var r := InsertBy(init, x, key);
      if |init| > 0 {
        assert key(init[|init| - 1]) < key(s[|s| - 1]);
      }
      assert key(r[|r| - 1]) < key(s[|s| - 1]);
    }
  }

  lemma WithKeySnoc<T>(s: seq<T>, y: T, key: T -> int, k: int)
    ensures WithKey(s + [y], key, k) == WithKey(s, key, k) + (if key(y) == k then [y] else [])
  {
    assert (s + [y])[..|s|] == s;
  }

  lemma {:induction false} WithKeyAppend<T>(a: seq<T>, b: seq<T>, key: T -> int, k: int)
    ensures WithKey(a + b, key, k) == WithKey(a, key, k) + WithKey(b, key, k)
    decreases |b|
  {
    if |b| == 0 {
      assert a + b == a;
    } else {
      var y := b[|b| - 1];
      var binit := b[..|b| - 1];
      assert a + b == (a + binit) + [y];
      assert b == binit + [y];
      WithKeySnoc(a + binit, y, key, k);
      WithKeySnoc(binit, y, key, k);
      WithKeyAppend(a, binit, key, k);
    }
  }

  lemma {:induction false} InsertByWithKey<T>(s: seq<T>, x: T, key: T -> int, k: int)
    ensures WithKey(InsertBy(s, x, key), key, k) == WithKey(s, key, k) + (if key(x) == k then [x] else [])
    decreases |s|
  {
    if |s| == 0 || key(s[|s| - 1]) <= key(x) {
      WithKeySnoc(s, x, key, k);
    } else {
      var init := s[..|s| - 1];
      var last := s[|s| - 1];
      InsertByWithKey(init, x, key, k);
      WithKeySnoc(InsertBy(init, x, key), last, key, k);
      assert s == init + [last];
      WithKeySnoc(init, last, key, k);
    }
  }

  /** A key that is in `WithKey(s, key, k)` belongs to an element of `s` with key `k`. */
  lemma {:induction false} WithKeyElements<T>(s: seq<T>, key: T -> int, k: int)
    ensures forall y :: y in WithKey(s, key, k) ==> y in s && key(y) == k
    decreases |s|
  {
    if |s| > 0 {
      WithKeyElements(s[..|s| - 1], key, k);
    }
  }

  lemma {:induction false} WithKeyHas<T>(s: seq<T>, key: T -> int, i: int)
    requires 0 <= i < |s|
    ensures s[i] in WithKey(s, key, key(s[i]))
    decreases |s|
  {
    var init := s[..|s| - 1];
    var w := WithKey(init, key, key(s[i]));
    if i < |s| - 1 {
      assert init[i] == s[i];
      WithKeyHas(init, key, i);
      assert s[i] in w;
    }
    assert WithKey(s, key, key(s[i])) == w + (if key(s[|s| - 1]) == key(s[i]) then [s[|s| - 1]] else []);
  }

  // ---------------------------------------------------------------------
  // The three defining properties of the sort

  /** The sort returns a sequence in non-decreasing key order. */
  lemma {:induction false} SortBySorted<T>(s: seq<T>, key: T -> int)
    ensures SortedBy(SortBy(s, key), key)
    decreases |s|
  {
    if |s| > 0 {
      SortBySorted(s[..|s| - 1], key);
      InsertBySorted(SortBy(s[..|s| - 1], key), s[|s| - 1], key);
    }
  }

  /** The sort returns a permutation of its input. */
  lemma {:induction false} SortByPermutation<T>(s: seq<T>, key: T -> int)
    ensures |SortBy(s, key)| == |s|
    ensures multiset(SortBy(s, key)) == multiset(s)
    decreases |s|
  {
    if |s| > 0 {
      var init, x := s[..|s| - 1], s[|s| - 1];
      var t := SortBy(init, key);
      SortByPermutation(init, key);
      InsertByFacts(t, x, key);
      assert SortBy(s, key) == InsertBy(t, x, key);
      assert multiset(s) == multiset(init) + multiset{x} by {
        assert s == init + [x];
      }
    }
  }

  /** The sort is stable: the elements that share a key keep their input order. */
  lemma {:induction false} SortByStable<T>(s: seq<T>, key: T -> int, k: int)
    ensures WithKey(SortBy(s, key), key, k) == WithKey(s, key, k)
    decreases |s|
  {
    if |s| > 0 {
      var init := s[..|s| - 1];
      SortByStable(init, key, k);
      InsertByWithKey(SortBy(init, key), s[|s| - 1], key, k);
    }
  }

  /** In a sorted sequence no element has a larger key than the last one. */
  lemma SortedLastIsMax<T>(t: seq<T>, key: T -> int, y: T)
    requires SortedBy(t, key) && y in t
    ensures key(y) <= key(t[|t| - 1])
  {
    var j :| 0 <= j < |t| && t[j] == y;
    SortedByOrder(t, key, j, |t| - 1);
  }

  /** If two sequences agree on every key's elements, the last element of the
      first also occurs in the second. */
  lemma LastShared<T>(t1: seq<T>, t2: seq<T>, key: T -> int)
    requires |t1| > 0
    requires forall k :: WithKey(t1, key, k) == WithKey(t2, key, k)
    ensures t1[|t1| - 1] in t2
  {
    var x := t1[|t1| - 1];
    WithKeyHas(t1, key, |t1| - 1);
    assert x in WithKey(t2, key, key(x));
    WithKeyElements(t2, key, key(x));
  }

  /** Dropping equal last elements keeps the agreement on every key. */
  lemma DropLastShared<T>(t1: seq<T>, t2: seq<T>, i1: seq<T>, i2: seq<T>, x: T, key: T -> int)
    requires t1 == i1 + [x] && t2 == i2 + [x]
    requires forall k :: WithKey(t1, key, k) == WithKey(t2, key, k)
    ensures forall k :: WithKey(i1, key, k) == WithKey(i2, key, k)
  {
    forall k ensures WithKey(i1, key, k) == WithKey(i2, key, k) {
      WithKeySnoc(i1, x, key, k);
      WithKeySnoc(i2, x, key, k);
      var e: seq<T> := if key(x) == k then [x] else [];
      var a, b := WithKey(i1, key, k), WithKey(i2, key, k);
      assert a + e == b + e by {
        assert WithKey(t1, key, k) == WithKey(t2, key, k);
      }
      assert a == (a + e)[..|a|];
      assert b == (b + e)[..|b|];
    }
  }

  /** A sequence that agrees with an empty one on every key is empty. */
  lemma NoneShared<T>(t1: seq<T>, t2: seq<T>, key: T -> int)
    requires |t1| == 0
    requires forall k :: WithKey(t1, key, k) == WithKey(t2, key, k)
    ensures |t2| == 0
  {
    if |t2| > 0 {
      WithKeyHas(t2, key, 0);
    }
  }

  /** Two non-empty sorted sequences that agree on every key end in the same key. */
  lemma SameLastKey<T>(t1: seq<T>, t2: seq<T>, key: T -> int)
    requires SortedBy(t1, key) && SortedBy(t2, key) && |t1| > 0 && |t2| > 0
    requires forall k :: WithKey(t1, key, k) == WithKey(t2, key, k)
    ensures key(t1[|t1| - 1]) == key(t2[|t2| - 1])
  {
    LastShared(t1, t2, key);
    LastShared(t2, t1, key);
    SortedLastIsMax(t2, key, t1[|t1| - 1]);
    SortedLastIsMax(t1, key, t2[|t2| - 1]);
  }

  /** The last element of a sequence is the last of those sharing its key. */
  lemma LastOfWithKey<T>(t: seq<T>, key: T -> int)
    requires |t| > 0
    ensures var w := WithKey(t, key, key(t[|t| - 1]));
      |w| > 0 && w[|w| - 1] == t[|t| - 1]
  {
    assert t == t[..|t| - 1] + [t[|t| - 1]];
    WithKeySnoc(t[..|t| - 1], t[|t| - 1], key, key(t[|t| - 1]));
  }

  /** Two non-empty sorted sequences that agree on every key end in the same element. */
  lemma SameLast<T>(t1: seq<T>, t2: seq<T>, key: T -> int)
    requires SortedBy(t1, key) && SortedBy(t2, key) && |t1| > 0 && |t2| > 0
    requires forall k :: WithKey(t1, key, k) == WithKey(t2, key, k)
    ensures t1[|t1| - 1] == t2[|t2| - 1]
  {
    SameLastKey(t1, t2, key);
    LastOfWithKey(t1, key);
    LastOfWithKey(t2, key);
    assert WithKey(t1, key, key(t1[|t1| - 1])) == WithKey(t2, key, key(t1[|t1| - 1]));
  }

  /** Two sorted sequences that agree on the order of each key's elements are equal. */
  lemma {:induction false} SortedUnique<T>(t1: seq<T>, t2: seq<T>, key: T -> int)
    requires SortedBy(t1, key) && SortedBy(t2, key)
    requires forall k :: WithKey(t1, key, k) == WithKey(t2, key, k)
    ensures t1 == t2
    decreases |t1|
  {
    if |t1| == 0 {
      NoneShared(t1, t2, key);
    } else if |t2| == 0 {
      NoneShared(t2, t1, key);
    } else {
      SameLast(t1, t2, key);
      var i1, i2, x := t1[..|t1| - 1], t2[..|t2| - 1], t1[|t1| - 1];
      assert t1 == i1 + [x];
      assert t2 == i2 + [x];
      DropLastShared(t1, t2, i1, i2, x, key);
      SortedUnique(i1, i2, key);
    }
  }

  /** `SortBy` is the one sorted sequence that keeps each key's elements in input order. */
  lemma SortByCharacterized<T>(s: seq<T>, t: seq<T>, key: T -> int)
    requires SortedBy(t, key)
    requires forall k :: WithKey(t, key, k) == WithKey(s, key, k)
    ensures t == SortBy(s, key)
  {
    SortBySorted(s, key);
    forall k ensures WithKey(t, key, k) == WithKey(SortBy(s, key), key, k) {
      SortByStable(s, key, k);
    }
    SortedUnique(t, SortBy(s, key), key);
  }

  // ---------------------------------------------------------------------
  // Consequences used by the indicators

  /** Sorting an already sorted sequence leaves it as it is. */
  lemma SortBySortedInput<T>(s: seq<T>, key: T -> int)
    requires SortedBy(s, key)
    ensures SortBy(s, key) == s
  {
    SortByCharacterized(s, s, key);
  }

  /** A slice of a sorted sequence is sorted, so sorting it again changes nothing. */
  lemma SortBySortedSlice<T>(s: seq<T>, key: T -> int, i: int, j: int)
    requires SortedBy(s, key) && 0 <= i <= j <= |s|
    ensures SortBy(s[i..j], key) == s[i..j]
  {
    assert SortedBy(s[i..j], key) by {
      forall k | 0 < k < j - i ensures key(s[i..j][k - 1]) <= key(s[i..j][k]) {
        assert s[i..j][k - 1] == s[i + k - 1] && s[i..j][k] == s[i + k];
      }
    }
    SortBySortedInput(s[i..j], key);
  }

  /** Prepending elements that are all strictly older than the rest puts them,
      sorted, in front of the sorted rest. */
  lemma SortByOlderPrefix<T>(older: seq<T>, s: seq<T>, key: T -> int)
    requires forall i, j :: 0 <= i < |older| && 0 <= j < |s| ==> key(older[i]) < key(s[j])
    ensures SortBy(older + s, key) == SortBy(older, key) + SortBy(s, key)
  {
    var a, b := SortBy(older, key), SortBy(s, key);
    OlderPrefixSorted(older, s, key);
    forall k ensures WithKey(a + b, key, k) == WithKey(older + s, key, k) {
      WithKeyAppend(a, b, key, k);
      WithKeyAppend(older, s, key, k);
      SortByStable(older, key, k);
      SortByStable(s, key, k);
    }
    SortByCharacterized(older + s, a + b, key);
  }

  /** An element of the multiset of `s` is an element of `s`. */
  lemma FromMultiset<T>(s: seq<T>, x: T)
    requires x in multiset(s)
    ensures x in s
  {
  }

  lemma KeysBelow<T>(older: seq<T>, s: seq<T>, key: T -> int, x: T, y: T)
    requires forall i, j :: 0 <= i < |older| && 0 <= j < |s| ==> key(older[i]) < key(s[j])
    requires x in older && y in s
    ensures key(x) < key(y)
  {
    var i :| 0 <= i < |older| && older[i] == x;
    var j :| 0 <= j < |s| && s[j] == y;
  }

  /** The two sorted parts, the older in front, form a sorted sequence. */
  lemma OlderPrefixSorted<T>(older: seq<T>, s: seq<T>, key: T -> int)
    requires forall i, j :: 0 <= i < |older| && 0 <= j < |s| ==> key(older[i]) < key(s[j])
    ensures SortedBy(SortBy(older, key) + SortBy(s, key), key)
  {
    var a, b := SortBy(older, key), SortBy(s, key);
    SortBySorted(older, key);
    SortBySorted(s, key);
    if |a| > 0 && |b| > 0 {
      SortByPermutation(older, key);
      SortByPermutation(s, key);
      FromMultiset(older, a[|a| - 1]);
      FromMultiset(s, b[0]);
      KeysBelow(older, s, key, a[|a| - 1], b[0]);
    }
    ConcatSorted(a, b, key);
  }

  /** Two sorted sequences joined where the keys do not drop form a sorted sequence. */
  lemma ConcatSorted<T>(a: seq<T>, b: seq<T>, key: T -> int)
    requires SortedBy(a, key) && SortedBy(b, key)
    requires |a| > 0 && |b| > 0 ==> key(a[|a| - 1]) <= key(b[0])
    ensures SortedBy(a + b, key)
  {
    forall i | 0 < i < |a + b| ensures key((a + b)[i - 1]) <= key((a + b)[i]) {
      if i < |a| {
        assert (a + b)[i - 1] == a[i - 1] && (a + b)[i] == a[i];
      } else if i == |a| {
        assert (a + b)[i - 1] == a[|a| - 1] && (a + b)[i] == b[0];
      } else {
        assert (a + b)[i - 1] == b[i - 1 - |a|] && (a + b)[i] == b[i - |a|];
      }
    }
  }

  lemma {:induction false} SortByStrict<T>(s: seq<T>, key: T -> int)
    requires DistinctKeys(s, key)
    ensures StrictlySortedBy(SortBy(s, key), key)
    decreases |s|
  {
    if |s| > 0 {
      var init, x := s[..|s| - 1], s[|s| - 1];
      assert DistinctKeys(init, key);
      SortByStrict(init, key);
      SortByPermutation(init, key);
      var t := SortBy(init, key);
      forall i | 0 <= i < |t| ensures key(t[i]) != key(x) {
        assert t[i] in multiset(init);
        var j :| 0 <= j < |init| && init[j] == t[i];
      }
      InsertByStrict(t, x, key);
    }
  }

  /** A strictly sorted sequence is the only sorted arrangement of its elements. */
  lemma {:induction false} StrictlySortedUnique<T>(t1: seq<T>, t2: seq<T>, key: T -> int)
    requires StrictlySortedBy(t1, key) && SortedBy(t2, key)
    requires multiset(t1) == multiset(t2)
    ensures t1 == t2
    decreases |t1|
  {
    SameLength(t1, t2);
    if |t1| > 0 {
      SameFirst(t1, t2, key);
      MultisetTail(t1);
      MultisetTail(t2);
      StrictlySortedTail(t1, key);
      SortedTail(t2, key);
      StrictlySortedUnique(t1[1..], t2[1..], key);
      SameHeadAndTail(t1, t2);
    }
  }

  lemma SameLength<T>(t1: seq<T>, t2: seq<T>)
    requires multiset(t1) == multiset(t2)
    ensures |t1| == |t2|
  {
    assert |t1| == |multiset(t1)| == |multiset(t2)| == |t2|;
  }

  lemma SameHeadAndTail<T>(t1: seq<T>, t2: seq<T>)
    requires |t1| == |t2| > 0 && t1[0] == t2[0] && t1[1..] == t2[1..]
    ensures t1 == t2
  {
    assert t1 == [t1[0]] + t1[1..];
    assert t2 == [t2[0]] + t2[1..];
  }

  /** Two sorted arrangements of the same elements, the first strictly sorted,
      start with the same element. */
  lemma SameFirst<T>(t1: seq<T>, t2: seq<T>, key: T -> int)
    requires StrictlySortedBy(t1, key) && SortedBy(t2, key)
    requires multiset(t1) == multiset(t2) && |t1| > 0 && |t2| > 0
    ensures t1[0] == t2[0]
  {
    FromMultiset(t2, t1[0]);
    FromMultiset(t1, t2[0]);
    var j :| 0 <= j < |t2| && t2[j] == t1[0];
    var i :| 0 <= i < |t1| && t1[i] == t2[0];
    SortedByOrder(t2, key, 0, j);
    if i > 0 {
      StrictlySortedByOrder(t1, key, 0, i);
      assert false;
    }
  }

  lemma SortedTail<T>(t: seq<T>, key: T -> int)
    requires SortedBy(t, key) && |t| > 0
    ensures SortedBy(t[1..], key)
  {
    forall i | 0 < i < |t| - 1 ensures key(t[1..][i - 1]) <= key(t[1..][i]) {
      assert t[1..][i - 1] == t[i] && t[1..][i] == t[i + 1];
    }
  }

  lemma StrictlySortedTail<T>(t: seq<T>, key: T -> int)
    requires StrictlySortedBy(t, key) && |t| > 0
    ensures StrictlySortedBy(t[1..], key)
  {
    forall i | 0 < i < |t| - 1 ensures key(t[1..][i - 1]) < key(t[1..][i]) {
      assert t[1..][i - 1] == t[i] && t[1..][i] == t[i + 1];
    }
  }

  lemma MultisetTail<T>(t: seq<T>)
    requires |t| > 0
    ensures multiset(t[1..]) == multiset(t) - multiset{t[0]}
  {
    assert t == [t[0]] + t[1..];
  }

  /** With pairwise distinct keys, the sort does not depend on the input order. */
  lemma SortByPermutationInvariant<T>(s: seq<T>, s': seq<T>, key: T -> int)
    requires DistinctKeys(s, key)
    requires multiset(s) == multiset(s')
    ensures SortBy(s, key) == SortBy(s', key)
  {
    SortByStrict(s, key);
    SortBySorted(s', key);
    SortByPermutation(s, key);
    SortByPermutation(s', key);
    StrictlySortedUnique(SortBy(s, key), SortBy(s', key), key);
  }

  /** The last element of the sorted sequence comes from the input and carries its largest key. */
  lemma SortByLastIsLatest<T>(s: seq<T>, key: T -> int)
    requires |s| > 0
    ensures |SortBy(s, key)| == |s|
    ensures SortBy(s, key)[|s| - 1] in s
    ensures forall i :: 0 <= i < |s| ==> key(s[i]) <= key(SortBy(s, key)[|s| - 1])
  {
    SortByPermutation(s, key);
    SortBySorted(s, key);
    var t := SortBy(s, key);
    assert t[|s| - 1] in multiset(s);
    forall i | 0 <= i < |s| ensures key(s[i]) <= key(t[|s| - 1]) {
      assert s[i] in multiset(t);
      var j :| 0 <= j < |t| && t[j] == s[i];
      SortedByOrder(t, key, j, |s| - 1);
    }
  }

  /** `sort_by_key` then `last()`: the latest element (among equal latest keys,
      the last one in input order). */
  function LastBy<T>(s: seq<T>, key: T -> int): (r: T)
    requires |s| > 0
    ensures r in s
    ensures forall i :: 0 <= i < |s| ==> key(s[i]) <= key(r)
  {
    SortByLastIsLatest(s, key);
    SortBy(s, key)[|s| - 1]
  }

  /** The latest key does not depend on the input order, even with ties. */
  lemma LastByKeyPermutation<T>(s: seq<T>, t: seq<T>, key: T -> int)
    requires |s| > 0 && multiset(s) == multiset(t)
    ensures |t| > 0 && key(LastBy(s, key)) == key(LastBy(t, key))
  {
    assert |t| == |multiset(t)| == |multiset(s)| == |s|;
    var x, y := LastBy(s, key), LastBy(t, key);
    assert x in multiset(t);
    assert y in multiset(s);
    var i :| 0 <= i < |t| && t[i] == x;
    var j :| 0 <= j < |s| && s[j] == y;
  }

  /** Sorting commutes with a map that keeps the keys. */
  lemma {:induction false} SortByMap<T, U>(s: seq<T>, f: T -> U, key: T -> int, key': U -> int)
    requires forall x :: key'(f(x)) == key(x)
    ensures SortBy(Map(s, f), key') == Map(SortBy(s, key), f)
    decreases |s|
  {
    if |s| > 0 {
      var init := s[..|s| - 1];
      assert Map(s, f)[..|s| - 1] == Map(init, f);
      SortByMap(init, f, key, key');
      InsertByMap(SortBy(init, key), s[|s| - 1], f, key, key');
    }
  }

  lemma {:induction false} InsertByMap<T, U>(s: seq<T>, x: T, f: T -> U, key: T -> int, key': U -> int)
    requires forall x :: key'(f(x)) == key(x)
    ensures InsertBy(Map(s, f), f(x), key') == Map(InsertBy(s, x, key), f)
    decreases |s|
  {
    if |s| == 0 || key(s[|s| - 1]) <= key(x) {
      assert Map(s + [x], f) == Map(s, f) + [f(x)];
    } else {
      var init := s[..|s| - 1];
      assert Map(s, f)[..|s| - 1] == Map(init, f);
      InsertByMap(init, x, f, key, key');
      assert Map(InsertBy(init, x, key) + [s[|s| - 1]], f) == Map(InsertBy(init, x, key), f) + [f(s[|s| - 1])];
    }
  }

  /** Pointwise image of a sequence. */
  function Map<T, U>(s: seq<T>, f: T -> U): (r: seq<U>)
    ensures |r| == |s| && forall i :: 0 <= i < |s| ==> r[i] == f(s[i])
  {
    seq(|s|, i requires 0 <= i < |s| => f(s[i]))
  }

  lemma MapAppend<T, U>(a: seq<T>, b: seq<T>, f: T -> U)
    ensures Map(a + b, f) == Map(a, f) + Map(b, f)
  {
  }

  /** Mapping commutes with permuting. */
  lemma {:induction false} MapPermutation<T, U>(s: seq<T>, t: seq<T>, f: T -> U)
    requires multiset(s) == multiset(t)
    ensures multiset(Map(s, f)) == multiset(Map(t, f))
    decreases |s|
  {
    if |s| == 0 {
      assert |t| == |multiset(t)| == 0;
    } else {
      var x := s[|s| - 1];
      var sinit := s[..|s| - 1];
      assert x in multiset(t);
      var j :| 0 <= j < |t| && t[j] == x;
      var rest := t[..j] + t[j + 1..];
      RemoveAt(t, j);
      MultisetInit(s);
      MapPermutation(sinit, rest, f);
      MapRemoveAt(t, j, f);
      MapInit(s, f);
    }
  }

  lemma MultisetInit<T>(s: seq<T>)
    requires |s| > 0
    ensures multiset(s[..|s| - 1]) == multiset(s) - multiset{s[|s| - 1]}
  {
    assert s == s[..|s| - 1] + [s[|s| - 1]];
  }

  /** Removing position `j` removes one copy of `t[j]` from the multiset. */
  lemma RemoveAt<T>(t: seq<T>, j: int)
    requires 0 <= j < |t|
    ensures multiset(t[..j] + t[j + 1..]) == multiset(t) - multiset{t[j]}
  {
    assert t == t[..j] + [t[j]] + t[j + 1..];
  }

  lemma MapRemoveAt<T, U>(t: seq<T>, j: int, f: T -> U)
    requires 0 <= j < |t|
    ensures multiset(Map(t, f)) == multiset(Map(t[..j] + t[j + 1..], f)) + multiset{f(t[j])}
  {
    var m, r := Map(t, f), Map(t[..j] + t[j + 1..], f);
    assert m == m[..j] + [f(t[j])] + m[j + 1..];
    assert r == m[..j] + m[j + 1..];
  }

  lemma MapInit<T, U>(s: seq<T>, f: T -> U)
    requires |s| > 0
    ensures multiset(Map(s, f)) == multiset(Map(s[..|s| - 1], f)) + multiset{f(s[|s| - 1])}
  {
    assert Map(s, f) == Map(s[..|s| - 1], f) + [f(s[|s| - 1])];
  }

  // ---------------------------------------------------------------------
  // The sort as the indicators run it: on a fresh copy of the input, in place

  /** Where `InsertBy` puts `x`: after the prefix whose keys are at most `key(x)`. */
  lemma {:induction false} InsertByAt<T>(s: seq<T>, x: T, key: T -> int, j: int)
    requires 0 <= j <= |s|
    requires j == 0 || key(s[j - 1]) <= key(x)
    requires forall m :: j <= m < |s| ==> key(s[m]) > key(x)
    ensures InsertBy(s, x, key) == s[..j] + [x] + s[j..]
    decreases |s| - j
  {
    if j == |s| {
      assert s[..j] == s;
    } else {
      var init := s[..|s| - 1];
      InsertByAt(init, x, key, j);
      assert init[..j] == s[..j];
      assert init[j..] + [s[|s| - 1]] == s[j..];
    }
  }

  /** One step of insertion sort: move `a[i]` left past the larger keys of the
      already sorted prefix `a[..i]`. */
  method InsertInPlace<T>(a: array<T>, i: int, key: T -> int)
    requires 0 <= i < a.Length
    modifies a
    ensures a[..i + 1] == InsertBy(old(a[..i]), old(a[i]), key)
    ensures a[i + 1..] == old(a[i + 1..])
  {
    ghost var sorted := a[..i];
    ghost var rest := a[i + 1..];
    var x := a[i];
    var j := i;
    while j > 0 && key(a[j - 1]) > key(x)
      invariant 0 <= j <= i
      invariant forall m :: 0 <= m < j ==> a[m] == sorted[m]
      invariant forall m :: j < m <= i ==> a[m] == sorted[m - 1]
      invariant forall m :: i < m < a.Length ==> a[m] == rest[m - i - 1]
      invariant forall m :: j <= m < i ==> key(sorted[m]) > key(x)
    {
      a[j] := a[j - 1];
      j := j - 1;
    }
    a[j] := x;
    InsertByAt(sorted, x, key, j);
    assert a[..i + 1] == sorted[..j] + [x] + sorted[j..];
    assert a[i + 1..] == rest;
  }

  /** Stable insertion sort of `a` by `key`, in place. */
  method SortInPlace<T>(a: array<T>, key: T -> int)
    modifies a
    ensures a[..] == SortBy(old(a[..]), key)
  {
    ghost var input := a[..];
    var i := 0;
    while i < a.Length
      invariant 0 <= i <= a.Length
      invariant a[..i] == SortBy(input[..i], key)
      invariant a[i..] == input[i..]
    {
      assert a[i] == input[i];
      InsertInPlace(a, i, key);
      assert input[..i + 1][..i] == input[..i];
      i := i + 1;
    }
    assert input[..a.Length] == input;
    assert a[..a.Length] == a[..];
  }

  /** `data.clone().to_vec()` followed by `sort_by_key(key)`: the sorted copy. */
  method SortedCopy<T>(data: seq<T>, key: T -> int) returns (sorted: seq<T>)
    ensures sorted == SortBy(data, key)
  {
    var a := new T[|data|](i requires 0 <= i < |data| => data[i]);
    assert a[..] == data;
    SortInPlace(a, key);
    sorted := a[..];
  }
}
