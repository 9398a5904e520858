/** The accumulating loops of the indicators: running sums (`sum += …`) and
    running maxima and minima seeded with a fixed starting value
    (`high = high.max(…)` from 0, `low = low.min(…)` from `f64::MAX`). */
module Folds {
  import opened StableSort

  /** `f64::max` on exact values. */
  function RealMax(a: real, b: real): (r: real)
    ensures r >= a && r >= b && (r == a || r == b)
  {
    if a >= b then a else b
  }

  /** `f64::min` on exact values. */
  function RealMin(a: real, b: real): (r: real)
    ensures r <= a && r <= b && (r == a || r == b)
  {
    if a <= b then a else b
  }

  /** The sum of `f` over `s`, accumulated from the front. */
  function SumBy<T>(s: seq<T>, f: T -> real): real
    decreases |s|
  {
    if |s| == 0 then 0.0 else SumBy(s[..|s| - 1], f) + f(s[|s| - 1])
  }

  /** The running maximum of `f` over `s`, seeded with `init`. */
  function MaxFrom<T>(init: real, s: seq<T>, f: T -> real): real
    decreases |s|
  {
    if |s| == 0 then init else RealMax(MaxFrom(init, s[..|s| - 1], f), f(s[|s| - 1]))
  }

  /** The running minimum of `f` over `s`, seeded with `init`. */
  function MinFrom<T>(init: real, s: seq<T>, f: T -> real): real
    decreases |s|
  {
    if |s| == 0 then init else RealMin(MinFrom(init, s[..|s| - 1], f), f(s[|s| - 1]))
  }

  lemma SumBySnoc<T>(s: seq<T>, x: T, f: T -> real)
    ensures SumBy(s + [x], f) == SumBy(s, f) + f(x)
  {
    assert (s + [x])[..|s|] == s;
  }

  lemma {:induction false} SumByAppend<T>(a: seq<T>, b: seq<T>, f: T -> real)
    ensures SumBy(a + b, f) == SumBy(a, f) + SumBy(b, f)
    decreases |b|
  {
    if |b| == 0 {
      assert a + b == a;
    } else {
      var binit, y := b[..|b| - 1], b[|b| - 1];
      assert a + b == (a + binit) + [y];
      SumByAppend(a, binit, f);
      SumBySnoc(a + binit, y, f);
    }
  }

  /** A sum does not depend on the order of its terms. */
  lemma {:induction false} SumByPermutation<T>(s: seq<T>, t: seq<T>, f: T -> real)
    requires multiset(s) == multiset(t)
    ensures SumBy(s, f) == SumBy(t, f)
    decreases |s|
  {
    if |s| == 0 {
      SameLength(s, t);
    } else {
      var x := s[|s| - 1];
      var sinit := s[..|s| - 1];
      FromMultiset(t, x);
      var j :| 0 <= j < |t| && t[j] == x;
      var rest := t[..j] + t[j + 1..];
      RemoveAt(t, j);
      MultisetInit(s);
      SumByPermutation(sinit, rest, f);
      SumByRemoveAt(t, j, f);
    }
  }

  /** Removing the term at position `j` takes `f(t[j])` off the sum. */
  lemma {:induction false} SumByRemoveAt<T>(t: seq<T>, j: int, f: T -> real)
    requires 0 <= j < |t|
    ensures SumBy(t, f) == SumBy(t[..j] + t[j + 1..], f) + f(t[j])
    decreases |t|
  {
    var init, y := t[..|t| - 1], t[|t| - 1];
    if j == |t| - 1 {
      assert t[..j] + t[j + 1..] == init;
    } else {
      var r := init[..j] + init[j + 1..];
      SumByRemoveAt(init, j, f);
      assert init[j] == t[j];
      assert t[..j] + t[j + 1..] == r + [y];
      SumBySnoc(r, y, f);
    }
  }

  /** A sum of terms that are all `c` is `|s|·c`. */
  lemma {:induction false} SumByConstant<T>(s: seq<T>, f: T -> real, c: real)
    requires forall i :: 0 <= i < |s| ==> f(s[i]) == c
    ensures SumBy(s, f) == |s| as real * c
    decreases |s|
  {
    if |s| > 0 {
      SumByConstant(s[..|s| - 1], f, c);
    }
  }

  /** A sum of terms between `lo` and `hi` lies between `|s|·lo` and `|s|·hi`. */
  lemma {:induction false} SumByBounds<T>(s: seq<T>, f: T -> real, lo: real, hi: real)
    requires forall i :: 0 <= i < |s| ==> lo <= f(s[i]) <= hi
    ensures |s| as real * lo <= SumBy(s, f) <= |s| as real * hi
    decreases |s|
  {
    if |s| > 0 {
      SumByBounds(s[..|s| - 1], f, lo, hi);
    }
  }

  /** A sum of non-negative terms is non-negative. */
  lemma {:induction false} SumByNonNegative<T>(s: seq<T>, f: T -> real)
    requires forall i :: 0 <= i < |s| ==> f(s[i]) >= 0.0
    ensures SumBy(s, f) >= 0.0
    decreases |s|
  {
    if |s| > 0 {
      SumByNonNegative(s[..|s| - 1], f);
    }
  }

  /** Sums are monotone in their terms. */
  lemma {:induction false} SumByMonotone<T>(s: seq<T>, f: T -> real, g: T -> real)
    requires forall i :: 0 <= i < |s| ==> f(s[i]) <= g(s[i])
    ensures SumBy(s, f) <= SumBy(s, g)
    decreases |s|
  {
    if |s| > 0 {
      SumByMonotone(s[..|s| - 1], f, g);
    }
  }

  /** The running maximum is the largest of the seed and the terms. */
  lemma {:induction false} MaxFromIsMax<T>(init: real, s: seq<T>, f: T -> real)
    ensures MaxFrom(init, s, f) >= init
    ensures forall i :: 0 <= i < |s| ==> f(s[i]) <= MaxFrom(init, s, f)
    ensures MaxFrom(init, s, f) == init || exists i :: 0 <= i < |s| && MaxFrom(init, s, f) == f(s[i])
    decreases |s|
  {
    if |s| > 0 {
      var sinit := s[..|s| - 1];
      MaxFromIsMax(init, sinit, f);
      if MaxFrom(init, s, f) != init && MaxFrom(init, s, f) != f(s[|s| - 1]) {
        var i :| 0 <= i < |sinit| && MaxFrom(init, sinit, f) == f(sinit[i]);
        assert MaxFrom(init, s, f) == f(s[i]);
      }
    }
  }

  /** The running minimum is the smallest of the seed and the terms. */
  lemma {:induction false} MinFromIsMin<T>(init: real, s: seq<T>, f: T -> real)
    ensures MinFrom(init, s, f) <= init
    ensures forall i :: 0 <= i < |s| ==> MinFrom(init, s, f) <= f(s[i])
    ensures MinFrom(init, s, f) == init || exists i :: 0 <= i < |s| && MinFrom(init, s, f) == f(s[i])
    decreases |s|
  {
    if |s| > 0 {
      var sinit := s[..|s| - 1];
      MinFromIsMin(init, sinit, f);
      if MinFrom(init, s, f) != init && MinFrom(init, s, f) != f(s[|s| - 1]) {
        var i :| 0 <= i < |sinit| && MinFrom(init, sinit, f) == f(sinit[i]);
        assert MinFrom(init, s, f) == f(s[i]);
      }
    }
  }

  /** The running maximum does not depend on the order of the terms. */
  lemma MaxFromPermutation<T>(init: real, s: seq<T>, t: seq<T>, f: T -> real)
    requires multiset(s) == multiset(t)
    ensures MaxFrom(init, s, f) == MaxFrom(init, t, f)
  {
    MaxFromIsMax(init, s, f);
    MaxFromIsMax(init, t, f);
    var ms, mt := MaxFrom(init, s, f), MaxFrom(init, t, f);
    if ms != init {
      var i :| 0 <= i < |s| && ms == f(s[i]);
      assert s[i] in multiset(t);
      var j :| 0 <= j < |t| && t[j] == s[i];
    }
    if mt != init {
      var j :| 0 <= j < |t| && mt == f(t[j]);
      assert t[j] in multiset(s);
      var i :| 0 <= i < |s| && s[i] == t[j];
    }
  }

  /** The running minimum does not depend on the order of the terms. */
  lemma MinFromPermutation<T>(init: real, s: seq<T>, t: seq<T>, f: T -> real)
    requires multiset(s) == multiset(t)
    ensures MinFrom(init, s, f) == MinFrom(init, t, f)
  {
    MinFromIsMin(init, s, f);
    MinFromIsMin(init, t, f);
    var ms, mt := MinFrom(init, s, f), MinFrom(init, t, f);
    if ms != init {
      var i :| 0 <= i < |s| && ms == f(s[i]);
      assert s[i] in multiset(t);
      var j :| 0 <= j < |t| && t[j] == s[i];
    }
    if mt != init {
      var j :| 0 <= j < |t| && mt == f(t[j]);
      assert t[j] in multiset(s);
      var i :| 0 <= i < |s| && s[i] == t[j];
    }
  }
}
