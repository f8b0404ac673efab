/**
 * The fuzzy line comparison of espada/core/diff.py: two strings are compared
 * by the overlap of their character multisets once spaces are removed and
 * letters lower-cased. The ratio is an exact quotient (a `real`), not a float.
 */
module Similarity {
  import opened PyStr

  /** Python's `s.replace(" ", "").lower()`. */
  function Normalize(s: string): (r: string)
    ensures ' ' !in r
    ensures |r| <= |s|
    decreases |s|
  {
    if s == [] then []
    else if s[0] == ' ' then Normalize(s[1..])
    else [LowerChar(s[0])] + Normalize(s[1..])
  }

  /** `sum((Counter(a) & Counter(b)).values())` on the normalized strings. */
  function Overlap(a: string, b: string): nat
  {
    |multiset(Normalize(a)) * multiset(Normalize(b))|
  }

  function Longer(a: string, b: string): nat
  {
    if |Normalize(a)| >= |Normalize(b)| then |Normalize(a)| else |Normalize(b)|
  }

  /** `count_ratio`: the overlap divided by the longer normalized length, or 1 when both are empty. */
  function CountRatio(a: string, b: string): real
  {
    if Longer(a, b) == 0 then 1.0 else Overlap(a, b) as real / Longer(a, b) as real
  }

  /** The ratio is a fraction: between 0 and 1. */
  lemma CountRatioRange(a: string, b: string)
    ensures 0.0 <= CountRatio(a, b) <= 1.0
  {
    OverlapBound(a, b);
    if Longer(a, b) != 0 {
      QuotientBounds(Overlap(a, b) as real, Longer(a, b) as real);
    }
  }

  lemma QuotientBounds(o: real, l: real)
    requires 0.0 <= o <= l && l > 0.0
    ensures 0.0 <= o / l <= 1.0
    ensures o / l >= 0.9 <==> 10.0 * o >= 9.0 * l
  {
    var q := o / l;
    assert q * l == o;
    if q >= 0.9 {
      assert q * l >= 0.9 * l;
    } else {
      assert q * l < 0.9 * l;
    }
  }

  lemma DivideSelf(n: real)
    requires n > 0.0
    ensures n / n == 1.0
  {
  }

  /**
   * `is_similar` with its default threshold of 0.9, written without the
   * division: `IsSimilarMeansRatio` shows it is `CountRatio(a, b) >= 0.9`.
   */
  predicate IsSimilar(a: string, b: string)
  {
    Longer(a, b) == 0 || 10 * Overlap(a, b) >= 9 * Longer(a, b)
  }

  lemma MultisetIntersectionBound<T>(x: multiset<T>, y: multiset<T>)
    ensures |x * y| <= |x|
    decreases |x|
  {
    if x != multiset{} {
      var e :| e in x;
      var x' := x - multiset{e};
      MultisetIntersectionBound(x', y);
      if e in y {
        assert x * y == (x' * (y - multiset{e})) + multiset{e} by {
          forall z ensures (x * y)[z] == ((x' * (y - multiset{e})) + multiset{e})[z] { }
        }
        MultisetIntersectionBound(x', y - multiset{e});
      } else {
        assert x * y == x' * y by {
          forall z ensures (x * y)[z] == (x' * y)[z] { }
        }
      }
    }
  }

  lemma OverlapBound(a: string, b: string)
    ensures Overlap(a, b) <= Longer(a, b)
  {
    MultisetIntersectionBound(multiset(Normalize(a)), multiset(Normalize(b)));
  }

  /** The ratio does not depend on the order of its arguments. */
  lemma CountRatioSymmetric(a: string, b: string)
    ensures CountRatio(a, b) == CountRatio(b, a)
    ensures IsSimilar(a, b) <==> IsSimilar(b, a)
  {
    var x, y := multiset(Normalize(a)), multiset(Normalize(b));
    assert x * y == y * x by {
      forall z ensures (x * y)[z] == (y * x)[z] { }
    }
  }

  /** A string overlaps itself in every character, so it is similar to itself, empty or not. */
  lemma SimilarSelf(a: string)
    ensures Overlap(a, a) == Longer(a, a)
    ensures IsSimilar(a, a)
  {
    var x := multiset(Normalize(a));
    assert x * x == x by {
      forall z ensures (x * x)[z] == x[z] { }
    }
  }

  /** A string is fully similar to itself: its ratio is exactly 1. */
  lemma CountRatioSelf(a: string)
    ensures CountRatio(a, a) == 1.0
  {
    SimilarSelf(a);
    FullOverlap(a, a);
  }

  /** Overlapping in every character of the longer string is a ratio of 1. */
  lemma FullOverlap(a: string, b: string)
    requires Overlap(a, b) == Longer(a, b)
    ensures CountRatio(a, b) == 1.0
  {
    if Longer(a, b) != 0 {
      DivideSelf(Longer(a, b) as real);
    }
  }

  /** Two strings made only of spaces (in particular two empty strings) have ratio 1. */
  lemma CountRatioBothBlank(a: string, b: string)
    requires Normalize(a) == [] && Normalize(b) == []
    ensures CountRatio(a, b) == 1.0
  {
  }

  /** `IsSimilar` is the threshold test of `is_similar` on the ratio. */
  lemma IsSimilarMeansRatio(a: string, b: string)
    ensures IsSimilar(a, b) <==> CountRatio(a, b) >= 0.9
  {
    if Longer(a, b) != 0 {
      OverlapBound(a, b);
      QuotientBounds(Overlap(a, b) as real, Longer(a, b) as real);
    }
  }

  /** Scrambling the characters of a string does not change its score (the deliberate weakness). */
  lemma CountRatioOrderInsensitive(a: string, a': string, b: string)
    requires multiset(Normalize(a)) == multiset(Normalize(a'))
    ensures CountRatio(a, b) == CountRatio(a', b)
  {
    assert |Normalize(a)| == |multiset(Normalize(a))| == |Normalize(a')|;
  }
}
