/** Order-preserving subsequences, decided greedily from the front. */
module Subsequences {

  /** `a` can be obtained from `b` by deleting elements. */
  predicate IsSubseq<T(==)>(a: seq<T>, b: seq<T>)
    decreases |b|
  {
    if a == [] then true
    else if b == [] then false
    else if a[0] == b[0] then IsSubseq(a[1..], b[1..])
    else IsSubseq(a, b[1..])
  }

  lemma {:induction false} SubseqRefl<T>(a: seq<T>)
    ensures IsSubseq(a, a)
    decreases |a|
  {
    if a != [] {
      SubseqRefl(a[1..]);
    }
  }

  lemma {:induction false} SubseqPrepend<T>(a: seq<T>, b: seq<T>, e: T)
    requires IsSubseq(a, b)
    ensures IsSubseq(a, [e] + b)
    decreases |b|, 1
  {
    if a != [] && a[0] == e {
      SubseqDropHead(a, b);
      assert ([e] + b)[1..] == b;
    } else if a != [] {
      assert ([e] + b)[1..] == b;
    }
  }

  lemma {:induction false} SubseqDropHead<T>(a: seq<T>, b: seq<T>)
    requires a != [] && IsSubseq(a, b)
    ensures IsSubseq(a[1..], b)
    decreases |b|, 0
  {
    assert b != [];
    if a[0] == b[0] {
      SubseqPrepend(a[1..], b[1..], b[0]);
    } else {
      SubseqDropHead(a, b[1..]);
      SubseqPrepend(a[1..], b[1..], b[0]);
    }
    assert [b[0]] + b[1..] == b;
  }

  lemma SubseqCons<T>(x: T, a: seq<T>, b: seq<T>)
    requires IsSubseq(a, b)
    ensures IsSubseq([x] + a, [x] + b)
  {
    assert ([x] + a)[1..] == a;
    assert ([x] + b)[1..] == b;
  }

  /** Inserting one element anywhere keeps the original a subsequence. */
  lemma {:induction false} SubseqInsert<T>(p: seq<T>, q: seq<T>, e: T)
    ensures IsSubseq(p + q, p + [e] + q)
    decreases |p|
  {
    if p == [] {
      SubseqRefl(q);
      SubseqPrepend(q, q, e);
      assert p + q == q && p + [e] + q == [e] + q;
    } else {
      SubseqInsert(p[1..], q, e);
      SubseqCons(p[0], p[1..] + q, p[1..] + [e] + q);
      HeadBack(p, q, e);
    }
  }

  lemma HeadBack<T>(p: seq<T>, q: seq<T>, e: T)
    requires p != []
    ensures [p[0]] + (p[1..] + q) == p + q && [p[0]] + (p[1..] + [e] + q) == p + [e] + q
  {
    assert [p[0]] + p[1..] == p;
  }

  lemma {:induction false} SubseqTrans<T>(a: seq<T>, b: seq<T>, c: seq<T>)
    requires IsSubseq(a, b) && IsSubseq(b, c)
    ensures IsSubseq(a, c)
    decreases |c|
  {
    if a != [] {
      assert b != [] && c != [];
      if b[0] == c[0] {
        if a[0] == b[0] {
          SubseqTrans(a[1..], b[1..], c[1..]);
        } else {
          SubseqTrans(a, b[1..], c[1..]);
        }
      } else {
        SubseqTrans(a, b, c[1..]);
        SubseqPrepend(a, c[1..], c[0]);
        assert [c[0]] + c[1..] == c;
      }
    }
  }
}
