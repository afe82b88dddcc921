/**
 * Order-preserving selection from a sequence, and the subsequence relation
 * it is measured against. Both the listing and the manifest of the fake
 * backup store are selections of this kind.
 */
module Sequences {

  /** The elements of `s` that satisfy `keep`, in their original order. */
  function KeepIf<T>(s: seq<T>, keep: T -> bool): (r: seq<T>)
    ensures |r| <= |s|
  {
    if s == [] then []
    else if keep(s[0]) then [s[0]] + KeepIf(s[1..], keep)
    else KeepIf(s[1..], keep)
  }

  /** `a` can be obtained from `b` by deleting elements: the order of `a` is the order in `b`. */
  ghost predicate IsSubsequence<T>(a: seq<T>, b: seq<T>)
    decreases |b|
  {
    a == [] || (b != [] && ((a[0] == b[0] && IsSubsequence(a[1..], b[1..])) || IsSubsequence(a, b[1..])))
  }

  /** Selecting from a concatenation selects from each part. */
  lemma {:induction false} KeepIfAppend<T>(a: seq<T>, b: seq<T>, keep: T -> bool)
    ensures KeepIf(a + b, keep) == KeepIf(a, keep) + KeepIf(b, keep)
  {
    if a == [] {
      assert a + b == b;
    } else {
      assert (a + b)[0] == a[0];
      assert (a + b)[1..] == a[1..] + b;
      KeepIfAppend(a[1..], b, keep);
    }
  }

  /** Appending one element extends the selection by that element exactly when it is kept. */
  lemma KeepIfSnoc<T>(a: seq<T>, x: T, keep: T -> bool)
    ensures KeepIf(a + [x], keep) == KeepIf(a, keep) + (if keep(x) then [x] else [])
  {
    KeepIfAppend(a, [x], keep);
    assert [x][1..] == [];
  }

  /** The selection keeps the order of the input. */
  lemma {:induction false} KeepIfIsSubsequence<T>(s: seq<T>, keep: T -> bool)
    ensures IsSubsequence(KeepIf(s, keep), s)
  {
    if s != [] {
      KeepIfIsSubsequence(s[1..], keep);
      if keep(s[0]) {
        assert ([s[0]] + KeepIf(s[1..], keep))[1..] == KeepIf(s[1..], keep);
      }
    }
  }

  /**
   * Every occurrence of a kept value is selected and no occurrence of any
   * other value is: together with KeepIfIsSubsequence this fixes the
   * selection uniquely.
   */
  lemma {:induction false} KeepIfCount<T>(s: seq<T>, keep: T -> bool, x: T)
    ensures multiset(KeepIf(s, keep))[x] == if keep(x) then multiset(s)[x] else 0
  {
    if s != [] {
      KeepIfCount(s[1..], keep, x);
      assert s == [s[0]] + s[1..];
      assert multiset(s) == multiset([s[0]]) + multiset(s[1..]);
      if keep(s[0]) {
        assert multiset(KeepIf(s, keep)) == multiset([s[0]]) + multiset(KeepIf(s[1..], keep));
      }
    }
  }

  /** A value is selected exactly when it occurs in the input and is kept. */
  lemma KeepIfMember<T>(s: seq<T>, keep: T -> bool, x: T)
    ensures x in KeepIf(s, keep) <==> x in s && keep(x)
  {
    KeepIfCount(s, keep, x);
    assert x in KeepIf(s, keep) <==> multiset(KeepIf(s, keep))[x] > 0;
    assert x in s <==> multiset(s)[x] > 0;
  }

  /** A weaker filter selects everything a stronger one does, in the same order. */
  lemma {:induction false} KeepIfWeaker<T>(s: seq<T>, strong: T -> bool, weak: T -> bool)
    requires forall x :: strong(x) ==> weak(x)
    ensures IsSubsequence(KeepIf(s, strong), KeepIf(s, weak))
  {
    if s != [] {
      KeepIfWeaker(s[1..], strong, weak);
      var a, b := KeepIf(s[1..], strong), KeepIf(s[1..], weak);
      if strong(s[0]) {
        assert ([s[0]] + a)[1..] == a && ([s[0]] + b)[1..] == b;
      } else if weak(s[0]) {
        assert ([s[0]] + b)[1..] == b;
      }
    }
  }
}
