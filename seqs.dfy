/** Order-preserving subsequences and duplicate-freedom, used to state what the
    move generators and the legality filter keep from their inputs, and a
    step for proofs about permutations. */
module Seqs {

  /** `a` is obtained from `b` by deleting elements, keeping the order of the rest.
      Matching from the back is as good as from the front and suits the generators,
      which build their results by appending. */
  predicate IsSubseq<T(==)>(a: seq<T>, b: seq<T>)
    decreases |b|
  {
    if a == [] then true
    else if b == [] then false
    else if a[|a| - 1] == b[|b| - 1] then IsSubseq(a[..|a| - 1], b[..|b| - 1])
    else IsSubseq(a, b[..|b| - 1])
  }

  predicate NoDups<T(==)>(s: seq<T>)
  {
    forall i, j :: 0 <= i < j < |s| ==> s[i] != s[j]
  }

  lemma {:induction false} SubseqDropLast<T>(a: seq<T>, b: seq<T>)
    requires a != [] && IsSubseq(a, b)
    ensures IsSubseq(a[..|a| - 1], b)
    decreases |b|, 0
  {
    var a' := a[..|a| - 1];
    if a' == [] {
    } else if a[|a| - 1] == b[|b| - 1] {
      // a' is a subsequence of the prefix of b, hence of b.
      SubseqExtend(a', b[..|b| - 1], b[|b| - 1]);
      assert b[..|b| - 1] + [b[|b| - 1]] == b;
    } else {
      SubseqDropLast(a, b[..|b| - 1]);
      SubseqExtend(a', b[..|b| - 1], b[|b| - 1]);
      assert b[..|b| - 1] + [b[|b| - 1]] == b;
    }
  }

  /** Appending an element to the larger sequence keeps a subsequence one. */
  lemma {:induction false} SubseqExtend<T>(a: seq<T>, b: seq<T>, x: T)
    requires IsSubseq(a, b)
    ensures IsSubseq(a, b + [x])
    decreases |b|, 1
  {
    if a == [] {
    } else {
      assert (b + [x])[..|b|] == b;
      if a[|a| - 1] == x {
        SubseqDropLast(a, b);
      }
    }
  }

  /** Appending the same element to both keeps a subsequence one. */
  lemma SubseqBoth<T>(a: seq<T>, b: seq<T>, x: T)
    requires IsSubseq(a, b)
    ensures IsSubseq(a + [x], b + [x])
  {
    assert (a + [x])[..|a|] == a;
    assert (b + [x])[..|b|] == b;
  }

  /** Appending a sequence to the larger one keeps a subsequence one. */
  lemma {:induction false} SubseqExtendSeq<T>(a: seq<T>, b: seq<T>, c: seq<T>)
    requires IsSubseq(a, b)
    ensures IsSubseq(a, b + c)
    decreases |c|
  {
    if c == [] {
      assert b + c == b;
    } else {
      var c' := c[..|c| - 1];
      SubseqExtendSeq(a, b, c');
      SubseqExtend(a, b + c', c[|c| - 1]);
      assert b + c' + [c[|c| - 1]] == b + c;
    }
  }

  lemma {:induction false} SubseqRefl<T>(a: seq<T>)
    ensures IsSubseq(a, a)
    decreases |a|
  {
    if a != [] {
      SubseqRefl(a[..|a| - 1]);
    }
  }

  /** Concatenating subsequences of two sequences gives a subsequence of their concatenation. */
  lemma {:induction false} SubseqConcat<T>(a1: seq<T>, b1: seq<T>, a2: seq<T>, b2: seq<T>)
    requires IsSubseq(a1, b1) && IsSubseq(a2, b2)
    ensures IsSubseq(a1 + a2, b1 + b2)
    decreases |b2|
  {
    if a2 == [] {
      assert a1 + a2 == a1;
      SubseqExtendSeq(a1, b1, b2);
    } else {
      var x := b2[|b2| - 1];
      var b2' := b2[..|b2| - 1];
      var bb := b1 + b2';
      assert b1 + b2 == bb + [x];
      if a2[|a2| - 1] == x {
        var a2' := a2[..|a2| - 1];
        SubseqConcat(a1, b1, a2', b2');
        SubseqBoth(a1 + a2', bb, x);
        assert a1 + a2 == (a1 + a2') + [x];
      } else {
        SubseqConcat(a1, b1, a2, b2');
        SubseqExtend(a1 + a2, bb, x);
      }
    }
  }

  /** Every element of a subsequence is an element of the larger sequence. */
  lemma {:induction false} SubseqMember<T>(a: seq<T>, b: seq<T>, x: T)
    requires IsSubseq(a, b) && x in a
    ensures x in b
    decreases |b|
  {
    if a[|a| - 1] == b[|b| - 1] {
      if x == a[|a| - 1] {
        assert b[|b| - 1] in b;
      } else {
        assert x in a[..|a| - 1] by {
          var k :| 0 <= k < |a| && a[k] == x;
          assert k < |a| - 1;
          assert a[..|a| - 1][k] == x;
        }
        SubseqMember(a[..|a| - 1], b[..|b| - 1], x);
      }
    } else {
      SubseqMember(a, b[..|b| - 1], x);
    }
  }

  /** A subsequence is never longer than the sequence it comes from. */
  lemma {:induction false} SubseqLength<T>(a: seq<T>, b: seq<T>)
    requires IsSubseq(a, b)
    ensures |a| <= |b|
    decreases |b|
  {
    if a != [] {
      if a[|a| - 1] == b[|b| - 1] {
        SubseqLength(a[..|a| - 1], b[..|b| - 1]);
      } else {
        SubseqLength(a, b[..|b| - 1]);
      }
    }
  }

  /** A subsequence of a duplicate-free sequence is duplicate-free. */
  lemma {:induction false} SubseqNoDups<T>(a: seq<T>, b: seq<T>)
    requires IsSubseq(a, b) && NoDups(b)
    ensures NoDups(a)
    decreases |b|
  {
    if a != [] {
      var b' := b[..|b| - 1];
      assert NoDups(b');
      if a[|a| - 1] == b[|b| - 1] {
        var a' := a[..|a| - 1];
        SubseqNoDups(a', b');
        forall i | 0 <= i < |a'|
          ensures a'[i] != a[|a| - 1]
        {
          assert a'[i] in a';
          SubseqMember(a', b', a'[i]);
          var k :| 0 <= k < |b'| && b'[k] == a'[i];
          assert b[k] != b[|b| - 1];
        }
        assert a == a' + [a[|a| - 1]];
      } else {
        SubseqNoDups(a, b');
      }
    }
  }

  /** A sequence is its part before i, its i-th element and its part after i. */
  lemma SplitAt<T>(s: seq<T>, i: int)
    requires 0 <= i < |s|
    ensures s == (s[..i] + [s[i]]) + s[i + 1..]
  {
  }

  /** The last element of s found in t, and the rests still permutations of each other. */
  lemma MatchLast<T>(s: seq<T>, t: seq<T>) returns (i: int)
    requires s != [] && multiset(s) == multiset(t)
    ensures 0 <= i < |t| && t[i] == s[|s| - 1]
    ensures multiset(s[..|s| - 1]) == multiset(t[..i] + t[i + 1..])
  {
    var x := s[|s| - 1];
    assert x in multiset(t);
    i :| 0 <= i < |t| && t[i] == x;
    var pre, post, init := t[..i], t[i + 1..], s[..|s| - 1];
    assert t == pre + [x] + post;
    assert s == init + [x];
    var sm, tm := multiset(init), multiset(pre + post);
    assert multiset(t) == tm + multiset{x};
    assert multiset(s) == sm + multiset{x};
    assert sm == multiset(s) - multiset{x};
    assert tm == multiset(t) - multiset{x};
  }

  /** Two duplicate-free sequences with no element in common join into a
      duplicate-free sequence. */
  lemma NoDupsConcat<T>(s: seq<T>, r: seq<T>)
    requires NoDups(s) && NoDups(r) && forall x :: x in s ==> x !in r
    ensures NoDups(s + r)
  {
    var t := s + r;
    forall i, j | 0 <= i < j < |t|
      ensures t[i] != t[j]
    {
      if j < |s| {
        assert t[i] == s[i] && t[j] == s[j];
      } else if i >= |s| {
        assert t[i] == r[i - |s|] && t[j] == r[j - |s|];
      } else {
        assert t[i] == s[i] && t[j] == r[j - |s|];
        assert s[i] in s && s[i] !in r;
      }
    }
  }
}
