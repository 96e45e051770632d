/** Sequence operations shared by the client and the backend: the
    order-preserving filter behind `Array.prototype.filter` and Python's
    list comprehensions, and reversal (Python's `xs[::-1]`). */
module Seqs {

  /** `sub` is `s` with some elements deleted and the rest kept in order
      (checked greedily, front to back). */
  predicate IsSubsequence<T(==)>(sub: seq<T>, s: seq<T>)
    decreases |s|
  {
    if sub == [] then true
    else if s == [] then false
    else if sub[0] == s[0] then IsSubsequence(sub[1..], s[1..])
    else IsSubsequence(sub, s[1..])
  }

  /** The elements of `s` that satisfy `keep`, in their original order. */
  function Filter<T(==,!new)>(s: seq<T>, keep: T -> bool): (r: seq<T>)
    ensures |r| <= |s|
  {
    if s == [] then []
    else if keep(s[0]) then [s[0]] + Filter(s[1..], keep)
    else Filter(s[1..], keep)
  }

  /** The filtered sequence is a subsequence of `s`; every kept element
      keeps its multiplicity and every other one is gone. */
  lemma {:induction false} FilterSelects<T(!new)>(s: seq<T>, keep: T -> bool)
    ensures IsSubsequence(Filter(s, keep), s)
    ensures forall x :: multiset(Filter(s, keep))[x] == if keep(x) then multiset(s)[x] else 0
    ensures forall x :: x in Filter(s, keep) <==> x in s && keep(x)
  {
    if s != [] {
      var rest := Filter(s[1..], keep);
      FilterSelects(s[1..], keep);
      assert s == [s[0]] + s[1..];
      if !keep(s[0]) {
        assert rest != [] ==> rest[0] != s[0] by {
          if rest != [] { assert rest[0] in rest; }
        }
      }
    }
  }

  /** A filter that keeps everything is the identity. */
  lemma {:induction false} FilterKeepsAll<T(!new)>(s: seq<T>, keep: T -> bool)
    requires forall i :: 0 <= i < |s| ==> keep(s[i])
    ensures Filter(s, keep) == s
  {
    if s != [] {
      FilterKeepsAll(s[1..], keep);
    }
  }

  /** A filter that drops some element returns a strictly shorter sequence. */
  lemma {:induction false} FilterDropShrinks<T(!new)>(s: seq<T>, keep: T -> bool, k: nat)
    requires k < |s| && !keep(s[k])
    ensures |Filter(s, keep)| < |s|
  {
    if k > 0 {
      FilterDropShrinks(s[1..], keep, k - 1);
    }
  }

  /** When nothing before position `k` is dropped and `s[k]` is kept,
      `s[k]` stays at position `k`. */
  lemma {:induction false} FilterKeepsPosition<T(!new)>(s: seq<T>, keep: T -> bool, k: nat)
    requires k < |s| && keep(s[k])
    requires forall j :: 0 <= j < k ==> keep(s[j])
    ensures k < |Filter(s, keep)| && Filter(s, keep)[k] == s[k]
  {
    if k > 0 {
      FilterKeepsPosition(s[1..], keep, k - 1);
    }
  }

  /** Every element of a subsequence is an element of the sequence. */
  lemma {:induction false} SubsequenceMembers<T>(sub: seq<T>, s: seq<T>)
    requires IsSubsequence(sub, s)
    ensures forall x :: x in sub ==> x in s
    decreases |s|
  {
    if sub != [] {
      if sub[0] == s[0] {
        SubsequenceMembers(sub[1..], s[1..]);
        forall x | x in sub ensures x in s {
          if x != sub[0] {
            assert x in sub[1..];
            assert x in s[1..];
          }
        }
      } else {
        SubsequenceMembers(sub, s[1..]);
        forall x | x in sub ensures x in s {
          assert x in s[1..];
        }
      }
    }
  }

  /** Filters that agree on every element give the same result. */
  lemma {:induction false} FilterCongruent<T(!new)>(s: seq<T>, f: T -> bool, g: T -> bool)
    requires forall t :: f(t) == g(t)
    ensures Filter(s, f) == Filter(s, g)
  {
    if s != [] {
      FilterCongruent(s[1..], f, g);
    }
  }

  /** `s` read back to front. */
  function Reverse<T>(s: seq<T>): (r: seq<T>)
    ensures |r| == |s|
    ensures forall i :: 0 <= i < |s| ==> r[i] == s[|s| - 1 - i]
  {
    if s == [] then [] else Reverse(s[1..]) + [s[0]]
  }
}
