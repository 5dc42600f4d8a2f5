/** Sequence vocabulary used to state the contracts: occurrence counts,
    removal of every copy of a value, subsequences and duplicate freedom. */
module Seqs {

  /** Number of occurrences of `x` in `s`. */
  function Count<T(==)>(s: seq<T>, x: T): (n: nat)
    ensures n <= |s|
    ensures n == 0 <==> x !in s
  {
    if s == [] then 0 else (if s[0] == x then 1 else 0) + Count(s[1..], x)
  }

  /** `a` can be obtained from `b` by deleting elements: every element of `a`
      occurs in `b`, in the same relative order. */
  predicate IsSubseq<T(==)>(a: seq<T>, b: seq<T>)
    decreases |b|
  {
    a == [] || (b != [] && ((a[0] == b[0] && IsSubseq(a[1..], b[1..])) || IsSubseq(a, b[1..])))
  }

  /** No value occurs twice. */
  predicate NoDups<T(==)>(s: seq<T>) {
    s == [] || (s[0] !in s[1..] && NoDups(s[1..]))
  }

  /** `s` with every copy of `x` removed (JavaScript `s.filter(e => e !== x)`). */
  function RemoveAll<T(==)>(s: seq<T>, x: T): (r: seq<T>)
    ensures x !in r
    ensures forall i :: 0 <= i < |r| ==> r[i] in s && r[i] != x
    ensures forall i :: 0 <= i < |s| && s[i] != x ==> s[i] in r
    ensures |r| == |s| - Count(s, x)
    ensures IsSubseq(r, s)
    ensures x !in s ==> r == s
  {
    if s == [] then []
    else if s[0] == x then RemoveAll(s[1..], x)
    else [s[0]] + RemoveAll(s[1..], x)
  }

  lemma {:induction false} SubseqMembers<T>(a: seq<T>, b: seq<T>)
    requires IsSubseq(a, b)
    ensures forall x :: x in a ==> x in b
    decreases |b|
  {
    if a != [] {
      if a[0] == b[0] && IsSubseq(a[1..], b[1..]) {
        SubseqMembers(a[1..], b[1..]);
        forall x | x in a ensures x in b {
          if x != a[0] {
            assert x in a[1..];
          }
        }
      } else {
        SubseqMembers(a, b[1..]);
      }
    }
  }

  lemma {:induction false} SubseqRefl<T>(s: seq<T>)
    ensures IsSubseq(s, s)
  {
    if s != [] {
      SubseqRefl(s[1..]);
    }
  }

  /** Keeping only a prefix of a subsequence gives a subsequence. */
  lemma {:induction false} SubseqPrefix<T>(a: seq<T>, b: seq<T>, k: nat)
    requires IsSubseq(a, b)
    requires k <= |a|
    ensures IsSubseq(a[..k], b)
    decreases |b|
  {
    if k > 0 {
      if a[0] == b[0] && IsSubseq(a[1..], b[1..]) {
        SubseqPrefix(a[1..], b[1..], k - 1);
        assert a[..k][1..] == a[1..][..k - 1];
      } else {
        SubseqPrefix(a, b[1..], k);
      }
    }
  }

  /** A subsequence of a duplicate-free sequence is duplicate-free. */
  lemma {:induction false} SubseqNoDups<T>(a: seq<T>, b: seq<T>)
    requires IsSubseq(a, b) && NoDups(b)
    ensures NoDups(a)
    decreases |b|
  {
    if a != [] {
      if a[0] == b[0] && IsSubseq(a[1..], b[1..]) {
        SubseqNoDups(a[1..], b[1..]);
        SubseqMembers(a[1..], b[1..]);
      } else {
        SubseqNoDups(a, b[1..]);
      }
    }
  }

  /** A prefix of a duplicate-free sequence is duplicate-free. */
  lemma PrefixNoDups<T>(s: seq<T>, k: nat)
    requires NoDups(s) && k <= |s|
    ensures NoDups(s[..k])
  {
    SubseqRefl(s);
    SubseqPrefix(s, s, k);
    SubseqNoDups(s[..k], s);
  }
}
