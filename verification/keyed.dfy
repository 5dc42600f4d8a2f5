/** Collections of records identified by a string key (the `id` field):
    existence tests, removal of every record with a key, first-match lookup,
    and key uniqueness. The key is passed as a function so that papers,
    articles and feed items share one definition. */
module Keyed {
  import opened Common
  import opened Seqs

  /** Some record of `s` has key `k` (JavaScript `s.some(x => key(x) === k)`). */
  predicate HasKey<T>(s: seq<T>, key: T -> string, k: string) {
    exists i :: 0 <= i < |s| && key(s[i]) == k
  }

  /** Number of records of `s` with key `k`. */
  function CountKey<T>(s: seq<T>, key: T -> string, k: string): (n: nat)
    ensures n <= |s|
    ensures n == 0 <==> !HasKey(s, key, k)
  {
    if s == [] then 0
    else
      assert forall i :: 0 < i < |s| ==> s[i] == s[1..][i - 1];
      (if key(s[0]) == k then 1 else 0) + CountKey(s[1..], key, k)
  }

  /** `s` without its records of key `k` (JavaScript `s.filter(x => key(x) !== k)`). */
  function RemoveKey<T(==)>(s: seq<T>, key: T -> string, k: string): (r: seq<T>)
    ensures forall i :: 0 <= i < |r| ==> key(r[i]) != k
    ensures forall i :: 0 <= i < |s| && key(s[i]) != k ==> s[i] in r
    ensures IsSubseq(r, s)
    ensures |r| == |s| - CountKey(s, key, k)
  {
    if s == [] then []
    else
      var rest := RemoveKey(s[1..], key, k);
      assert forall i :: 0 < i < |s| ==> s[i] == s[1..][i - 1];
      if key(s[0]) == k then
        assert IsSubseq(rest, s) by {
          if rest != [] {
            assert s != [];
          }
        }
        rest
      else
        assert ([s[0]] + rest)[1..] == rest;
        [s[0]] + rest
  }

  /** The first record of `s` with key `k` (JavaScript `s.find(...)`). */
  function Find<T(==)>(s: seq<T>, key: T -> string, k: string): (r: Option<T>)
    ensures r.None? <==> !HasKey(s, key, k)
    ensures r.Some? ==> exists i :: 0 <= i < |s| && s[i] == r.value && key(s[i]) == k &&
                                   forall j :: 0 <= j < i ==> key(s[j]) != k
  {
    if s == [] then None
    else if key(s[0]) == k then Some(s[0])
    else
      var r := Find(s[1..], key, k);
      assert forall i :: 0 < i < |s| ==> s[i] == s[1..][i - 1];
      if r.Some? then
        var i :| 0 <= i < |s[1..]| && s[1..][i] == r.value && key(s[1..][i]) == k &&
                 forall j :: 0 <= j < i ==> key(s[1..][j]) != k;
        assert s[i + 1] == r.value && forall j :: 0 <= j < i + 1 ==> key(s[j]) != k;
        r
      else
        r
  }

  /** No two records of `s` share a key. */
  predicate UniqueKeys<T>(s: seq<T>, key: T -> string) {
    forall i, j :: 0 <= i < j < |s| ==> key(s[i]) != key(s[j])
  }

  /** Removing a key that was just appended, and nowhere else present,
      gives back the original sequence. */
  lemma {:induction false} RemoveAppendedKey<T>(s: seq<T>, key: T -> string, x: T)
    requires !HasKey(s, key, key(x))
    ensures RemoveKey(s + [x], key, key(x)) == s
    decreases |s|
  {
    if s == [] {
      assert RemoveKey([x], key, key(x)) == RemoveKey([x][1..], key, key(x));
    } else {
      assert (s + [x])[1..] == s[1..] + [x];
      assert !HasKey(s[1..], key, key(x)) by {
        forall i | 0 <= i < |s[1..]| ensures key(s[1..][i]) != key(x) {
          assert s[1..][i] == s[i + 1];
        }
      }
      assert key(s[0]) != key(x);
      RemoveAppendedKey(s[1..], key, x);
      assert s == [s[0]] + s[1..];
    }
  }

  /** Appending one record adds one to the count of its key and leaves the
      other keys' counts alone. */
  lemma {:induction false} CountKeyAppend<T>(s: seq<T>, key: T -> string, x: T, k: string)
    ensures CountKey(s + [x], key, k) == CountKey(s, key, k) + (if key(x) == k then 1 else 0)
    decreases |s|
  {
    if s == [] {
      assert CountKey([x], key, k) == (if key(x) == k then 1 else 0) + CountKey([x][1..], key, k);
    } else {
      assert (s + [x])[1..] == s[1..] + [x];
      CountKeyAppend(s[1..], key, x, k);
    }
  }
}
