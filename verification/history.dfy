/** The bounded most-recently-used title log kept by both the paper context
    (view history) and the article context (reading history). */
module History {
  import opened Common
  import opened Seqs

  /** The log keeps at most this many titles. */
  const MaxEntries: nat := 20

  /** The first `n` elements of `s`, or all of `s` when it is shorter
      (JavaScript `s.slice(0, n)`). */
  function Take<T>(s: seq<T>, n: nat): (r: seq<T>)
    ensures |r| == Min(n, |s|)
    ensures r == s[..|r|]
  {
    s[..Min(n, |s|)]
  }

  /** Records a title: it moves to (or is inserted at) the front, every earlier
      copy is dropped, and the log is cut back to `MaxEntries`. */
  function Record(h: seq<string>, t: string): (r: seq<string>)
    ensures 1 <= |r| <= MaxEntries
    ensures r[0] == t
  {
    Take([t] + RemoveAll(h, t), MaxEntries)
  }

  /** What recording promises: the title is first and occurs once, the log is
      bounded, its length counts the other titles kept, the other titles keep
      their relative order, nothing new appears, duplicate freedom is kept, and
      nothing is lost while the bound is not reached. */
  lemma RecordSpec(h: seq<string>, t: string)
    ensures t !in Record(h, t)[1..]
    ensures Count(Record(h, t), t) == 1
    ensures |Record(h, t)| == Min(MaxEntries, 1 + |h| - Count(h, t))
    ensures IsSubseq(Record(h, t)[1..], h)
    ensures forall i :: 0 <= i < |Record(h, t)| ==> Record(h, t)[i] == t || Record(h, t)[i] in h
    ensures NoDups(h) ==> NoDups(Record(h, t))
    ensures 1 + |h| - Count(h, t) <= MaxEntries ==>
              forall i :: 0 <= i < |h| ==> h[i] in Record(h, t)
  {
    var rest := RemoveAll(h, t);
    var full := [t] + rest;
    var r := Record(h, t);
    assert r == full[..|r|];
    assert r[1..] == rest[..|r| - 1];
    SubseqPrefix(rest, h, |r| - 1);
    SubseqMembers(r[1..], h);
    assert forall i :: 1 <= i < |r| ==> r[i] == r[1..][i - 1];
    assert r == [r[0]] + r[1..];
    if NoDups(h) {
      SubseqNoDups(rest, h);
      assert NoDups(full);
      PrefixNoDups(full, |r|);
    }
    if 1 + |h| - Count(h, t) <= MaxEntries {
      assert r == full;
      forall i | 0 <= i < |h| ensures h[i] in r {
        if h[i] != t {
          assert h[i] in rest;
        }
      }
    }
  }

  /** Recording the same title twice in a row is the same as recording it once. */
  lemma RecordIdempotent(h: seq<string>, t: string)
    ensures Record(Record(h, t), t) == Record(h, t)
  {
  }

  /** Records the titles of `ts` one after another, `ts[0]` first. */
  function RecordAll(h: seq<string>, ts: seq<string>): (r: seq<string>)
    ensures ts != [] ==> 1 <= |r| <= MaxEntries && r[0] == ts[|ts| - 1]
    decreases |ts|
  {
    if ts == [] then h else RecordAll(Record(h, ts[0]), ts[1..])
  }

  function Reverse<T>(s: seq<T>): (r: seq<T>)
    ensures |r| == |s|
    ensures forall i :: 0 <= i < |s| ==> r[i] == s[|s| - 1 - i]
  {
    if s == [] then [] else Reverse(s[1..]) + [s[0]]
  }

  lemma TakeOfTake<T>(a: seq<T>, b: seq<T>, n: nat)
    ensures Take(a + Take(b, n), n) == Take(a + b, n)
  {
  }

  /** Recording fresh, distinct titles into a short log keeps the most recent
      `MaxEntries` of them and of the old log, newest first. */
  lemma {:induction false} RecordAllDistinct(h: seq<string>, ts: seq<string>)
    requires NoDups(ts)
    requires forall i :: 0 <= i < |ts| ==> ts[i] !in h
    requires |h| <= MaxEntries
    ensures RecordAll(h, ts) == Take(Reverse(ts) + h, MaxEntries)
    decreases |ts|
  {
    if ts != [] {
      var t := ts[0];
      assert Count(h, t) == 0;
      var h' := Record(h, t);
      assert RemoveAll(h, t) == h;
      assert h' == Take([t] + h, MaxEntries);
      forall i | 0 <= i < |ts[1..]| ensures ts[1..][i] !in h' {
        assert ts[1..][i] == ts[i + 1];
        assert ts[i + 1] != t;
      }
      RecordAllDistinct(h', ts[1..]);
      TakeOfTake(Reverse(ts[1..]), [t] + h, MaxEntries);
      assert Reverse(ts) + h == Reverse(ts[1..]) + ([t] + h);
    }
  }

  /** Recording distinct titles into an empty log yields the last
      `MaxEntries` of them, most recent first. */
  lemma RecordAllFromEmpty(ts: seq<string>)
    requires NoDups(ts)
    ensures RecordAll([], ts) == Take(Reverse(ts), MaxEntries)
  {
    RecordAllDistinct([], ts);
    assert Reverse(ts) + [] == Reverse(ts);
  }
}
