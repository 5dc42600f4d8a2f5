/** The recommendation merge shared by the paper feed and the article feed:
    turn recommended titles into pool items not yet in the feed, append them,
    and decide what to tell the user and where to scroll. */
module FeedMerge {
  import opened Common
  import opened Seqs
  import opened Keyed

  /** The items of `pool`, in pool order, whose title is recommended and whose
      id is not yet in `feed`. */
  function NewItems<T(==)>(feed: seq<T>, titles: seq<string>, pool: seq<T>,
                           id: T -> string, title: T -> string): (r: seq<T>)
    ensures IsSubseq(r, pool)
    ensures forall i :: 0 <= i < |r| ==> title(r[i]) in titles && !HasKey(feed, id, id(r[i]))
    ensures forall i :: 0 <= i < |pool| && title(pool[i]) in titles && !HasKey(feed, id, id(pool[i])) ==>
              pool[i] in r && Count(r, pool[i]) == Count(pool, pool[i])
  {
    if pool == [] then []
    else
      var rest := NewItems(feed, titles, pool[1..], id, title);
      assert forall i :: 0 < i < |pool| ==> pool[i] == pool[1..][i - 1];
      if title(pool[0]) in titles && !HasKey(feed, id, id(pool[0])) then
        var r := [pool[0]] + rest;
        assert r[1..] == rest;
        assert Count(rest, pool[0]) == Count(pool[1..], pool[0]) by {
          if pool[0] !in pool[1..] {
            SubseqMembers(rest, pool[1..]);
          }
        }
        r
      else
        assert IsSubseq(rest, pool) by {
          if rest != [] {
            assert pool != [];
          }
        }
        rest
  }

  /** The feed after appending the new items. */
  function Merge<T(==)>(feed: seq<T>, titles: seq<string>, pool: seq<T>,
                        id: T -> string, title: T -> string): (r: seq<T>)
    ensures |feed| <= |r|
    ensures r[..|feed|] == feed
    ensures r[|feed|..] == NewItems(feed, titles, pool, id, title)
  {
    feed + NewItems(feed, titles, pool, id, title)
  }

  /** After a merge every recommended pool item is in the feed. */
  lemma MergeCoversCandidates<T>(feed: seq<T>, titles: seq<string>, pool: seq<T>,
                                 id: T -> string, title: T -> string)
    ensures forall i :: 0 <= i < |pool| && title(pool[i]) in titles ==>
              HasKey(Merge(feed, titles, pool, id, title), id, id(pool[i]))
  {
  }

  /** When every recommended pool item is already in the feed, nothing is new. */
  lemma {:induction false} NothingNewWhenCovered<T>(feed: seq<T>, titles: seq<string>, pool: seq<T>,
                                                   id: T -> string, title: T -> string)
    requires forall i :: 0 <= i < |pool| && title(pool[i]) in titles ==> HasKey(feed, id, id(pool[i]))
    ensures NewItems(feed, titles, pool, id, title) == []
    decreases |pool|
  {
    if pool != [] {
      assert forall i :: 0 <= i < |pool[1..]| ==> pool[1..][i] == pool[i + 1];
      NothingNewWhenCovered(feed, titles, pool[1..], id, title);
    }
  }

  /** Merging again with the same recommendations and pool adds nothing. */
  lemma MergeIdempotent<T>(feed: seq<T>, titles: seq<string>, pool: seq<T>,
                           id: T -> string, title: T -> string)
    ensures NewItems(Merge(feed, titles, pool, id, title), titles, pool, id, title) == []
    ensures Merge(Merge(feed, titles, pool, id, title), titles, pool, id, title)
            == Merge(feed, titles, pool, id, title)
  {
    var m := Merge(feed, titles, pool, id, title);
    var again := NewItems(m, titles, pool, id, title);
    MergeCoversCandidates(feed, titles, pool, id, title);
    NothingNewWhenCovered(m, titles, pool, id, title);
    assert m + [] == m;
  }

  lemma {:induction false} SubseqUniqueKeys<T>(a: seq<T>, b: seq<T>, id: T -> string)
    requires IsSubseq(a, b) && UniqueKeys(b, id)
    ensures UniqueKeys(a, id)
    decreases |b|
  {
    if a != [] {
      if a[0] == b[0] && IsSubseq(a[1..], b[1..]) {
        SubseqUniqueKeys(a[1..], b[1..], id);
        SubseqMembers(a[1..], b[1..]);
        forall j | 0 < j < |a| ensures id(a[0]) != id(a[j]) {
          assert a[j] == a[1..][j - 1];
          assert a[j] in a[1..];
          var k :| 0 <= k < |b[1..]| && b[1..][k] == a[j];
          assert b[k + 1] == a[j];
        }
        forall i, j | 0 <= i < j < |a| ensures id(a[i]) != id(a[j]) {
          if i > 0 {
            assert a[i] == a[1..][i - 1] && a[j] == a[1..][j - 1];
          }
        }
      } else {
        SubseqUniqueKeys(a, b[1..], id);
      }
    }
  }

  /** When the feed and the pool each have unique ids, so does the merged feed. */
  lemma MergeKeepsUniqueIds<T>(feed: seq<T>, titles: seq<string>, pool: seq<T>,
                               id: T -> string, title: T -> string)
    requires UniqueKeys(feed, id) && UniqueKeys(pool, id)
    ensures UniqueKeys(Merge(feed, titles, pool, id, title), id)
  {
    var added := NewItems(feed, titles, pool, id, title);
    var m := Merge(feed, titles, pool, id, title);
    SubseqUniqueKeys(added, pool, id);
    forall i, j | 0 <= i < j < |m| ensures id(m[i]) != id(m[j]) {
      if j >= |feed| {
        assert m[j] == added[j - |feed|];
        if i < |feed| {
          assert m[i] == feed[i];
          assert !HasKey(feed, id, id(added[j - |feed|]));
        } else {
          assert m[i] == added[i - |feed|];
        }
      }
    }
  }

  /** What the recommendation gateway answers: a list of titles, or a failure. */
  datatype Reply = Recommended(titles: seq<string>) | GatewayFailed

  /** The toast shown to the user at the end of a recommendation request. */
  datatype Notice = ReadSomeFirst | NewAdded | NoNewRecommendations | FetchError

  /** The result of one "Get Recommendations" press: the feed afterwards, the
      history sent to the gateway (None when no call was made), the toast, and
      the index scrolled to. */
  datatype Outcome<T> = Outcome(items: seq<T>, request: Option<seq<string>>,
                                notice: Notice, scrollTo: Option<nat>)

  /** One "Get Recommendations" press, as one atomic step over the current feed.
      `gateway` stands for the opaque recommendation call and `pool` for the
      fixed candidate items. */
  function GetRecommendations<T(==)>(history: seq<string>, items: seq<T>, pool: seq<T>,
                                     gateway: seq<string> -> Reply,
                                     id: T -> string, title: T -> string): (o: Outcome<T>)
    ensures o.request.None? <==> |history| == 0
    ensures o.request.Some? ==> o.request.value == history
    ensures o.notice == ReadSomeFirst <==> |history| == 0
    ensures o.notice == NoNewRecommendations <==>
              |history| > 0 && gateway(history).Recommended? &&
              NewItems(items, gateway(history).titles, pool, id, title) == []
    ensures gateway(history).GatewayFailed? && |history| > 0 ==> o.notice == FetchError
    ensures |items| <= |o.items| && o.items[..|items|] == items
    ensures o.items == items <==> o.notice != NewAdded
    ensures o.scrollTo.Some? <==> o.notice == NewAdded
    ensures o.notice == NewAdded ==>
              o.scrollTo == Some(|items|) && |items| < |o.items| &&
              o.items == Merge(items, gateway(history).titles, pool, id, title)
    ensures |history| > 0 && gateway(history).Recommended? ==>
              o.items == Merge(items, gateway(history).titles, pool, id, title) &&
              o.notice != FetchError &&
              (o.notice == NewAdded <==> NewItems(items, gateway(history).titles, pool, id, title) != [])
  {
    if |history| == 0 then Outcome(items, None, ReadSomeFirst, None)
    else
      match gateway(history)
      case GatewayFailed => Outcome(items, Some(history), FetchError, None)
      case Recommended(titles) =>
        var added := NewItems(items, titles, pool, id, title);
        if |added| > 0 then
          Outcome(items + added, Some(history), NewAdded, Some(|items|))
        else
          Outcome(items, Some(history), NoNewRecommendations, None)
  }

  /** A feed that already holds the whole pool can never gain an item: every
      recommended title resolves to an id already present. */
  lemma PoolAlreadyInFeed<T>(history: seq<string>, items: seq<T>, pool: seq<T>,
                             gateway: seq<string> -> Reply, id: T -> string, title: T -> string)
    requires |pool| <= |items| && items[..|pool|] == pool
    ensures GetRecommendations(history, items, pool, gateway, id, title).notice != NewAdded
    ensures GetRecommendations(history, items, pool, gateway, id, title).items == items
  {
    if |history| > 0 && gateway(history).Recommended? {
      var titles := gateway(history).titles;
      forall i | 0 <= i < |pool| && title(pool[i]) in titles ensures HasKey(items, id, id(pool[i])) {
        assert items[i] == pool[i];
      }
      NothingNewWhenCovered(items, titles, pool, id, title);
    }
  }
}
