/** Concrete runs of the feed and history logic, checked
    against the general definitions. */
module Scenarios {
  import opened Common
  import opened Seqs
  import opened Types
  import opened History
  import opened FeedMerge
  import opened Keyed
  import PaperFeed
  import PaperContext

  function P(id: string, title: string): Paper {
    Paper(id, title, "", "", "Recruiting", "Phase 1", "")
  }

  /** Viewing t1, t2, t1 leaves [t1, t2]: t1 moved to the front, no copy. */
  lemma DedupAndRecency(t1: string, t2: string)
    requires t1 != t2
    ensures Record(Record(Record([], t1), t2), t1) == [t1, t2]
  {
  }

  /** Recording 25 distinct titles keeps exactly the last 20, newest first. */
  lemma HistoryBound(ts: seq<string>)
    requires NoDups(ts) && |ts| == 25
    ensures |RecordAll([], ts)| == 20
    ensures forall i :: 0 <= i < 20 ==> RecordAll([], ts)[i] == ts[24 - i]
  {
    RecordAllFromEmpty(ts);
  }

  /** A candidate sharing a title with a feed item but not its id is added. */
  lemma TitleReuseAllowed()
    ensures Merge([P("a", "X")], ["X"], [P("b", "X")], PaperId, PaperTitle) == [P("a", "X"), P("b", "X")]
  {
  }

  function ReturnsC(history: seq<string>): Reply {
    Recommended(["C"])
  }

  /** Settling off slide 0 and then slide 1 of the seed [1:A, 2:B] records A, then B. */
  lemma SwipesRecordAThenB()
    ensures var feed := PaperFeed.Init([P("1", "A"), P("2", "B")]);
            var ctx1 := PaperFeed.HandlePaperSwipe(feed, PaperContext.Load(Absent, []), Some(0));
            PaperFeed.HandlePaperSwipe(feed, ctx1, Some(1)).viewHistory == ["B", "A"]
  {
    assert Record([], "A") == ["A"];
    assert Record(["A"], "B") == ["B", "A"];
  }

  /** Against the seed [1:A, 2:B], a recommendation of C brings in pool item 3:C. */
  lemma RecommendingCAddsItem3()
    ensures NewItems([P("1", "A"), P("2", "B")], ["C"], [P("3", "C")], PaperId, PaperTitle) == [P("3", "C")]
  {
    var seed := [P("1", "A"), P("2", "B")];
    assert !HasKey(seed, PaperId, "3") by {
      forall i | 0 <= i < |seed| ensures PaperId(seed[i]) != "3" { }
    }
  }

  /** Seed feed [1:A, 2:B]; A then B are viewed; the gateway recommends C,
      which the pool holds as item 3: the feed becomes [1, 2, 3], scrolled to 2. */
  lemma EndToEnd()
    ensures var feed := PaperFeed.Init([P("1", "A"), P("2", "B")]);
            var ctx := PaperContext.Load(Absent, []);
            var ctx1 := PaperFeed.HandlePaperSwipe(feed, ctx, Some(0));
            var ctx2 := PaperFeed.HandlePaperSwipe(feed, ctx1, Some(1));
            var r := PaperFeed.HandleGetRecommendations(feed, ctx2.viewHistory, [P("3", "C")], ReturnsC);
            ctx2.viewHistory == ["B", "A"] &&
            r.0.papers == [P("1", "A"), P("2", "B"), P("3", "C")] &&
            r.1.notice == NewAdded && r.1.scrollTo == Some(2) && r.1.request == Some(["B", "A"])
  {
    SwipesRecordAThenB();
    RecommendingCAddsItem3();
  }

  /** With nothing viewed yet, no request is sent and the feed is unchanged. */
  lemma EmptyHistoryGuard(st: PaperFeed.State, pool: seq<Paper>, gateway: seq<string> -> Reply)
    ensures PaperFeed.HandleGetRecommendations(st, [], pool, gateway).1.request.None?
    ensures PaperFeed.HandleGetRecommendations(st, [], pool, gateway).1.notice == ReadSomeFirst
    ensures PaperFeed.HandleGetRecommendations(st, [], pool, gateway).0 == st
  {
  }
}
