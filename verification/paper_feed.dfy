/** The vertical paper feed: its own list of papers, the settle handler that
    feeds the view history, the recommendation button, and the drag gate that
    stops the feed from moving while a paper's side panes are open. */
module PaperFeed {
  import opened Common
  import opened Types
  import opened FeedMerge
  import PaperContext
  import History

  /** `canSwipeVertical` is the ref the paper views flip. */
  datatype State = State(papers: seq<Paper>, canSwipeVertical: bool)

  /** The feed when mounted: all seed papers, vertical swipe allowed. */
  function Init(initialPapers: seq<Paper>): (st: State)
    ensures st.papers == initialPapers && st.canSwipeVertical
  {
    State(initialPapers, true)
  }

  /** Settle handler: records the title of the paper at the snap just left.
      `previous` is None while the carousel is not ready; the index one past
      the last paper is the trailing "find more" slide. */
  function HandlePaperSwipe(st: State, ctx: PaperContext.State, previous: Option<nat>): (r: PaperContext.State)
    ensures previous.Some? && previous.value < |st.papers| ==>
              r == PaperContext.AddToViewHistory(ctx, st.papers[previous.value].title) &&
              r.viewHistory == History.Record(ctx.viewHistory, st.papers[previous.value].title)
    ensures !(previous.Some? && previous.value < |st.papers|) ==> r == ctx
    ensures r.savedPapers == ctx.savedPapers && r.feedItems == ctx.feedItems
  {
    if previous.Some? && previous.value < |st.papers| then
      PaperContext.AddToViewHistory(ctx, st.papers[previous.value].title)
    else ctx
  }

  /** The "Get Recommendations" button over the view history. */
  function HandleGetRecommendations(st: State, viewHistory: seq<string>, initialPapers: seq<Paper>,
                                    recommendPapers: seq<string> -> Reply): (r: (State, Outcome<Paper>))
    ensures r.0.canSwipeVertical == st.canSwipeVertical
    ensures r.0.papers == r.1.items
    ensures |viewHistory| == 0 ==> r.1.request.None? && r.0 == st
    ensures |st.papers| <= |r.0.papers| && r.0.papers[..|st.papers|] == st.papers
    ensures r.1.notice == NewAdded ==> r.1.scrollTo == Some(|st.papers|) && |st.papers| < |r.0.papers|
    ensures r.1.notice != NewAdded ==> r.0 == st
    ensures |viewHistory| > 0 ==> r.1.request == Some(viewHistory)
    ensures r.1.scrollTo.Some? <==> r.1.notice == NewAdded
    ensures r.1.notice == ReadSomeFirst <==> |viewHistory| == 0
    ensures r.1.notice == NoNewRecommendations <==>
              |viewHistory| > 0 && recommendPapers(viewHistory).Recommended? &&
              NewItems(st.papers, recommendPapers(viewHistory).titles, initialPapers, PaperId, PaperTitle) == []
    ensures |viewHistory| > 0 && recommendPapers(viewHistory).Recommended? ==>
              r.0.papers == Merge(st.papers, recommendPapers(viewHistory).titles, initialPapers, PaperId, PaperTitle) &&
              (r.1.notice == NewAdded <==>
                 NewItems(st.papers, recommendPapers(viewHistory).titles, initialPapers, PaperId, PaperTitle) != [])
    ensures |viewHistory| > 0 && recommendPapers(viewHistory).GatewayFailed? ==>
              r.1.notice == FetchError && r.0 == st
  {
    var o := GetRecommendations(viewHistory, st.papers, initialPapers, recommendPapers, PaperId, PaperTitle);
    (st.(papers := o.items), o)
  }

  /** What a paper view reports after its horizontal carousel selects a pane. */
  function SetVerticalSwipe(st: State, enabled: bool): (r: State)
    ensures r.canSwipeVertical == enabled && r.papers == st.papers
  {
    st.(canSwipeVertical := enabled)
  }

  /** Whether a drag start on the feed is stopped before the carousel sees it. */
  predicate DragStartStopped(st: State) {
    !st.canSwipeVertical
  }

  /** After a pane report, a drag is stopped exactly when swiping was disabled. */
  lemma DragGate(st: State, enabled: bool)
    ensures DragStartStopped(SetVerticalSwipe(st, enabled)) <==> !enabled
  {
  }

  /** The feed starts with the whole pool, so from any feed grown from the
      mounted one the button never adds a paper. */
  lemma RecommendationsNeverAddFromSeed(st: State, viewHistory: seq<string>, initialPapers: seq<Paper>,
                                        recommendPapers: seq<string> -> Reply)
    requires |initialPapers| <= |st.papers| && st.papers[..|initialPapers|] == initialPapers
    ensures HandleGetRecommendations(st, viewHistory, initialPapers, recommendPapers).1.notice != NewAdded
  {
    PoolAlreadyInFeed(viewHistory, st.papers, initialPapers, recommendPapers, PaperId, PaperTitle);
  }
}
