/** The horizontal article feed: its list of articles, the settle handler
    that feeds the reading history, and the recommendation button. */
module ArticleFeed {
  import opened Common
  import opened Types
  import opened FeedMerge
  import ArticleContext
  import History

  datatype State = State(articles: seq<Article>)

  /** Settle handler: records the title of the article at the snap just left;
      nothing for the trailing "find more" slide or an unready carousel. */
  function HandleArticleSwipe(st: State, ctx: ArticleContext.State, previous: Option<nat>): (r: ArticleContext.State)
    ensures previous.Some? && previous.value < |st.articles| ==>
              r == ArticleContext.AddToReadingHistory(ctx, st.articles[previous.value].title) &&
              r.readingHistory == History.Record(ctx.readingHistory, st.articles[previous.value].title)
    ensures !(previous.Some? && previous.value < |st.articles|) ==> r == ctx
    ensures r.savedArticles == ctx.savedArticles
  {
    if previous.Some? && previous.value < |st.articles| then
      ArticleContext.AddToReadingHistory(ctx, st.articles[previous.value].title)
    else ctx
  }

  /** The "Get Recommendations" button over the reading history. */
  function HandleGetRecommendations(st: State, readingHistory: seq<string>, initialArticles: seq<Article>,
                                    recommendArticles: seq<string> -> Reply): (r: (State, Outcome<Article>))
    ensures r.0.articles == r.1.items
    ensures |readingHistory| == 0 ==> r.1.request.None? && r.0 == st
    ensures |st.articles| <= |r.0.articles| && r.0.articles[..|st.articles|] == st.articles
    ensures r.1.notice == NewAdded ==> r.1.scrollTo == Some(|st.articles|) && |st.articles| < |r.0.articles|
    ensures r.1.notice != NewAdded ==> r.0 == st
    ensures |readingHistory| > 0 ==> r.1.request == Some(readingHistory)
    ensures r.1.scrollTo.Some? <==> r.1.notice == NewAdded
    ensures r.1.notice == ReadSomeFirst <==> |readingHistory| == 0
    ensures r.1.notice == NoNewRecommendations <==>
              |readingHistory| > 0 && recommendArticles(readingHistory).Recommended? &&
              NewItems(st.articles, recommendArticles(readingHistory).titles, initialArticles,
                       ArticleId, ArticleTitle) == []
    ensures |readingHistory| > 0 && recommendArticles(readingHistory).Recommended? ==>
              r.0.articles == Merge(st.articles, recommendArticles(readingHistory).titles, initialArticles,
                                    ArticleId, ArticleTitle) &&
              (r.1.notice == NewAdded <==>
                 NewItems(st.articles, recommendArticles(readingHistory).titles, initialArticles,
                          ArticleId, ArticleTitle) != [])
    ensures |readingHistory| > 0 && recommendArticles(readingHistory).GatewayFailed? ==>
              r.1.notice == FetchError && r.0 == st
  {
    var o := GetRecommendations(readingHistory, st.articles, initialArticles, recommendArticles,
                                ArticleId, ArticleTitle);
    (st.(articles := o.items), o)
  }
}
