/** The paper card: save toggle, swipe-left to insights, status badge colour. */
module PaperCard {
  import opened Common
  import opened Keyed
  import opened Types
  import PaperContext

  /** A left swipe must cover strictly more than this many pixels. */
  const SwipeThreshold: real := 75.0

  /** The bookmark button: removes the paper (every copy with its id) when it
      is saved, appends it otherwise. */
  function HandleSaveToggle(ctx: PaperContext.State, paper: Paper): (r: PaperContext.State)
    ensures PaperContext.IsPaperSaved(r, paper.id) <==> !PaperContext.IsPaperSaved(ctx, paper.id)
    ensures PaperContext.IsPaperSaved(ctx, paper.id) ==>
              r.savedPapers == RemoveKey(ctx.savedPapers, PaperId, paper.id)
    ensures !PaperContext.IsPaperSaved(ctx, paper.id) ==>
              |r.savedPapers| == |ctx.savedPapers| + 1 && r.savedPapers[..|ctx.savedPapers|] == ctx.savedPapers &&
              r.savedPapers[|ctx.savedPapers|] == paper
    ensures r.viewHistory == ctx.viewHistory && r.feedItems == ctx.feedItems
  {
    if PaperContext.IsPaperSaved(ctx, paper.id) then PaperContext.RemoveSavedPaper(ctx, paper.id)
    else PaperContext.AddSavedPaper(ctx, paper)
  }

  /** Saving an unsaved paper and unsaving it again restores the context. */
  lemma ToggleTwiceRestores(ctx: PaperContext.State, paper: Paper)
    requires !PaperContext.IsPaperSaved(ctx, paper.id)
    ensures HandleSaveToggle(HandleSaveToggle(ctx, paper), paper) == ctx
  {
    RemoveAppendedKey(ctx.savedPapers, PaperId, paper);
  }

  /** The touch-end handler: a swipe left by more than the threshold opens the
      paper's insights page. */
  function HandleTouchEnd(paper: Paper, touchStartX: real, touchEndX: real): (r: Option<string>)
    ensures r.Some? <==> touchStartX - touchEndX > SwipeThreshold
    ensures r.Some? ==> r.value == "/paper/" + paper.id + "/insights"
  {
    if touchStartX - touchEndX > SwipeThreshold then Some("/paper/" + paper.id + "/insights") else None
  }

  /** The badge colour for a trial status. */
  function GetStatusColor(status: string): (c: string)
    ensures status == "Recruiting" ==> c == "bg-blue-500"
    ensures status == "Completed" ==> c == "bg-green-500"
    ensures status == "Terminated" ==> c == "bg-red-500"
    ensures c == "bg-gray-500" <==> status != "Recruiting" && status != "Completed" && status != "Terminated"
  {
    match status
    case "Recruiting" => "bg-blue-500"
    case "Completed" => "bg-green-500"
    case "Terminated" => "bg-red-500"
    case _ => "bg-gray-500"
  }
}

/** The article card's bookmark button. */
module ArticleCard {
  import opened Keyed
  import opened Types
  import ArticleContext

  /** Removes the article (every copy with its id) when it is saved, appends
      it otherwise. */
  function HandleSaveToggle(ctx: ArticleContext.State, article: Article): (r: ArticleContext.State)
    ensures ArticleContext.IsArticleSaved(r, article.id) <==> !ArticleContext.IsArticleSaved(ctx, article.id)
    ensures ArticleContext.IsArticleSaved(ctx, article.id) ==>
              r.savedArticles == RemoveKey(ctx.savedArticles, ArticleId, article.id) &&
              |r.savedArticles| == |ctx.savedArticles| - CountKey(ctx.savedArticles, ArticleId, article.id)
    ensures !ArticleContext.IsArticleSaved(ctx, article.id) ==>
              |r.savedArticles| == |ctx.savedArticles| + 1 &&
              r.savedArticles[..|ctx.savedArticles|] == ctx.savedArticles &&
              r.savedArticles[|ctx.savedArticles|] == article
    ensures r.readingHistory == ctx.readingHistory
  {
    if ArticleContext.IsArticleSaved(ctx, article.id) then ArticleContext.RemoveSavedArticle(ctx, article.id)
    else ArticleContext.AddSavedArticle(ctx, article)
  }

  /** Saving an unsaved article and unsaving it again restores the context. */
  lemma ToggleTwiceRestores(ctx: ArticleContext.State, article: Article)
    requires !ArticleContext.IsArticleSaved(ctx, article.id)
    ensures HandleSaveToggle(HandleSaveToggle(ctx, article), article) == ctx
  {
    RemoveAppendedKey(ctx.savedArticles, ArticleId, article);
  }
}
