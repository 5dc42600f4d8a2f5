/** The article context: saved articles and reading history. Browser storage
    is reduced to the value read at mount and the value written back. */
module ArticleContext {
  import opened Common
  import opened Seqs
  import opened Keyed
  import opened Types
  import History

  datatype State = State(savedArticles: seq<Article>, readingHistory: seq<string>)

  /** The provider after mounting: the stored saved list, or the empty list when
      nothing is stored or the text does not parse; an empty reading history. */
  function Load(stored: StoredValue<seq<Article>>): (st: State)
    ensures st.readingHistory == []
    ensures stored.Present? ==> st.savedArticles == stored.value
    ensures !stored.Present? ==> st.savedArticles == []
  {
    State(if stored.Present? then stored.value else [], [])
  }

  /** The blob written to storage whenever the saved list changes. */
  function Persist(st: State): StoredValue<seq<Article>> {
    Present(st.savedArticles)
  }

  /** Whether some saved article has the id. */
  predicate IsArticleSaved(st: State, articleId: string): (b: bool)
    ensures b <==> exists a :: a in st.savedArticles && a.id == articleId
    ensures b <==> CountKey(st.savedArticles, ArticleId, articleId) > 0
  {
    HasKey(st.savedArticles, ArticleId, articleId)
  }

  /** Appends an article to the saved list, without checking for an existing copy. */
  function AddSavedArticle(st: State, article: Article): (r: State)
    ensures |r.savedArticles| == |st.savedArticles| + 1
    ensures r.savedArticles[..|st.savedArticles|] == st.savedArticles
    ensures r.savedArticles[|st.savedArticles|] == article
    ensures IsArticleSaved(r, article.id)
    ensures CountKey(r.savedArticles, ArticleId, article.id)
            == CountKey(st.savedArticles, ArticleId, article.id) + 1
    ensures r.readingHistory == st.readingHistory
  {
    CountKeyAppend(st.savedArticles, ArticleId, article, article.id);
    var saved := st.savedArticles + [article];
    assert ArticleId(saved[|saved| - 1]) == article.id;
    st.(savedArticles := saved)
  }

  /** Drops every saved article with the given id; the others stay, in order. */
  function RemoveSavedArticle(st: State, articleId: string): (r: State)
    ensures !IsArticleSaved(r, articleId)
    ensures IsSubseq(r.savedArticles, st.savedArticles)
    ensures forall i :: 0 <= i < |st.savedArticles| && st.savedArticles[i].id != articleId ==>
              st.savedArticles[i] in r.savedArticles
    ensures |r.savedArticles| == |st.savedArticles| - CountKey(st.savedArticles, ArticleId, articleId)
    ensures r.readingHistory == st.readingHistory
  {
    st.(savedArticles := RemoveKey(st.savedArticles, ArticleId, articleId))
  }

  /** Records a read article title in the bounded reading history. */
  function AddToReadingHistory(st: State, articleTitle: string): (r: State)
    ensures r.readingHistory == History.Record(st.readingHistory, articleTitle)
    ensures |r.readingHistory|
            == Min(History.MaxEntries, 1 + |st.readingHistory| - Count(st.readingHistory, articleTitle))
    ensures 1 <= |r.readingHistory| <= History.MaxEntries
    ensures r.readingHistory[0] == articleTitle
    ensures Count(r.readingHistory, articleTitle) == 1
    ensures forall i :: 0 <= i < |r.readingHistory| ==>
              r.readingHistory[i] == articleTitle || r.readingHistory[i] in st.readingHistory
    ensures IsSubseq(r.readingHistory[1..], st.readingHistory)
    ensures r.savedArticles == st.savedArticles
  {
    History.RecordSpec(st.readingHistory, articleTitle);
    st.(readingHistory := History.Record(st.readingHistory, articleTitle))
  }

  /** What a caller of the provider can do to it. The persist-effect model
      below mirrors the one of the paper context, as the two providers
      repeat the same effect over their own saved lists. */
  datatype Edit = Save(article: Article) | Unsave(articleId: string) | Read(articleTitle: string)

  function ApplyEdit(st: State, e: Edit): State {
    match e
    case Save(article) => AddSavedArticle(st, article)
    case Unsave(articleId) => RemoveSavedArticle(st, articleId)
    case Read(articleTitle) => AddToReadingHistory(st, articleTitle)
  }

  /** The persist effect: storage is rewritten whenever the saved list changed. */
  function Sync(stored: StoredValue<seq<Article>>, before: State, after: State): StoredValue<seq<Article>> {
    if after.savedArticles != before.savedArticles then Persist(after) else stored
  }

  /** The state and the stored value after applying `edits` in order. */
  function Replay(st: State, stored: StoredValue<seq<Article>>, edits: seq<Edit>): (State, StoredValue<seq<Article>>)
    decreases |edits|
  {
    if edits == [] then (st, stored)
    else
      var next := ApplyEdit(st, edits[0]);
      Replay(next, Sync(stored, st, next), edits[1..])
  }

  /** Once storage holds the saved list, it keeps holding it through any edits. */
  lemma {:induction false} ReplayKeepsStoreInSync(st: State, stored: StoredValue<seq<Article>>, edits: seq<Edit>)
    requires stored == Persist(st)
    ensures Replay(st, stored, edits).1 == Persist(Replay(st, stored, edits).0)
    decreases |edits|
  {
    if edits != [] {
      var next := ApplyEdit(st, edits[0]);
      ReplayKeepsStoreInSync(next, Sync(stored, st, next), edits[1..]);
    }
  }

  /** Mount, then any saves, unsaves and reads, then mount again: the saved
      list survives and the reading history is lost. */
  lemma Remount(stored: StoredValue<seq<Article>>, edits: seq<Edit>)
    ensures var mounted := Load(stored);
            var last := Replay(mounted, Persist(mounted), edits);
            Load(last.1) == State(last.0.savedArticles, [])
  {
    var mounted := Load(stored);
    ReplayKeepsStoreInSync(mounted, Persist(mounted), edits);
  }
}
