/** The paper context: saved papers, view history and the feed items, with
    the operations the provider exposes. Browser storage is reduced to the
    value read at mount and the value written back. */
module PaperContext {
  import opened Common
  import opened Seqs
  import opened Keyed
  import opened Types
  import History

  datatype State = State(savedPapers: seq<Paper>, viewHistory: seq<string>, feedItems: seq<FeedItem>)

  /** The provider after mounting: the stored saved list, or the empty list when
      nothing is stored or the text does not parse; an empty history; the seed
      feed. */
  function Load(stored: StoredValue<seq<Paper>>, initialFeedItems: seq<FeedItem>): (st: State)
    ensures st.viewHistory == [] && st.feedItems == initialFeedItems
    ensures stored.Present? ==> st.savedPapers == stored.value
    ensures !stored.Present? ==> st.savedPapers == []
  {
    State(if stored.Present? then stored.value else [], [], initialFeedItems)
  }

  /** The blob written to storage whenever the saved list changes. */
  function Persist(st: State): StoredValue<seq<Paper>> {
    Present(st.savedPapers)
  }

  /** Whether some saved paper has the id. */
  predicate IsPaperSaved(st: State, paperId: string): (b: bool)
    ensures b <==> exists p :: p in st.savedPapers && p.id == paperId
    ensures b <==> CountKey(st.savedPapers, PaperId, paperId) > 0
  {
    HasKey(st.savedPapers, PaperId, paperId)
  }

  /** Appends a paper to the saved list, without checking for an existing copy. */
  function AddSavedPaper(st: State, paper: Paper): (r: State)
    ensures |r.savedPapers| == |st.savedPapers| + 1
    ensures r.savedPapers[..|st.savedPapers|] == st.savedPapers
    ensures r.savedPapers[|st.savedPapers|] == paper
    ensures IsPaperSaved(r, paper.id)
    ensures CountKey(r.savedPapers, PaperId, paper.id) == CountKey(st.savedPapers, PaperId, paper.id) + 1
    ensures r.viewHistory == st.viewHistory && r.feedItems == st.feedItems
  {
    CountKeyAppend(st.savedPapers, PaperId, paper, paper.id);
    var saved := st.savedPapers + [paper];
    assert PaperId(saved[|saved| - 1]) == paper.id;
    st.(savedPapers := saved)
  }

  /** Drops every saved paper with the given id, keeping the others in order. */
  function RemoveSavedPaper(st: State, paperId: string): (r: State)
    ensures !IsPaperSaved(r, paperId)
    ensures IsSubseq(r.savedPapers, st.savedPapers)
    ensures forall i :: 0 <= i < |st.savedPapers| && st.savedPapers[i].id != paperId ==>
              st.savedPapers[i] in r.savedPapers
    ensures |r.savedPapers| == |st.savedPapers| - CountKey(st.savedPapers, PaperId, paperId)
    ensures r.viewHistory == st.viewHistory && r.feedItems == st.feedItems
  {
    st.(savedPapers := RemoveKey(st.savedPapers, PaperId, paperId))
  }

  /** Records a viewed paper title in the bounded view history. */
  function AddToViewHistory(st: State, paperTitle: string): (r: State)
    ensures r.viewHistory == History.Record(st.viewHistory, paperTitle)
    ensures |r.viewHistory| == Min(History.MaxEntries, 1 + |st.viewHistory| - Count(st.viewHistory, paperTitle))
    ensures 1 <= |r.viewHistory| && r.viewHistory[0] == paperTitle
    ensures Count(r.viewHistory, paperTitle) == 1
    ensures |r.viewHistory| <= History.MaxEntries
    ensures forall i :: 0 <= i < |r.viewHistory| ==>
              r.viewHistory[i] == paperTitle || r.viewHistory[i] in st.viewHistory
    ensures IsSubseq(r.viewHistory[1..], st.viewHistory)
    ensures r.savedPapers == st.savedPapers && r.feedItems == st.feedItems
  {
    History.RecordSpec(st.viewHistory, paperTitle);
    st.(viewHistory := History.Record(st.viewHistory, paperTitle))
  }

  /** What a caller of the provider can do to it. The persist-effect model
      below mirrors the one of the article context, as the two providers
      repeat the same effect over their own saved lists. */
  datatype Edit = Save(paper: Paper) | Unsave(paperId: string) | View(paperTitle: string)

  function ApplyEdit(st: State, e: Edit): State {
    match e
    case Save(paper) => AddSavedPaper(st, paper)
    case Unsave(paperId) => RemoveSavedPaper(st, paperId)
    case View(paperTitle) => AddToViewHistory(st, paperTitle)
  }

  /** The persist effect: storage is rewritten whenever the saved list changed. */
  function Sync(stored: StoredValue<seq<Paper>>, before: State, after: State): StoredValue<seq<Paper>> {
    if after.savedPapers != before.savedPapers then Persist(after) else stored
  }

  /** The state and the stored value after applying `edits` in order. */
  function Replay(st: State, stored: StoredValue<seq<Paper>>, edits: seq<Edit>): (State, StoredValue<seq<Paper>>)
    decreases |edits|
  {
    if edits == [] then (st, stored)
    else
      var next := ApplyEdit(st, edits[0]);
      Replay(next, Sync(stored, st, next), edits[1..])
  }

  /** Once storage holds the saved list, it keeps holding it through any edits. */
  lemma {:induction false} ReplayKeepsStoreInSync(st: State, stored: StoredValue<seq<Paper>>, edits: seq<Edit>)
    requires stored == Persist(st)
    ensures Replay(st, stored, edits).1 == Persist(Replay(st, stored, edits).0)
    decreases |edits|
  {
    if edits != [] {
      var next := ApplyEdit(st, edits[0]);
      ReplayKeepsStoreInSync(next, Sync(stored, st, next), edits[1..]);
    }
  }

  /** Mount, then any saves, unsaves and views, then mount again: the saved
      list survives, the view history is lost and the feed is the seed again. */
  lemma Remount(stored: StoredValue<seq<Paper>>, initialFeedItems: seq<FeedItem>, edits: seq<Edit>)
    ensures var mounted := Load(stored, initialFeedItems);
            var last := Replay(mounted, Persist(mounted), edits);
            Load(last.1, initialFeedItems) == State(last.0.savedPapers, [], initialFeedItems)
  {
    var mounted := Load(stored, initialFeedItems);
    ReplayKeepsStoreInSync(mounted, Persist(mounted), edits);
  }

  /** The first feed item with the given id, if any. */
  function GetFeedItemById(st: State, id: string): (r: Option<FeedItem>)
    ensures r.None? <==> !HasKey(st.feedItems, FeedItemId, id)
    ensures r.Some? ==> exists i :: 0 <= i < |st.feedItems| && st.feedItems[i] == r.value &&
                                   r.value.Id() == id &&
                                   forall j :: 0 <= j < i ==> st.feedItems[j].Id() != id
  {
    Find(st.feedItems, FeedItemId, id)
  }
}
