# Feed and preference state of the MedLens client, in Dafny

This project models the client-side state logic of MedLens, a swipeable
feed of clinical-trial papers and articles. It covers:

- **History.** The bounded most-recently-used log of viewed paper titles
  and read article titles. A recorded title moves to the front, every older
  copy is dropped, and the log is cut to 20 entries.
- **Saved lists.** Saved papers and saved articles:
  - add appends without deduplication;
  - remove drops every record with the id;
  - the saved check is an existence test by id;
  - feed lookup by id returns the first match.
- **Recommendation merge.** The "Get Recommendations" button of both feeds.
  An empty history is refused before any call. The recommendation service
  is an opaque function from a history to a list of titles or a failure.
  Pool items whose title was recommended and whose id is not yet in the
  feed are appended in pool order, and the feed scrolls to the old length.
  The settle handlers record the title of the slide just left, but only
  when that slide holds an item.
- **Preferences.** The application-state context: onboarding flag, content
  preference, therapeutic interests. Storage is an explicit `Store` value,
  and each write can fail.
- **Route guards.** The top-level redirect and the onboarding redirect, as
  pure decisions.
- **Search.** The search filter: trim-blank guard, then an order-preserving,
  ASCII-case-insensitive substring filter over the saved papers.
- **Onboarding.** The four-step wizard, its progress bar and its finish
  handler.
- **Cards.** The paper and article cards: save toggles, the swipe-left
  threshold and the status badge colour.

Modules follow the source files:

- `History`, `Keyed`, `FeedMerge` and `Seqs` hold the shared logic and
  vocabulary.
- `PaperContext`, `ArticleContext`, `AppState`, `PaperFeed`, `ArticleFeed`,
  `AppRedirect`, `OnboardingRedirect`, `Search`, `Onboarding`, `PaperCard`
  and `ArticleCard` mirror one source component each.
- `Scenarios` replays concrete runs.

Facts about the code that the proofs make explicit:

- **The seed pool is already in the feed.** Both feeds start with the
  whole candidate pool (`initialPapers`, `initialArticles`) and only ever
  grow. So no recommendation can ever add an item in the shipped
  configuration (`FeedMerge.PoolAlreadyInFeed`,
  `PaperFeed.RecommendationsNeverAddFromSeed`). The merge is still modelled
  for an arbitrary pool.
- **A corrupt interests blob resets onboarding.** If the stored interests
  text does not parse, the load handler's `catch` sets the onboarding flag
  to false, even when `"true"` was stored (`AppState.Load`,
  `AppState.OnboardingRoundTrip`).
- **A failed write keeps the old in-memory value.** The three setters change
  memory only after the storage write succeeds. The interest toggle changes
  memory whatever the write does.
- **The pending-review queue has users but no definitions.**
  src/app/dashboard/page.tsx:22 takes `pendingPapers`, `approvePaper`,
  `rejectPaper` and `addPendingPaper` from `usePapers()`. The paper context
  (src/context/paper-context.tsx:8-19, 72-84) defines none of them, so the
  model leaves the queue out.
- **Responses are not limited to three titles.** The prompt asks for three
  recommendations (src/ai/flows/recommend-papers.ts:36), but the output
  schema is an unbounded array of strings (recommend-papers.ts:21-25). So
  the model accepts any list.

## Model

| member | source | states |
|---|---|---|
| History.Record | src/context/paper-context.tsx:61-66 | the recorded title is first and the log holds 1 to 20 titles |
| History.RecordSpec | src/context/paper-context.tsx:61-66 | the title occurs once; length is min(20, 1 + titles different from it); the others keep their order (subsequence of the old log); nothing new appears; duplicate freedom is kept; no old title is lost while the bound is not reached |
| History.RecordIdempotent | src/context/paper-context.tsx:61-66 | recording the same title twice in a row equals recording it once |
| History.RecordAllDistinct | src/context/paper-context.tsx:61-66 | recording fresh distinct titles into a short log gives the newest 20 of (titles reversed, then old log) |
| History.RecordAllFromEmpty | src/context/paper-context.tsx:61-66 | distinct titles recorded from empty give the last 20 of them, most recent first |
| Keyed.RemoveKey | src/context/paper-context.tsx:53-55 | no record with the id remains; every other record stays, in order; length drops by the number removed |
| Keyed.Find | src/context/paper-context.tsx:68-70 | none exactly when no record has the id; otherwise the record at the first index with that id |
| Keyed.CountKeyAppend | src/context/paper-context.tsx:49-51 | appending adds one to the count of its id and none to any other id |
| Keyed.RemoveAppendedKey | src/components/paper-card.tsx:34-43 | removing an id that was only just appended restores the list |
| PaperContext.Load | src/context/paper-context.tsx:24-37 | saved papers are the stored list, or empty when absent or unparsable; history is empty; feed is the seed |
| PaperContext.IsPaperSaved | src/context/paper-context.tsx:57-59 | true exactly when some saved paper has the id, i.e. its count of records with that id is positive |
| PaperContext.ReplayKeepsStoreInSync | src/context/paper-context.tsx:39-47 | once storage holds the saved list, the persist effect keeps it holding the current saved list through any saves, unsaves and views |
| PaperContext.Remount | src/context/paper-context.tsx:23-47 | mount, any edits, mount again: the saved list survives, the view history is empty and the feed is the seed |
| PaperContext.AddSavedPaper | src/context/paper-context.tsx:49-51 | exactly one element is added, at the end; the old list is a prefix; no dedup (the id's count rises by one); the paper is then saved |
| PaperContext.RemoveSavedPaper | src/context/paper-context.tsx:53-59 | the id is no longer saved; the others keep their order; the length drops by the number of copies |
| PaperContext.AddToViewHistory | src/context/paper-context.tsx:61-66 | the view history becomes the MRU record of the title: first and once, length min(20, 1 + titles different from it), nothing new; the other fields are unchanged |
| PaperContext.GetFeedItemById | src/context/paper-context.tsx:68-70 | the first feed item with the id, or none exactly when no item has it |
| ArticleContext.Load | src/context/article-context.tsx:18-31 | a missing or unparsable stored value gives an empty saved list; history is empty |
| ArticleContext.IsArticleSaved | src/context/article-context.tsx:51-53 | true exactly when some saved article has the id, i.e. its count of records with that id is positive |
| ArticleContext.ReplayKeepsStoreInSync | src/context/article-context.tsx:33-41 | once storage holds the saved list, the persist effect keeps it holding the current saved list through any saves, unsaves and reads |
| ArticleContext.Remount | src/context/article-context.tsx:18-41 | mount, any edits, mount again: the saved list survives and the reading history is empty |
| ArticleContext.AddSavedArticle | src/context/article-context.tsx:43-53 | appends exactly one article with no dedup; the article is then saved |
| ArticleContext.RemoveSavedArticle | src/context/article-context.tsx:47-53 | no article with the id remains; the others stay, in order |
| ArticleContext.AddToReadingHistory | src/context/article-context.tsx:55-60 | the reading history becomes the MRU record of the title: first and once, length min(20, 1 + titles different from it), the others in order, nothing new |
| FeedMerge.NewItems | src/components/paper-feed.tsx:70-72 | the new items are a subsequence of the pool, each with a recommended title and an id absent from the feed; every such pool item is kept with all its copies |
| FeedMerge.Merge | src/components/paper-feed.tsx:70-75 | the old feed is an unchanged prefix and the tail is the new items |
| FeedMerge.MergeCoversCandidates | src/components/paper-feed.tsx:70-75 | after a merge every recommended pool item's id is in the feed |
| FeedMerge.NothingNewWhenCovered | src/components/paper-feed.tsx:70-72 | if every recommended pool id is already present, nothing is new |
| FeedMerge.MergeIdempotent | src/components/paper-feed.tsx:70-75 | a second merge with the same titles and pool adds nothing |
| FeedMerge.MergeKeepsUniqueIds | src/components/paper-feed.tsx:70-75 | unique ids in feed and pool give unique ids in the merged feed |
| FeedMerge.GetRecommendations | src/components/paper-feed.tsx:57-87 | no call, and "read some first", exactly when the history is empty, else the history is sent; a failed call gives the error notice; "no new recommendations" exactly when a successful call brings no new item; a successful one gives the merged feed, "added" exactly when there are new items, never the error notice; the feed is unchanged unless items were added; after an addition the scroll target is the old length |
| FeedMerge.PoolAlreadyInFeed | src/components/paper-feed.tsx:68-72 | a feed that starts with the whole pool never gains an item |
| PaperFeed.Init | src/components/paper-feed.tsx:19-23 | the feed starts as the seed papers with vertical swipe allowed |
| PaperFeed.HandlePaperSwipe | src/components/paper-feed.tsx:29-36 | when the previous index holds a paper, the view history becomes the bounded MRU record of that paper's title; otherwise the context is unchanged |
| PaperFeed.HandleGetRecommendations | src/components/paper-feed.tsx:57-87 | "read some first", no call and no change exactly when the view history is empty; "no new recommendations" exactly when a successful call matches nothing new; otherwise the history is sent; on success the papers become the merge with the seed pool, "added" exactly when the merge brings new papers; on failure the error notice and no change; after an addition the scroll target is the old count; no scroll unless items were added |
| PaperFeed.SetVerticalSwipe | src/components/paper-feed.tsx:25-27 | sets the swipe flag and leaves the papers alone |
| PaperFeed.DragGate | src/components/paper-feed.tsx:41-45 | a drag start is stopped exactly when vertical swipe was disabled |
| PaperFeed.RecommendationsNeverAddFromSeed | src/components/paper-feed.tsx:68-72 | from a feed grown from the seed, the button never adds a paper |
| ArticleFeed.HandleArticleSwipe | src/components/article-feed.tsx:22-29 | when the previous index holds an article, the reading history becomes the bounded MRU record of its title; otherwise the context is unchanged |
| ArticleFeed.HandleGetRecommendations | src/components/article-feed.tsx:40-70 | "read some first", nothing fetched and no change exactly when the reading history is empty; "no new recommendations" exactly when a successful call matches nothing new; otherwise the history is sent; on success the articles become the merge with the seed pool, "added" exactly when it brings new articles; on failure the error notice and no change; the scroll target is the old count after an addition; no scroll unless items were added |
| AppState.Initial | src/context/app-state-context.tsx:25-27 | before loading, the onboarding flag is undefined, the preference is "both" and the interests are empty |
| AppState.Load | src/context/app-state-context.tsx:29-47 | the flag is true iff "true" is stored; a read failure or corrupt interests give false; the preference defaults to "both" unless a non-empty value is stored; interests are the stored list or empty |
| AppState.SetHasCompletedOnboarding | src/context/app-state-context.tsx:49-56 | a successful write stores String(value) and sets the flag; a failed one changes nothing |
| AppState.SetContentPreference | src/context/app-state-context.tsx:58-65 | a successful write stores and sets the preference; a failed one changes nothing |
| AppState.SetTherapeuticInterests | src/context/app-state-context.tsx:67-74 | a successful write stores and sets the list and leaves the other two keys alone; a failed one changes nothing |
| AppState.Toggle | src/context/app-state-context.tsx:78-80 | flips the membership of the interest and keeps the membership of every other interest |
| AppState.ToggleSpec | src/context/app-state-context.tsx:78-80 | an absent interest is appended at the end (length + 1); a present one is removed everywhere, the rest keeping their order |
| AppState.ToggleTwiceRestores | src/context/app-state-context.tsx:78-80 | toggling an absent interest twice restores the list |
| AppState.ToggleTherapeuticInterest | src/context/app-state-context.tsx:76-88 | memory always takes the toggled list (appended, or every copy removed); storage follows only on a successful write; the other two keys are untouched |
| AppState.OnboardingRoundTrip | src/context/app-state-context.tsx:29-56 | a written flag loads back as written, or as false when the stored interests are corrupt |
| AppState.PreferenceRoundTrip | src/context/app-state-context.tsx:29-65 | a written preference loads back, except "" which loads as "both" |
| AppState.InterestsRoundTrip | src/context/app-state-context.tsx:29-88 | after a successful toggle the next mount reads the toggled list and, the corrupt blob being replaced, the flag as stored; after a failed one it loads exactly what the previous storage gave, losing the toggle |
| AppRedirect.Decide | src/components/app-redirect.tsx:18-50 | no redirect while a context is missing or auth is loading; every target is "/", "/onboarding" or "/login" and differs from the current path |
| AppRedirect.DecideTable | src/components/app-redirect.tsx:30-47 | "/" iff signed in on /login; "/onboarding" iff signed in, flag exactly false, on neither /login nor /onboarding; "/login" iff signed out and not on /login |
| AppRedirect.UndefinedFlagNeverOnboards | src/components/app-redirect.tsx:38 | an undefined flag never triggers the onboarding redirect |
| OnboardingRedirect.Decide | src/components/onboarding-redirect.tsx:15-19 | redirects, always to /onboarding, iff the context exists, the flag is exactly false and the path is not /onboarding |
| OnboardingRedirect.AgreesWithAppRedirect | src/components/onboarding-redirect.tsx:16 | for a signed-in, loaded user off /login, both guards decide alike |
| Search.TrimEmptyIff | src/app/search/page.tsx:20 | a term trims to empty exactly when all its characters are white space or line terminators |
| Search.ContainsIff | src/app/search/page.tsx:25-27 | the substring test holds exactly when the needle occurs at some position |
| Search.FilterMatches | src/app/search/page.tsx:24-28 | the results are a subsequence of the input, each result matches, and every match is kept with all its copies |
| Search.HandleSearch | src/app/search/page.tsx:18-30 | the raw term is stored untrimmed; a blank term gives no results; otherwise a paper is included iff the lowered term occurs in its lowered title, summary or investigator, with as many copies as are saved; results keep their order |
| Search.CaseInsensitive | src/app/search/page.tsx:25-27 | terms equal after ASCII lowering give the same results |
| Onboarding.Start | src/app/onboarding/page.tsx:33-38 | the wizard starts at step 1 with progress 25 |
| Onboarding.Next | src/app/onboarding/page.tsx:98-172 | an enabled Next advances exactly one step; otherwise the step stays; the step stays in 1..4 |
| Onboarding.Progress | src/app/onboarding/page.tsx:37-38 | progress is 25 times the step, so one of 25, 50, 75, 100 |
| Onboarding.InterestsGate | src/app/onboarding/page.tsx:134 | step 2 cannot advance exactly while the interest list is empty; three Nexts from the start reach step 4 iff it is not |
| Onboarding.OnPreferenceChange | src/app/onboarding/page.tsx:71 | an empty toggle-group value leaves the session unchanged; otherwise a successful write stores and sets the preference and a failed one changes nothing; the other keys are untouched |
| Onboarding.HandleFinish | src/app/onboarding/page.tsx:40-45 | with a context and a successful write the flag becomes true and "true" is stored; the preference, the interests and their storage keys are untouched; a failed write changes nothing; the route is always "/" |
| Onboarding.FinishEndsOnboardingRedirects | src/app/onboarding/page.tsx:40-45 | after a successful Finish, neither route guard sends a signed-in, loaded user back to /onboarding |
| PaperCard.HandleSaveToggle | src/components/paper-card.tsx:34-43 | saved status flips: a saved paper is removed by id, an unsaved one appended after the unchanged old list |
| PaperCard.ToggleTwiceRestores | src/components/paper-card.tsx:34-43 | toggling an unsaved paper twice restores the context |
| PaperCard.HandleTouchEnd | src/components/paper-card.tsx:27-31 | navigation to /paper/{id}/insights iff start - end > 75, strictly |
| PaperCard.GetStatusColor | src/components/paper-card.tsx:63-70 | Recruiting is blue, Completed green and Terminated red; gray iff the status is none of these |
| ArticleCard.HandleSaveToggle | src/components/article-card.tsx:18-26 | saved status flips; turning it off removes every saved copy with the id; turning it on appends after the unchanged old list |
| ArticleCard.ToggleTwiceRestores | src/components/article-card.tsx:18-26 | toggling an unsaved article twice restores the context |
| Scenarios.DedupAndRecency | src/context/paper-context.tsx:61-66 | viewing t1, t2, t1 leaves [t1, t2] |
| Scenarios.HistoryBound | src/context/paper-context.tsx:61-66 | 25 distinct titles leave exactly the last 20, newest first |
| Scenarios.TitleReuseAllowed | src/components/paper-feed.tsx:70-72 | a pool item that shares a title with a feed item but has a new id is added |
| Scenarios.SwipesRecordAThenB | src/components/paper-feed.tsx:29-36 | settling off the seed's slide 0 and then slide 1 leaves the view history [B, A] |
| Scenarios.RecommendingCAddsItem3 | src/components/paper-feed.tsx:70-72 | against the seed [1:A, 2:B], a recommendation of C brings in exactly pool item 3:C |
| Scenarios.EndToEnd | src/components/paper-feed.tsx:29-77 | seed [1:A, 2:B], view A then B, C is recommended and pool item 3 is C: the feed is [1, 2, 3], scrolled to 2 |
| Scenarios.EmptyHistoryGuard | src/components/paper-feed.tsx:58-61 | with an empty history no request is sent, "read some first" is shown, and the feed is unchanged |

## Left out

- Browser storage and JSON:
  - each stored key is a `StoredValue` or `Option<string>`;
  - JSON encoding round-trips exactly;
  - the mount-time write of the initial empty saved list is not modelled, because the load effect reads storage before that write;
  - the persist effect's write failure (logged and ignored) is not modelled, so `Remount` assumes every write of the saved list succeeds.
- Pending-review queue (`pendingPapers`, `approvePaper`, `rejectPaper`, `addPendingPaper`): src/app/dashboard/page.tsx:22 uses them, but src/context/paper-context.tsx defines none of them, so there is no behaviour to model.
- AI flows and the placeholder article extractor: the recommendation call is the `gateway` parameter. Prompt contents are external.
- Loading flag, toasts, timers: the `isLoading` button guard is not modelled, and toasts are reduced to the `Notice` tag. The 100 ms `setTimeout` before scrolling is reduced to the `scrollTo` index.
- Concurrency: overlapping recommendation requests and the stale `papers` closure are not modelled. Each merge is one atomic step over the current feed.
- Carousel internals: `previousScrollSnap` is an input. The paper view's rule that enables vertical swipe only on its middle pane is not modelled, because paper-view.tsx is not part of this model.
- Search.Lower: only ASCII letters are lower-cased. JavaScript `toLowerCase` also maps other Unicode letters.
- Touch coordinates: they are reals. The touch-start handler is reduced to the `touchStartX` parameter.
- Onboarding step 3: its notification checkboxes hold no state and are left out. So is the page's blank render when the context is missing; only `HandleFinish` sees the missing context.
- Article record: its declaration is not part of this model. Its fields are taken from the uses in article-card.tsx.
- Presentation: charts, video playback, carousel views, forms, login, auth and the settings page are not modelled. They are markup or external services; the settings page only calls the setters modelled here.
