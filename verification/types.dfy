/** The content records of the feed. Dropped: `imageUrl`, `imageHint` and
    the video's `thumbnailUrl` (presentation only), the paper's
    `publishedDate` and `sponsor` (read by no modelled operation), and the
    `type` tag (the constructor of `FeedItem` carries it). `phase`,
    `sourceUrl` and `videoUrl` are kept as part of the records, though no
    modelled operation reads them. */
module Types {

  /** A clinical-trial paper. `status` is kept as the raw string because the
      records come from storage and seed data without validation. */
  datatype Paper = Paper(
    id: string,
    title: string,
    principalInvestigator: string,
    summary: string,
    status: string,
    phase: string,
    sourceUrl: string)

  /** An explainer video that summarises the paper `paperId`. */
  datatype Video = Video(id: string, title: string, paperId: string, videoUrl: string, summary: string)

  /** A feed entry: a paper or a video. */
  datatype FeedItem = PaperItem(paper: Paper) | VideoItem(video: Video) {
    function Id(): string {
      match this
      case PaperItem(p) => p.id
      case VideoItem(v) => v.id
    }
  }

  /** A news article of the article feed. */
  datatype Article = Article(id: string, title: string, author: string, content: string, sourceUrl: string)

  function PaperId(p: Paper): string { p.id }
  function PaperTitle(p: Paper): string { p.title }
  function ArticleId(a: Article): string { a.id }
  function ArticleTitle(a: Article): string { a.title }
  function FeedItemId(f: FeedItem): string { f.Id() }
}
