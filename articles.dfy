/** The article record that flows through the pipeline. In the program it is a
    dictionary: the scraper fills `title`, `url` and `snippet`; the AI ranking adds
    `relevance_score` and `relevance_reason`; the main loop adds `summary`. */
module Articles {
  import opened Options

  /** The two keys the AI ranking attaches: `relevance_score` and `relevance_reason`. */
  datatype Relevance = Relevance(score: int, reason: string)

  datatype Article = Article(
    title: string,
    url: string,
    snippet: string,
    relevance: Option<Relevance>,
    summary: Option<string>)

  /** The same scraped article, whatever keys were attached to it later. */
  predicate SameCandidate(a: Article, b: Article) {
    a.title == b.title && a.url == b.url && a.snippet == b.snippet
  }
}
