/** `summarize_article`: the article's page text, cut to a fixed budget, goes into a
    prompt for a bullet-point summary; when fetching the page raises, the snippet is
    used instead, and when the model call raises, the summary is the snippet as a
    single bullet. */
module Summarizer {
  import opened Options
  import opened Text
  import opened Lists
  import opened Articles

  /** How many characters of the page text are sent (`article_text[:8000]`). */
  const TextBudget: nat := 8000

  /** The bullet symbol the prompt asks for and the fallback uses. */
  const Bullet: char := '\U{2022}'

  /** The text put into the prompt. `page` is the text extracted from the fetched page,
      `None` when fetching or parsing raised; then the snippet is used, uncut. */
  function ArticleText(a: Article, page: Option<string>): (r: string)
    ensures page.Some? ==> r <= page.value && |r| <= TextBudget
    ensures page.Some? && |page.value| <= TextBudget ==> r == page.value
    ensures page.Some? ==> |r| == if |page.value| <= TextBudget then |page.value| else TextBudget
    ensures page.None? ==> r == a.snippet
  {
    match page
    case None => a.snippet
    case Some(text) => Take(text, TextBudget)
  }

  /** The fixed instruction text around title and content (wording abbreviated). */
  const SummaryIntro: string :=
    "Summarize this article about Google Ads in 3-4 concise bullet points.\n\nArticle Title: "
  const SummaryMiddle: string := "\n\nArticle Content:\n"
  const SummaryOutro: string := "\n\nProvide a summary in bullet points (use \U{2022} symbol)."

  function SummaryPrompt(title: string, text: string): string {
    SummaryIntro + title + SummaryMiddle + text + SummaryOutro
  }

  /** `f"• {article['snippet']}"` */
  function SnippetBullet(snippet: string): (r: string)
    ensures |r| == |snippet| + 2 && r != []
    ensures r[0] == Bullet && r[1] == ' ' && r[2..] == snippet
  {
    [Bullet, ' '] + snippet
  }

  /** The prompt `summarize_article` sends for an article. */
  function PromptFor(a: Article, fetch: string -> Option<string>): string {
    SummaryPrompt(a.title, ArticleText(a, fetch(a.url)))
  }

  /** What `summarize_article` returns. `fetch` gives the text of the page at a URL
      (`None`: it raised); `generate` is the model call (`None`: it raised). */
  function Summarize(a: Article, fetch: string -> Option<string>, generate: string -> Option<string>): string {
    match generate(PromptFor(a, fetch))
    case Some(text) => text
    case None => SnippetBullet(a.snippet)
  }

  /** When the model call fails, the summary is the snippet as one bullet, whether or
      not the page could be fetched. */
  lemma SummaryFallback(a: Article, fetch: string -> Option<string>, generate: string -> Option<string>)
    requires generate(PromptFor(a, fetch)).None?
    ensures Summarize(a, fetch, generate) == [Bullet, ' '] + a.snippet
    ensures Summarize(a, fetch, generate) != []
  {
  }

  /** The summary is empty only when the model itself answers with empty text. */
  lemma SummaryEmptyIff(a: Article, fetch: string -> Option<string>, generate: string -> Option<string>)
    ensures Summarize(a, fetch, generate) == [] <==> generate(PromptFor(a, fetch)) == Some([])
  {
  }

  /** The prompt carries, verbatim, the first `min(8000, len(page))` characters of the
      page text. */
  lemma PromptCarriesPageText(a: Article, fetch: string -> Option<string>)
    requires fetch(a.url).Some?
    ensures var text := ArticleText(a, fetch(a.url));
      && text <= fetch(a.url).value
      && |text| == (if |fetch(a.url).value| <= TextBudget then |fetch(a.url).value| else TextBudget)
      && Occurs(text, PromptFor(a, fetch))
  {
    var text := ArticleText(a, fetch(a.url));
    OccursInside(SummaryIntro + a.title + SummaryMiddle, text, SummaryOutro);
  }

  /** A failed fetch does not give the snippet bullet: the snippet becomes the article text
      and the model is still asked, and its answer is the summary. */
  lemma FetchFailureStillAsksModel(a: Article, fetch: string -> Option<string>,
                                   generate: string -> Option<string>, answer: string)
    requires fetch(a.url).None? && generate(SummaryPrompt(a.title, a.snippet)) == Some(answer)
    ensures PromptFor(a, fetch) == SummaryPrompt(a.title, a.snippet)
    ensures Summarize(a, fetch, generate) == answer
  {
  }
}
