/** `main`: scrape, rank, summarize each chosen article, render the digest, send it.
    The scrape result, the model, `json.loads`, the page fetch, the date text and the
    mail transport are all parameters; the run reports where it stopped. */
module Monitor {
  import opened Options
  import opened Text
  import opened Articles
  import opened Lists
  import opened Fallback
  import opened Extraction
  import opened Ranker
  import opened Summarizer
  import opened Renderer

  /** How a run ends: no articles scraped, none of them relevant, or a digest built
      from `digested` and handed to the mail transport, which answered `sent`. */
  datatype RunResult =
    | NoArticles
    | NoRelevantArticles
    | Delivered(digested: seq<Article>, html: string, sent: bool)

  /** `article['summary'] = summary` on the article. */
  function WithSummary(a: Article, fetch: string -> Option<string>, generate: string -> Option<string>): Article {
    a.(summary := Some(Summarize(a, fetch, generate)))
  }

  /** `articles_with_summaries`: every relevant article, in order, with its summary. */
  function Summarized(articles: seq<Article>, fetch: string -> Option<string>,
                      generate: string -> Option<string>): (r: seq<Article>)
    ensures |r| == |articles| && AllSummarized(r)
    ensures forall k :: 0 <= k < |r| ==> SameCandidate(r[k], articles[k])
  {
    seq(|articles|, k requires 0 <= k < |articles| => WithSummary(articles[k], fetch, generate))
  }

  /** What one run of `main` does. */
  function Run(scraped: seq<Article>, generate: string -> Option<string>,
               jsonLoads: string -> Option<seq<RankEntry>>, fetch: string -> Option<string>,
               today: string, send: string -> bool): RunResult
  {
    if scraped == [] then NoArticles
    else
      var relevant := RelevantArticles(scraped, generate, jsonLoads);
      if relevant == [] then NoRelevantArticles
      else
        var digested := Summarized(relevant, fetch, generate);
        var html := Digest(today, digested);
        Delivered(digested, html, send(html))
  }

  /** The loop building `articles_with_summaries`. */
  method SummarizeAll(relevant: seq<Article>, fetch: string -> Option<string>,
                      generate: string -> Option<string>) returns (withSummaries: seq<Article>)
    ensures withSummaries == Summarized(relevant, fetch, generate)
  {
    withSummaries := [];
    var i := 0;
    while i < |relevant|
      invariant 0 <= i <= |relevant|
      invariant |withSummaries| == i
      invariant forall k :: 0 <= k < i ==> withSummaries[k] == WithSummary(relevant[k], fetch, generate)
    {
      var summary := Summarize(relevant[i], fetch, generate);
      withSummaries := withSummaries + [relevant[i].(summary := Some(summary))];
      i := i + 1;
    }
  }

  method RunMonitor(scraped: seq<Article>, generate: string -> Option<string>,
                    jsonLoads: string -> Option<seq<RankEntry>>, fetch: string -> Option<string>,
                    today: string, send: string -> bool) returns (result: RunResult)
    ensures result == Run(scraped, generate, jsonLoads, fetch, today, send)
  {
    if |scraped| == 0 {
      return NoArticles;
    }
    var relevant := FilterRelevantArticles(scraped, generate, jsonLoads);
    if |relevant| == 0 {
      return NoRelevantArticles;
    }
    var withSummaries := SummarizeAll(relevant, fetch, generate);
    var html := CreateHtmlEmail(today, withSummaries);
    var sent := send(html);
    return Delivered(withSummaries, html, sent);
  }

  /** A run stops early exactly when the scrape is empty or nothing relevant is found;
      otherwise it sends one digest. */
  lemma RunStops(scraped: seq<Article>, generate: string -> Option<string>,
                 jsonLoads: string -> Option<seq<RankEntry>>, fetch: string -> Option<string>,
                 today: string, send: string -> bool)
    ensures var result := Run(scraped, generate, jsonLoads, fetch, today, send);
      && (result.NoArticles? <==> scraped == [])
      && (result.NoRelevantArticles? <==> scraped != [] && RelevantArticles(scraped, generate, jsonLoads) == [])
      && (result.Delivered? <==> RelevantArticles(scraped, generate, jsonLoads) != [])
  {
  }

  /** A delivered digest holds one to three scraped articles, in the ranker's
      order, each with its summary, and the page shows every one's label, title, summary
      and URL. */
  lemma RunDelivers(scraped: seq<Article>, generate: string -> Option<string>,
                    jsonLoads: string -> Option<seq<RankEntry>>, fetch: string -> Option<string>,
                    today: string, send: string -> bool)
    requires Run(scraped, generate, jsonLoads, fetch, today, send).Delivered?
    ensures var result := Run(scraped, generate, jsonLoads, fetch, today, send);
      var relevant := RelevantArticles(scraped, generate, jsonLoads);
      var d := result.digested;
      && 1 <= |d| == |relevant| <= RankingLimit
      && result.html == Digest(today, d)
      && result.sent == send(result.html)
      && (forall k :: 0 <= k < |d| ==>
            && SameCandidate(d[k], relevant[k])
            && d[k].summary == Some(Summarize(relevant[k], fetch, generate))
            && (exists m :: 0 <= m < |scraped| && SameCandidate(d[k], scraped[m]))
            && Occurs(ArticleHeading(k + 1, d[k].title), result.html)
            && Occurs(d[k].summary.value, result.html)
            && Occurs(d[k].url, result.html))
  {
    var relevant := RelevantArticles(scraped, generate, jsonLoads);
    var d := Summarized(relevant, fetch, generate);
    forall k | 0 <= k < |d|
      ensures exists m :: 0 <= m < |scraped| && SameCandidate(d[k], scraped[m])
      ensures Occurs(ArticleHeading(k + 1, d[k].title), Digest(today, d))
      ensures Occurs(d[k].summary.value, Digest(today, d))
      ensures Occurs(d[k].url, Digest(today, d))
    {
      RelevantComeFromInput(scraped, generate, jsonLoads, k);
      var m :| 0 <= m < |scraped| && SameCandidate(relevant[k], scraped[m]);
      assert SameCandidate(d[k], scraped[m]);
      DigestShowsEveryArticle(today, d, k);
    }
  }

  /** With the model unreachable, the digest is the keyword fallback's choice, each
      article summarized by its snippet as a single bullet. */
  lemma ModelOutageDigest(scraped: seq<Article>, generate: string -> Option<string>,
                          jsonLoads: string -> Option<seq<RankEntry>>, fetch: string -> Option<string>,
                          today: string, send: string -> bool)
    requires scraped != []
    requires forall prompt :: generate(prompt).None?
    ensures var result := Run(scraped, generate, jsonLoads, fetch, today, send);
      var chosen := FallbackSelection(scraped);
      && (result.NoRelevantArticles? <==> chosen == [])
      && (result.Delivered? ==>
            && |result.digested| == |chosen|
            && forall k :: 0 <= k < |chosen| ==>
                 && SameCandidate(result.digested[k], chosen[k])
                 && result.digested[k].summary == Some(SnippetBullet(chosen[k].snippet)))
  {
    NoRankingsMeansFallback(scraped, generate, jsonLoads);
    var chosen := FallbackSelection(scraped);
    forall k | 0 <= k < |chosen|
      ensures Summarize(chosen[k], fetch, generate) == SnippetBullet(chosen[k].snippet)
    {
      SummaryFallback(chosen[k], fetch, generate);
    }
  }

  /** When the model's array parses but every record among the first three points past the
      end of the scrape, the ranking is empty and the run stops with nothing to send: the
      keyword filter is not consulted, even when it would have found articles. */
  lemma UnusableRankingStopsRun(scraped: seq<Article>, generate: string -> Option<string>,
                                jsonLoads: string -> Option<seq<RankEntry>>, fetch: string -> Option<string>,
                                today: string, send: string -> bool, reply: string, rankings: seq<RankEntry>)
    requires scraped != []
    requires generate(RankingPrompt(ArticlesText(scraped))) == Some(reply)
    requires ExtractArray(reply).Some? && jsonLoads(ExtractArray(reply).value) == Some(rankings)
    requires forall k :: 0 <= k < |rankings| && k < RankingLimit ==>
      rankings[k].number.Some? && rankings[k].number.value - 1 >= |scraped|
    ensures Run(scraped, generate, jsonLoads, fetch, today, send) == NoRelevantArticles
  {
    var ranks := Take(rankings, RankingLimit);
    ResolveAgreesWithFilter(scraped, ranks);
    forall x | x in ranks
      ensures !PassesBound(scraped, x)
    {
      var k :| 0 <= k < |ranks| && ranks[k] == x;
      assert rankings[k] == x;
    }
    FilterNone(ranks, BoundTest(scraped));
    forall k | 0 <= k < |ranks|
      ensures !Raises(scraped, ranks[k])
    {
      assert ranks[k] == rankings[k];
    }
  }
}
