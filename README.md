# Google Ads article monitor, modelled in Dafny

`google_ads_monitor.py` is a daily job with four stages:

1. It scrapes the Search Engine Land front page for article candidates (title, link, snippet).
2. It asks a language model to rank them by relevance to Google Ads. When the model cannot be used, it falls back to a keyword filter instead.
3. It summarizes each of the (at most three) chosen articles with the model. When that call fails, the snippet becomes a single-bullet summary.
4. It renders an HTML digest with one coloured, numbered block per article and mails it.

This project models the deterministic core of that job and proves properties of the model:

- the keyword fallback;
- building the ranking prompt;
- extracting the JSON array from the model's reply;
- resolving the ranking records to articles, with Python's list indexing modelled exactly;
- the summarizer's truncation and fallback choices;
- the HTML rendering;
- the orchestration in `main`.

Everything that crosses a process boundary is a parameter of the model:

| Parameter | Stands for | Result |
|---|---|---|
| `generate` | the model call | `None` when it raises |
| `jsonLoads` | `json.loads` | `None` when it raises |
| `fetch` | fetching an article page and extracting its text | `None` when it raises |
| `send` | the SMTP delivery | its boolean result |
| `today` | the formatted date | the date text |
| `scraped` | the article list the scraper produced | the articles |

Modules:

| module | file | models |
|---|---|---|
| `Options` | options.dfy | the `Option` type |
| `Text` | text.dfy | `str.lower()`, substring `in`, decimal formatting of positions |
| `Lists` | lists.dfy | slicing `[:n]`, the filter-by-append loop, the `enumerate(…, 1)` + `+=` accumulation |
| `Articles` | articles.dfy | the article dictionary |
| `Fallback` | fallback.dfy | `keyword_filter_fallback` |
| `Extraction` | extraction.dfy | `re.search(r'\[.*\]', text, re.DOTALL)` |
| `Ranker` | ranker.dfy | `filter_relevant_articles` |
| `Summarizer` | summarizer.dfy | `summarize_article` |
| `Renderer` | renderer.dfy | `create_html_email` |
| `Monitor` | monitor.dfy | `main` |

Each of the following loops is a method with a `while` loop. Its postcondition equals a specification function, and the properties are lemmas about those functions:

- the append loop of the fallback;
- the loop over `rankings[:3]`;
- the two `+=` loops that build the prompt listing and the article blocks;
- the summarizing loop of `main`.

A `try` block that swallows exceptions is modelled with `Outcome` (`Ok` or `Raised`) or `Option`. The error path is modelled rather than excluded.

## Where the code and the design description differ

The model follows the code in each case below. The named lemmas exhibit each difference.

- **Index range of ranking records.** The design says the ranker never returns an index outside 1..n. The code behaves differently in two ways:
  - Its only bound check is `article_index < len(articles)` (`google_ads_monitor.py:144`), which sets no lower bound. So `number` 0 selects the last article, and a negative number counts further back from the end (`Ranker.NonPositiveNumberCountsFromEnd`). A number below `-len(articles) + 1` among the first three records raises `IndexError`, which sends the whole ranking to the keyword fallback (`Ranker.TooNegativeNumberRaises`).
  - The check is against `len(articles)`, not the 20 articles the prompt lists. With more than 20 scraped articles, a number from 21 to `len(articles)` selects an article the model was never shown (`Ranker.UnlistedArticleSelected`).
- **Summary never empty.** The design says the summary is never empty. In the code it is empty exactly when the model answers with empty text (`Summarizer.SummaryEmptyIff`). Only the snippet fallback is guaranteed non-empty.
- **Failed page fetch.** The design says a failed fetch gives the snippet bullet. In the code a failed fetch only puts the snippet in place of the page text. The model is still asked, and its answer is the summary (`Summarizer.FetchFailureStillAsksModel`). Only a failed model call gives `"• " + snippet` (`Summarizer.SummaryFallback`).
- **When the keyword fallback runs.** The design names the model call failing or no JSON array being found. In the code the fallback also covers `json.loads` raising and any lookup in the records raising, because one `try` surrounds them all (`Ranker.NoRankingsMeansFallback`). Together with `Ranker.TooNegativeNumberRaises`, this shows that a number below the reach of negative indexing sends the whole call to the keyword fallback.
  - The reverse case is not covered: a parsed ranking that resolves to nothing is returned as is. The run then stops with nothing to send, even when the keyword filter would have found articles (`Monitor.UnusableRankingStopsRun`).

## Model

| member | source | states |
|---|---|---|
| `Lists.Take` | google_ads_monitor.py:170 | `xs[:n]`, also used at lines 108, 142 and 199: the result is a prefix of `xs` of length min(n, len(xs)) |
| `Fallback.IsRelevant` | google_ads_monitor.py:167-168 | an article is relevant when its lowered `title + ' ' + snippet` contains one of the five lowered keywords (defined, no contract of its own; see `RelevanceIgnoresCase` and `UpperCaseKeywordMatches`) |
| `Ranker.EntryLine` | google_ads_monitor.py:109 | the listing entry `"\n{i}. TITLE: {title}\n   SNIPPET: {snippet}\n"` (defined; its number is read back by `EntryLineNumber`) |
| `Summarizer.Summarize` | google_ads_monitor.py:173-226 | the model's answer to the summary prompt, or the snippet bullet when the call raises (defined; its properties are `SummaryFallback`, `FetchFailureStillAsksModel` and `SummaryEmptyIff`) |
| `Renderer.Block` | google_ads_monitor.py:244-265 | one article block: coloured border and banner, `ARTICLE {i}: {title}`, summary, link to the URL (defined; its properties are `BlockInColor` and `BlockShowsArticle`) |
| `Renderer.Digest` | google_ads_monitor.py:268-299 | the page: header with the date, the blocks, footer (defined; its properties are `DigestInOrder` and `DigestShowsEveryArticle`) |
| `Monitor.Run` | google_ads_monitor.py:338-371 | one run of `main`: stop on an empty scrape, stop on an empty ranking, otherwise summarize, render and send once (defined; its properties are `RunStops`, `RunDelivers`, `ModelOutageDigest` and `UnusableRankingStopsRun`) |
| `Text.Lower` | google_ads_monitor.py:167 | `.lower()` keeps the length and lowers each character |
| `Text.OccursIff` | google_ads_monitor.py:168 | substring `in` holds exactly when the text contains the keyword at some offset |
| `Text.NatToString` | google_ads_monitor.py:109 | the `{i}` rendering of a position: at least one character, all decimal digits, no leading zero |
| `Text.DecimalRoundTrip` | google_ads_monitor.py:109 | the rendered number reads back as the same position |
| `Fallback.FallbackSelection` | google_ads_monitor.py:161-170 | at most three articles, each matching a keyword, forming a prefix of the matching articles in input order, and exactly min(3, number of matches) of them |
| `Fallback.KeywordFilterFallback` | google_ads_monitor.py:165-170 | the append loop followed by `[:3]` returns exactly the fallback selection |
| `Fallback.FallbackIsSubsequence` | google_ads_monitor.py:165-170 | the result is the input with articles deleted, the rest unchanged and in order |
| `Fallback.FallbackComesFromInput` | google_ads_monitor.py:166-169 | every returned article is one of the input articles |
| `Fallback.FallbackKeepsEarlyMatches` | google_ads_monitor.py:166-170 | a matching article preceded by fewer than three matches is returned, at the position given by the number of matches before it |
| `Fallback.RelevanceIgnoresCase` | google_ads_monitor.py:167-168 | for every article, lowering its title and snippet first does not change whether it matches a keyword |
| `Fallback.UpperCaseKeywordMatches` | google_ads_monitor.py:167-168 | matching ignores case: the title "PPC" matches the keyword "ppc" |
| `Extraction.FirstIndexOf` | google_ads_monitor.py:136 | the leftmost `[`, or that there is none |
| `Extraction.LastIndexOf` | google_ads_monitor.py:136 | the rightmost `]`, or that there is none |
| `Extraction.ExtractArray` | google_ads_monitor.py:136-137 | there is a match exactly when a `[` precedes a `]`; the match is the leftmost-longest one, as the greedy DOTALL search reports |
| `Extraction.ExtractedArrayIsBracketed` | google_ads_monitor.py:136-138 | the text given to `json.loads` starts with `[`, ends with `]`, and lies within the reply from its first `[` onwards |
| `Ranker.PyIndex` | google_ads_monitor.py:145 | list indexing succeeds exactly for `-len <= i < len` and yields a list element |
| `Ranker.NegativeIndexAliases` | google_ads_monitor.py:145 | index `i - len` names the same article as index `i` |
| `Ranker.ResolveEntry` | google_ads_monitor.py:143-148 | one loop iteration appends at most one article |
| `Ranker.Resolve` | google_ads_monitor.py:141-148 | the loop returns at most one article per record |
| `Ranker.ResolvedRankings` | google_ads_monitor.py:141-148 | resolving `rankings[:3]` returns at most three articles |
| `Ranker.ResolveEntryAgrees` | google_ads_monitor.py:143-148 | an iteration raises exactly when a lookup fails; otherwise it appends the annotated copy when the bound check passes and nothing when it does not |
| `Ranker.ResolveAgreesWithFilter` | google_ads_monitor.py:141-148 | the loop raises exactly when some record raises; otherwise it returns, in ranking order, one annotated copy per record that passes the bound check |
| `Ranker.ResolveRaisedPrefix` | google_ads_monitor.py:141-148 | an exception in an early record ends the whole loop with that exception |
| `Ranker.ResolveRankings` | google_ads_monitor.py:141-148 | the loop computes exactly the resolved rankings, including the exception |
| `Ranker.ResolveReadsFirstThree` | google_ads_monitor.py:142 | records after the third never change the result |
| `Ranker.OutOfRangeRecordSkipped` | google_ads_monitor.py:144 | a record whose index is at or past `len(articles)` is skipped silently |
| `Ranker.UnlistedArticleSelected` | google_ads_monitor.py:141-148 | with more than 20 articles, a number beyond the 20 listed still selects an article |
| `Ranker.NonPositiveNumberCountsFromEnd` | google_ads_monitor.py:143-147 | number 0 or below selects articles counted from the end of the list |
| `Ranker.TooNegativeNumberRaises` | google_ads_monitor.py:142-145 | a number below the reach of negative indexing, among the first three records, raises |
| `Ranker.BuildArticlesText` | google_ads_monitor.py:107-109 | the `+=` loop builds the numbered listing of the first 20 articles |
| `Ranker.ArticlesTextListsInOrder` | google_ads_monitor.py:107-109 | each of the first 20 articles is listed under its 1-based number, right after the articles before it |
| `Ranker.ArticlesTextIgnoresRest` | google_ads_monitor.py:108 | articles after the twentieth do not change the prompt |
| `Ranker.EntryLineNumber` | google_ads_monitor.py:109 | the number at the head of an entry reads back as its position |
| `Ranker.RelevantArticles` | google_ads_monitor.py:92-158 | at most three articles, and none for an empty input |
| `Ranker.FilterRelevantArticles` | google_ads_monitor.py:92-158 | the method computes the ranking, falling back to the keyword filter on every failure path |
| `Ranker.NoRankingsMeansFallback` | google_ads_monitor.py:129-158 | a failed call, a reply with no array, an array that does not parse, or a lookup in the first three records that raises gives the keyword fallback's result |
| `Ranker.ResolvedComeFromInput` | google_ads_monitor.py:141-148 | every resolved article is the same candidate (title, URL, snippet) as some input article, and carries a relevance (score and reason) |
| `Ranker.RelevantComeFromInput` | google_ads_monitor.py:92-158 | every article the ranking stage returns is an input article; none is invented |
| `Summarizer.ArticleText` | google_ads_monitor.py:185-203 | the page text is cut to its prefix of length min(8000, page length), and replaced by the uncut snippet when the fetch fails |
| `Summarizer.PromptCarriesPageText` | google_ads_monitor.py:199-216 | the prompt contains, verbatim, the first min(8000, page length) characters of the page text |
| `Summarizer.SnippetBullet` | google_ads_monitor.py:226 | the fallback summary is `•`, a space, then the snippet, and is never empty |
| `Summarizer.SummaryFallback` | google_ads_monitor.py:218-226 | when the model call fails, the summary is the snippet bullet, whether or not the page was fetched |
| `Summarizer.FetchFailureStillAsksModel` | google_ads_monitor.py:201-222 | when the fetch fails, the prompt carries the snippet as the article text and the model's answer is the summary |
| `Summarizer.SummaryEmptyIff` | google_ads_monitor.py:218-226 | the summary is empty exactly when the model answers with empty text |
| `Renderer.AccentColor` | google_ads_monitor.py:241-242 | `colors[i % 3]` is always one of the three accent colours |
| `Renderer.AccentColorCycle` | google_ads_monitor.py:241-242 | colours repeat with period three and any three consecutive positions differ; position 1 gets the second colour |
| `Renderer.BlockInColor` | google_ads_monitor.py:244-246 | the block for position `i` opens with the border and banner in colour `colors[i % 3]`, and that colour occurs in the block |
| `Renderer.BlockShowsArticle` | google_ads_monitor.py:244-265 | a block shows `ARTICLE {i}: {title}`, the summary and the URL verbatim |
| `Renderer.BuildArticlesHtml` | google_ads_monitor.py:237-265 | the `+=` loop builds the blocks of all articles in order, numbered from 1 |
| `Renderer.CreateHtmlEmail` | google_ads_monitor.py:229-299 | the returned page is the header with the date, the blocks, then the footer |
| `Renderer.DigestInOrder` | google_ads_monitor.py:239-286 | the page begins with the header, then the blocks of the earlier articles, then the block of article `k` numbered `k + 1` |
| `Renderer.DigestShowsEveryArticle` | google_ads_monitor.py:244-286 | the page shows every article's label and title, summary and URL, and the accent colour `colors[(k + 1) % 3]` of the article at index `k` |
| `Monitor.Summarized` | google_ads_monitor.py:357-362 | one entry per relevant article, in order, each the same article with a summary attached |
| `Monitor.SummarizeAll` | google_ads_monitor.py:357-362 | the summarizing loop builds exactly that list |
| `Monitor.RunMonitor` | google_ads_monitor.py:339-371 | the run stops, or delivers, exactly as the model of `main` says |
| `Monitor.RunStops` | google_ads_monitor.py:347-355 | the run stops early exactly when the scrape is empty or no article is relevant; otherwise one digest is sent |
| `Monitor.RunDelivers` | google_ads_monitor.py:347-368 | a delivered digest holds one to three scraped articles in ranking order, each with its own summary; the page shows each one's number, title, summary and URL, and is what the mail transport was given |
| `Monitor.ModelOutageDigest` | google_ads_monitor.py:347-362 | with the model down, the run stops exactly when no article matches a keyword; otherwise the digest holds the keyword fallback's articles, each summarized by its snippet bullet |
| `Monitor.UnusableRankingStopsRun` | google_ads_monitor.py:141-155 | a parsed ranking whose records all point past the list stops the run without consulting the keyword filter |

## Left out

- `scrape_search_engine_land` (lines 36-89) is left out because it is HTTP and HTML parsing. The scraped list is the `scraped` parameter. The scraper's limit of 30 elements and its rule dropping elements without a heading or link are not modelled.
- `send_email` (lines 302-331) is left out because it is SMTP. It is the `send` parameter, and its subject line and MIME structure are not modelled.
- The language model is a parameter. One function serves both the ranking call and the summary calls, and it is deterministic per prompt.
  - `genai.configure`, `time.sleep` and the `print` progress lines are left out because they have no effect on the result.
- Fetching and parsing an article page is the `fetch` parameter, which returns the extracted text. BeautifulSoup's element removal and `get_text` are not modelled.
- `datetime.now().strftime(...)` is the `today` parameter. The environment configuration (lines 24-27) is left out.
- `json.loads` is the `jsonLoads` parameter. It gives records with the three fields `number`, `score` and `reason`. Each field is an `Option`: `None` stands for a lookup of that key that raises (missing key, or an element that is not an object). A present `number` or `score` is an integer, and a present `reason` is a string.
- `Ranker.ResolveEntry` treats every non-integer `number` as a failed lookup. Python differs for a float: it subtracts 1, and when the result is at or past `len(articles)` it skips the record instead of raising. A `score` or `reason` of some other JSON type is also kept by Python but is not representable in the model.
- `Text.Lower` lowers ASCII letters only. Python's `str.lower` follows Unicode case mapping, so a keyword match that depends on a non-ASCII case change is not modelled.
- The articles are values. The model does not capture two things about them:
  - `main` assigns `article['summary']` in place, but the model builds an updated copy;
  - the fallback's result shares its dictionaries with the scraped list.

  Neither is observable after the run.
- The fixed text of the templates is abbreviated: the ranking prompt, the summary prompt, the block and the page frame.
  - Their CSS, the "Key Insights:" and "Top 3 Articles" lines, and the indentation inside the f-strings are not reproduced.
  - The properties proved concern what the templates carry: order, numbering, colours, verbatim insertion, truncation. They do not cover exact bytes.
- The dictionary returned by `article.copy()` with the keys `relevance_score` and `relevance_reason` is modelled as the optional `relevance` field.
