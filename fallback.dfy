/** `keyword_filter_fallback`: the deterministic filter used when the AI ranking
    cannot be used. An article is relevant when its lower-cased title and snippet,
    joined by a space, contain one of the fixed keywords; the first three relevant
    articles are returned in their original order. */
module Fallback {
  import opened Options
  import opened Text
  import opened Lists
  import opened Articles

  /** The topics monitored (`KEYWORDS`). */
  const Keywords: seq<string> := ["google ads", "google advertising", "ppc", "paid search", "google adwords"]

  /** How many articles the fallback returns at most. */
  const FallbackLimit: nat := 3

  /** `(article['title'] + ' ' + article['snippet']).lower()` */
  function SearchText(a: Article): string {
    Lower(a.title + " " + a.snippet)
  }

  /** `any(keyword.lower() in text for keyword in KEYWORDS)` */
  predicate IsRelevant(a: Article) {
    exists k :: 0 <= k < |Keywords| && Occurs(Lower(Keywords[k]), SearchText(a))
  }

  /** What `keyword_filter_fallback` returns: the first three relevant articles. */
  function FallbackSelection(articles: seq<Article>): (r: seq<Article>)
    ensures |r| <= FallbackLimit
    ensures forall k :: 0 <= k < |r| ==> IsRelevant(r[k])
    ensures r <= Filter(articles, IsRelevant)
    ensures |r| == if |Filter(articles, IsRelevant)| < FallbackLimit then |Filter(articles, IsRelevant)| else FallbackLimit
  {
    Take(Filter(articles, IsRelevant), FallbackLimit)
  }

  /** The append loop of `keyword_filter_fallback`, then the `[:3]` slice. */
  method KeywordFilterFallback(articles: seq<Article>) returns (r: seq<Article>)
    ensures r == FallbackSelection(articles)
  {
    var relevant: seq<Article> := [];
    var i := 0;
    while i < |articles|
      invariant 0 <= i <= |articles|
      invariant relevant == Filter(articles[..i], IsRelevant)
    {
      assert articles[..i + 1][..i] == articles[..i];
      if IsRelevant(articles[i]) {
        relevant := relevant + [articles[i]];
      }
      i := i + 1;
    }
    assert articles[..|articles|] == articles;
    r := Take(relevant, FallbackLimit);
  }

  /** The fallback returns input articles, unchanged, in their original order. */
  lemma FallbackIsSubsequence(articles: seq<Article>)
    ensures IsSubsequence(FallbackSelection(articles), articles)
  {
    var matches := Filter(articles, IsRelevant);
    FilterIsSubsequence(articles, IsRelevant);
    PrefixIsSubsequence(matches, articles, |FallbackSelection(articles)|);
    assert matches[..|FallbackSelection(articles)|] == FallbackSelection(articles);
  }

  /** Each returned article is an input article. */
  lemma FallbackComesFromInput(articles: seq<Article>, k: nat)
    requires k < |FallbackSelection(articles)|
    ensures exists m :: 0 <= m < |articles| && FallbackSelection(articles)[k] == articles[m]
  {
    FallbackIsSubsequence(articles);
    var f :| Embeds(f, FallbackSelection(articles), articles);
    assert FallbackSelection(articles)[k] == articles[f[k]];
  }

  /** A relevant article preceded by fewer than three relevant articles is returned,
      at the position given by how many relevant articles precede it. */
  lemma FallbackKeepsEarlyMatches(articles: seq<Article>, j: int)
    requires 0 <= j < |articles| && IsRelevant(articles[j])
    requires |Filter(articles[..j], IsRelevant)| < FallbackLimit
    ensures |Filter(articles[..j], IsRelevant)| < |FallbackSelection(articles)|
    ensures FallbackSelection(articles)[|Filter(articles[..j], IsRelevant)|] == articles[j]
  {
    FilterAt(articles, IsRelevant, j);
  }

  /** The test ignores case: a title that spells a keyword in capitals still matches. */
  lemma UpperCaseKeywordMatches(url: string)
    ensures IsRelevant(Article("PPC", url, "", None, None))
  {
    var a := Article("PPC", url, "", None, None);
    assert SearchText(a) == "ppc ";
    assert Lower(Keywords[2]) == "ppc";
    assert OccursAt("ppc", SearchText(a), 0);
    OffsetGivesOccurs("ppc", SearchText(a), 0);
  }

  /** Relevance depends on the title and snippet only up to case: lowering them first does
      not change the verdict. */
  lemma RelevanceIgnoresCase(a: Article)
    ensures IsRelevant(a) == IsRelevant(a.(title := Lower(a.title), snippet := Lower(a.snippet)))
  {
    var b := a.(title := Lower(a.title), snippet := Lower(a.snippet));
    LowerConcat(a.title, " " + a.snippet);
    LowerConcat(" ", a.snippet);
    LowerConcat(b.title, " " + b.snippet);
    LowerConcat(" ", b.snippet);
    LowerIdempotent(a.title);
    LowerIdempotent(a.snippet);
    assert SearchText(b) == SearchText(a);
  }
}
