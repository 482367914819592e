/** `filter_relevant_articles`: list the first twenty articles in a prompt, ask the
    language model for a JSON array of the top three, resolve each record's 1-based
    `number` to an article, and fall back to the keyword filter whenever the call
    fails, no array is found, or resolving the records raises. */
module Ranker {
  import opened Options
  import opened Text
  import opened Lists
  import opened Articles
  import opened Fallback
  import opened Extraction

  /** How many articles the prompt lists (`articles[:20]`). */
  const ListedLimit: nat := 20

  /** How many ranking records are read (`rankings[:3]`). */
  const RankingLimit: nat := 3

  /** One element of the parsed JSON array, with its keys `number`, `score` and `reason`.
      `None` stands for a lookup that raises: the key is absent, the element is not an
      object, or (for `number`) the value cannot serve as an integer index. */
  datatype RankEntry = RankEntry(number: Option<int>, score: Option<int>, reason: Option<string>)

  /** The result of code that may raise: normal completion, or an exception. */
  datatype Outcome<T> = Ok(value: T) | Raised

  // ---------------------------------------------------------------------------
  // Python list indexing
  // ---------------------------------------------------------------------------

  /** `s[i]` on a Python list: a negative index counts from the end, and an index
      outside `-len(s) .. len(s) - 1` raises `IndexError`. */
  function PyIndex<T>(s: seq<T>, i: int): (r: Option<T>)
    ensures r.Some? <==> -|s| <= i < |s|
    ensures r.Some? ==> r.value in s
  {
    if 0 <= i < |s| then Some(s[i]) else if -|s| <= i < 0 then Some(s[|s| + i]) else None
  }

  /** Index `i - len(s)` names the same element as index `i`. */
  lemma NegativeIndexAliases<T>(s: seq<T>, i: int)
    requires 0 <= i < |s|
    ensures PyIndex(s, i - |s|) == PyIndex(s, i) == Some(s[i])
  {
  }

  // ---------------------------------------------------------------------------
  // Resolving the ranking records (the loop over `rankings[:3]`)
  // ---------------------------------------------------------------------------

  /** One iteration of the loop: `Ok([])` when the bound check skips the record,
      `Ok([copy])` when the copy with score and reason is appended, `Raised` when a
      lookup raises. */
  function ResolveEntry(articles: seq<Article>, rank: RankEntry): (r: Outcome<seq<Article>>)
    ensures r.Ok? ==> |r.value| <= 1
  {
    match rank.number
    case None => Raised
    case Some(n) =>
      if n - 1 < |articles| then
        match PyIndex(articles, n - 1)
        case None => Raised
        case Some(a) =>
          if rank.score.Some? && rank.reason.Some? then
            Ok([a.(relevance := Some(Relevance(rank.score.value, rank.reason.value)))])
          else
            Raised
      else
        Ok([])
  }

  /** The loop over the records `ranks`, in order; the first exception ends it. */
  function Resolve(articles: seq<Article>, ranks: seq<RankEntry>): (r: Outcome<seq<Article>>)
    ensures r.Ok? ==> |r.value| <= |ranks|
  {
    if ranks == [] then Ok([])
    else
      match Resolve(articles, ranks[..|ranks| - 1])
      case Raised => Raised
      case Ok(init) =>
        match ResolveEntry(articles, ranks[|ranks| - 1])
        case Raised => Raised
        case Ok(last) => Ok(init + last)
  }

  /** What the loop over `rankings[:3]` produces. */
  function ResolvedRankings(articles: seq<Article>, rankings: seq<RankEntry>): (r: Outcome<seq<Article>>)
    ensures r.Ok? ==> |r.value| <= RankingLimit
  {
    Resolve(articles, Take(rankings, RankingLimit))
  }

  /** A lookup in the loop body raises for this record: `rank['number']`, then, when the
      bound check passes, `articles[article_index]`, `rank['score']` and `rank['reason']`. */
  predicate Raises(articles: seq<Article>, rank: RankEntry) {
    || rank.number.None?
    || (rank.number.value - 1 < |articles|
        && (rank.number.value - 1 < -|articles| || rank.score.None? || rank.reason.None?))
  }

  /** The bound check `article_index < len(articles)` lets the record through. */
  predicate PassesBound(articles: seq<Article>, rank: RankEntry) {
    rank.number.Some? && rank.number.value - 1 < |articles|
  }

  /** `PassesBound` as a function value, for `Filter`. */
  function BoundTest(articles: seq<Article>): RankEntry -> bool {
    rank => PassesBound(articles, rank)
  }

  /** The copy appended for a record that passes the bound check: the article at
      `number - 1`, counted from the end when that is negative, with score and reason. */
  function Annotated(articles: seq<Article>, rank: RankEntry): Article
    requires PassesBound(articles, rank) && !Raises(articles, rank)
  {
    var i := rank.number.value - 1;
    var source := if i >= 0 then articles[i] else articles[|articles| + i];
    source.(relevance := Some(Relevance(rank.score.value, rank.reason.value)))
  }

  lemma ResolveEntryAgrees(articles: seq<Article>, rank: RankEntry)
    ensures ResolveEntry(articles, rank).Raised? <==> Raises(articles, rank)
    ensures ResolveEntry(articles, rank).Ok? ==>
      ResolveEntry(articles, rank).value == if PassesBound(articles, rank) then [Annotated(articles, rank)] else []
  {
  }

  /** The loop raises exactly when one of the records raises; otherwise it returns, in
      ranking order, one annotated copy per record that passes the bound check, and
      skips the others. */
  lemma {:induction false} ResolveAgreesWithFilter(articles: seq<Article>, ranks: seq<RankEntry>)
    ensures Resolve(articles, ranks).Raised? <==> exists k :: 0 <= k < |ranks| && Raises(articles, ranks[k])
    ensures Resolve(articles, ranks).Ok? ==>
      var kept := Filter(ranks, BoundTest(articles));
      var r := Resolve(articles, ranks).value;
      && |r| == |kept|
      && forall k :: 0 <= k < |r| ==>
           PassesBound(articles, kept[k]) && !Raises(articles, kept[k]) && r[k] == Annotated(articles, kept[k])
    decreases |ranks|
  {
    if ranks != [] {
      var init := ranks[..|ranks| - 1];
      var last := ranks[|ranks| - 1];
      ResolveAgreesWithFilter(articles, init);
      ResolveEntryAgrees(articles, last);
      if Resolve(articles, init).Raised? {
        var k :| 0 <= k < |init| && Raises(articles, init[k]);
        assert ranks[k] == init[k];
      } else if ResolveEntry(articles, last).Raised? {
        assert Raises(articles, ranks[|ranks| - 1]);
      } else {
        forall k | 0 <= k < |ranks|
          ensures !Raises(articles, ranks[k])
        {
          if k < |init| {
            assert ranks[k] == init[k];
          }
        }
        var p := BoundTest(articles);
        assert Filter(ranks, p) == Filter(init, p) + (if p(last) then [last] else []);
        forall x | x in Filter(ranks, p)
          ensures !Raises(articles, x)
        {
        }
      }
    }
  }

  /** Once a prefix of the records raises, the whole loop raises. */
  lemma ResolveRaisedPrefix(articles: seq<Article>, ranks: seq<RankEntry>, i: nat)
    requires i <= |ranks| && Resolve(articles, ranks[..i]).Raised?
    ensures Resolve(articles, ranks).Raised?
  {
    ResolveAgreesWithFilter(articles, ranks[..i]);
    ResolveAgreesWithFilter(articles, ranks);
    var k :| 0 <= k < i && Raises(articles, ranks[..i][k]);
    assert ranks[k] == ranks[..i][k];
  }

  /** The loop of `filter_relevant_articles` over `rankings[:3]`. */
  method ResolveRankings(articles: seq<Article>, rankings: seq<RankEntry>) returns (r: Outcome<seq<Article>>)
    ensures r == ResolvedRankings(articles, rankings)
  {
    var ranks := Take(rankings, RankingLimit);
    var relevant: seq<Article> := [];
    var i := 0;
    while i < |ranks|
      invariant 0 <= i <= |ranks|
      invariant Resolve(articles, ranks[..i]) == Ok(relevant)
    {
      assert ranks[..i + 1][..i] == ranks[..i];
      var rank := ranks[i];
      if rank.number.None? {
        ResolveRaisedPrefix(articles, ranks, i + 1);
        return Raised;
      }
      var index := rank.number.value - 1;
      if index < |articles| {
        if index < -|articles| {
          ResolveRaisedPrefix(articles, ranks, i + 1);
          return Raised;
        }
        var article := if index >= 0 then articles[index] else articles[|articles| + index];
        if rank.score.None? || rank.reason.None? {
          ResolveRaisedPrefix(articles, ranks, i + 1);
          return Raised;
        }
        var copy := article.(relevance := Some(Relevance(rank.score.value, rank.reason.value)));
        assert ResolveEntry(articles, rank) == Ok([copy]);
        relevant := relevant + [copy];
      } else {
        assert ResolveEntry(articles, rank) == Ok([]);
        assert relevant + [] == relevant;
      }
      i := i + 1;
    }
    assert ranks[..|ranks|] == ranks;
    r := Ok(relevant);
  }

  /** Records after the third never affect the result. */
  lemma ResolveReadsFirstThree(articles: seq<Article>, rankings: seq<RankEntry>, more: seq<RankEntry>)
    requires |rankings| >= RankingLimit
    ensures ResolvedRankings(articles, rankings + more) == ResolvedRankings(articles, rankings)
  {
    assert (rankings + more)[..RankingLimit] == rankings[..RankingLimit];
    if |rankings| == RankingLimit {
      assert rankings[..RankingLimit] == rankings;
    }
    assert Take(rankings + more, RankingLimit) == Take(rankings, RankingLimit);
  }

  /** A record whose `number - 1` is at least `len(articles)` is skipped: it contributes
      nothing and the remaining records keep their order. */
  lemma OutOfRangeRecordSkipped(articles: seq<Article>, ranks: seq<RankEntry>, rank: RankEntry)
    requires rank.number.Some? && rank.number.value - 1 >= |articles|
    ensures Resolve(articles, ranks + [rank]) == Resolve(articles, ranks)
  {
    assert (ranks + [rank])[..|ranks|] == ranks;
    match Resolve(articles, ranks)
    case Raised =>
    case Ok(init) => assert init + [] == init;
  }

  /** The bound check compares with `len(articles)`, not with the twenty articles the
      prompt lists: with more than twenty articles, a number beyond the listing still
      selects an article the model never saw. */
  lemma UnlistedArticleSelected(articles: seq<Article>, n: int, score: int, reason: string)
    requires ListedLimit < n <= |articles|
    ensures |Take(articles, ListedLimit)| < n
    ensures ResolvedRankings(articles, [RankEntry(Some(n), Some(score), Some(reason))])
      == Ok([articles[n - 1].(relevance := Some(Relevance(score, reason)))])
  {
    var ranks := [RankEntry(Some(n), Some(score), Some(reason))];
    var copy := articles[n - 1].(relevance := Some(Relevance(score, reason)));
    assert Take(ranks, RankingLimit) == ranks;
    assert ranks[..0] == [];
    assert Resolve(articles, ranks[..0]) == Ok([]);
    assert ResolveEntry(articles, ranks[0]) == Ok([copy]);
    assert [] + [copy] == [copy];
    assert Resolve(articles, ranks) == Ok([copy]);
  }

  /** There is no lower bound check: number 0 selects the last article, and a
      negative number counts further back from the end. */
  lemma NonPositiveNumberCountsFromEnd(articles: seq<Article>, n: int, score: int, reason: string)
    requires n <= 0 && -|articles| <= n - 1
    ensures ResolvedRankings(articles, [RankEntry(Some(n), Some(score), Some(reason))])
      == Ok([articles[|articles| + n - 1].(relevance := Some(Relevance(score, reason)))])
  {
    var ranks := [RankEntry(Some(n), Some(score), Some(reason))];
    var copy := articles[|articles| + n - 1].(relevance := Some(Relevance(score, reason)));
    assert Take(ranks, RankingLimit) == ranks;
    assert ranks[..0] == [];
    assert Resolve(articles, ranks[..0]) == Ok([]);
    assert ResolveEntry(articles, ranks[0]) == Ok([copy]);
    assert [] + [copy] == [copy];
    assert Resolve(articles, ranks) == Ok([copy]);
  }

  /** A number below the range that negative indexing reaches raises, among the first
      three records, whatever the other records are. */
  lemma TooNegativeNumberRaises(articles: seq<Article>, rankings: seq<RankEntry>, k: nat)
    requires k < RankingLimit && k < |rankings|
    requires rankings[k].number.Some? && rankings[k].number.value - 1 < -|articles|
    ensures ResolvedRankings(articles, rankings) == Raised
  {
    var ranks := Take(rankings, RankingLimit);
    assert ranks[k] == rankings[k];
    ResolveAgreesWithFilter(articles, ranks);
  }

  // ---------------------------------------------------------------------------
  // The prompt listing
  // ---------------------------------------------------------------------------

  /** One entry: `f"\n{i}. TITLE: {article['title']}\n   SNIPPET: {article['snippet']}\n"`. */
  function EntryLine(i: nat, a: Article): string {
    "\n" + NatToString(i) + ". TITLE: " + a.title + "\n   SNIPPET: " + a.snippet + "\n"
  }

  /** `articles_text`: the first twenty articles, numbered from 1. */
  function ArticlesText(articles: seq<Article>): string {
    Numbered(Take(articles, ListedLimit), EntryLine)
  }

  /** The `+=` loop over `enumerate(articles[:20], 1)`. */
  method BuildArticlesText(articles: seq<Article>) returns (text: string)
    ensures text == ArticlesText(articles)
  {
    var shown := Take(articles, ListedLimit);
    text := "";
    var i := 0;
    while i < |shown|
      invariant 0 <= i <= |shown|
      invariant text == Numbered(shown[..i], EntryLine)
    {
      NumberedStep(shown, EntryLine, i);
      text := text + EntryLine(i + 1, shown[i]);
      i := i + 1;
    }
    assert shown[..|shown|] == shown;
  }

  /** Each of the first twenty articles is listed under its 1-based number, after the
      entries of the articles before it. */
  lemma ArticlesTextListsInOrder(articles: seq<Article>, k: nat)
    requires k < |articles| && k < ListedLimit
    ensures Numbered(articles[..k], EntryLine) + EntryLine(k + 1, articles[k]) <= ArticlesText(articles)
  {
    var shown := Take(articles, ListedLimit);
    assert shown[..k] == articles[..k];
    NumberedEntry(shown, EntryLine, k);
  }

  /** Articles after the twentieth do not change the prompt. */
  lemma ArticlesTextIgnoresRest(articles: seq<Article>, more: seq<Article>)
    requires |articles| >= ListedLimit
    ensures ArticlesText(articles + more) == ArticlesText(articles)
  {
    assert (articles + more)[..ListedLimit] == articles[..ListedLimit];
    if |articles| == ListedLimit {
      assert articles[..ListedLimit] == articles;
    }
    assert Take(articles + more, ListedLimit) == Take(articles, ListedLimit);
  }

  /** The number written after an entry's leading line break reads back as its position. */
  lemma EntryLineNumber(i: nat, a: Article)
    ensures var d := NatToString(i);
      EntryLine(i, a)[1..1 + |d|] == d && DecimalValue(EntryLine(i, a)[1..1 + |d|]) == i
  {
    var d := NatToString(i);
    assert EntryLine(i, a) == "\n" + d + (". TITLE: " + a.title + "\n   SNIPPET: " + a.snippet + "\n");
    assert EntryLine(i, a)[1..1 + |d|] == d;
    DecimalRoundTrip(i);
  }

  /** The fixed instruction text around the listing (wording abbreviated). */
  const RankingIntro: string :=
    "Analyze these articles from Search Engine Land and identify which ones are most relevant to Google Ads.\n\nArticles:\n"
  const RankingInstructions: string :=
    "\n\nRate each article's relevance to Google Ads from 0 to 10 and return ONLY a JSON array of the top 3 as {\"number\", \"score\", \"reason\"} objects."

  function RankingPrompt(articlesText: string): string {
    RankingIntro + articlesText + RankingInstructions
  }

  // ---------------------------------------------------------------------------
  // filter_relevant_articles
  // ---------------------------------------------------------------------------

  /** What `filter_relevant_articles` returns. `generate` is the model call on a prompt
      (`None`: it raised), `jsonLoads` is `json.loads` on the extracted text (`None`: it raised). */
  function RelevantArticles(articles: seq<Article>, generate: string -> Option<string>,
                            jsonLoads: string -> Option<seq<RankEntry>>): (r: seq<Article>)
    ensures |r| <= RankingLimit
    ensures articles == [] ==> r == []
  {
    if articles == [] then []
    else
      match generate(RankingPrompt(ArticlesText(articles)))
      case None => FallbackSelection(articles)
      case Some(reply) =>
        match ExtractArray(reply)
        case None => FallbackSelection(articles)
        case Some(json) =>
          match jsonLoads(json)
          case None => FallbackSelection(articles)
          case Some(rankings) =>
            match ResolvedRankings(articles, rankings)
            case Raised => FallbackSelection(articles)
            case Ok(relevant) => relevant
  }

  method FilterRelevantArticles(articles: seq<Article>, generate: string -> Option<string>,
                                jsonLoads: string -> Option<seq<RankEntry>>) returns (r: seq<Article>)
    ensures r == RelevantArticles(articles, generate, jsonLoads)
  {
    if |articles| == 0 {
      return [];
    }
    var articlesText := BuildArticlesText(articles);
    var response := generate(RankingPrompt(articlesText));
    if response.None? {
      r := KeywordFilterFallback(articles);
      return;
    }
    var jsonMatch := ExtractArray(response.value);
    if jsonMatch.None? {
      r := KeywordFilterFallback(articles);
      return;
    }
    var rankings := jsonLoads(jsonMatch.value);
    if rankings.None? {
      r := KeywordFilterFallback(articles);
      return;
    }
    var resolved := ResolveRankings(articles, rankings.value);
    if resolved.Raised? {
      r := KeywordFilterFallback(articles);
      return;
    }
    r := resolved.value;
  }

  /** When the call fails, the reply holds no `[...]`, the array does not parse, or a
      lookup in its first three records raises, the result is the keyword fallback's. */
  lemma NoRankingsMeansFallback(articles: seq<Article>, generate: string -> Option<string>,
                                jsonLoads: string -> Option<seq<RankEntry>>)
    requires articles != []
    requires var reply := generate(RankingPrompt(ArticlesText(articles)));
      || reply.None?
      || ExtractArray(reply.value).None?
      || jsonLoads(ExtractArray(reply.value).value).None?
      || ResolvedRankings(articles, jsonLoads(ExtractArray(reply.value).value).value) == Raised
    ensures RelevantArticles(articles, generate, jsonLoads) == FallbackSelection(articles)
  {
  }

  /** Every article the loop over the records returns is one of the input articles with
      a score and a reason attached. */
  lemma ResolvedComeFromInput(articles: seq<Article>, ranks: seq<RankEntry>, k: nat)
    requires Resolve(articles, ranks).Ok? && k < |Resolve(articles, ranks).value|
    ensures exists m :: 0 <= m < |articles| && SameCandidate(Resolve(articles, ranks).value[k], articles[m])
    ensures Resolve(articles, ranks).value[k].relevance.Some?
  {
    ResolveAgreesWithFilter(articles, ranks);
    var rank := Filter(ranks, BoundTest(articles))[k];
    var i := rank.number.value - 1;
    var m := if i >= 0 then i else |articles| + i;
    assert SameCandidate(Resolve(articles, ranks).value[k], articles[m]);
  }

  /** Every returned article is one of the input articles, possibly with a score and a
      reason attached; none is invented. */
  lemma RelevantComeFromInput(articles: seq<Article>, generate: string -> Option<string>,
                              jsonLoads: string -> Option<seq<RankEntry>>, k: nat)
    requires k < |RelevantArticles(articles, generate, jsonLoads)|
    ensures exists m :: 0 <= m < |articles| && SameCandidate(RelevantArticles(articles, generate, jsonLoads)[k], articles[m])
  {
    if articles != [] {
      match generate(RankingPrompt(ArticlesText(articles)))
      case None => FallbackComesFromInput(articles, k);
      case Some(reply) =>
        match ExtractArray(reply)
        case None => FallbackComesFromInput(articles, k);
        case Some(json) =>
          match jsonLoads(json)
          case None => FallbackComesFromInput(articles, k);
          case Some(rankings) =>
            match ResolvedRankings(articles, rankings)
            case Raised => FallbackComesFromInput(articles, k);
            case Ok(_) => ResolvedComeFromInput(articles, Take(rankings, RankingLimit), k);
    }
  }
}
