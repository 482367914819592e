/** `create_html_email`: one block per article, in order, each labelled
    `ARTICLE {i}:` with its 1-based position and coloured `colors[i % 3]`, wrapped in
    a page with a date line. Title, summary and URL are inserted verbatim, without
    HTML escaping. Only the structure of the template is kept; its inline CSS is
    abbreviated. */
module Renderer {
  import opened Options
  import opened Text
  import opened Lists
  import opened Articles

  /** The three accent colours (`colors`). */
  const Colors: seq<string> := ["#1a73e8", "#d93025", "#0d9488"]

  /** `colors[i % 3]` for the 1-based position `i`. */
  function AccentColor(i: nat): (c: string)
    ensures c in Colors
  {
    Colors[i % 3]
  }

  /** The colours repeat with period three, and any three consecutive positions get three
      different colours. Position 1 gets the second colour, not the first. */
  lemma AccentColorCycle(i: nat)
    ensures AccentColor(i + 3) == AccentColor(i)
    ensures AccentColor(i) != AccentColor(i + 1) && AccentColor(i + 1) != AccentColor(i + 2)
      && AccentColor(i) != AccentColor(i + 2)
    ensures AccentColor(1) == Colors[1]
  {
    assert (i + 3) % 3 == i % 3;
    // Distinct residues pick distinct entries of `Colors`.
    assert Colors[0] != Colors[1] && Colors[1] != Colors[2] && Colors[0] != Colors[2];
    if i % 3 == 0 {
      assert (i + 1) % 3 == 1 && (i + 2) % 3 == 2;
    } else if i % 3 == 1 {
      assert (i + 1) % 3 == 2 && (i + 2) % 3 == 0;
    } else {
      assert (i + 1) % 3 == 0 && (i + 2) % 3 == 1;
    }
  }

  /** `article['summary']`; the digest is only built from articles that have one. */
  function SummaryText(a: Article): string {
    match a.summary
    case Some(s) => s
    case None => ""
  }

  /** The heading text of a block: `ARTICLE {i}: {article['title']}`. */
  function ArticleHeading(i: nat, title: string): string {
    "ARTICLE " + NatToString(i) + ": " + title
  }

  // The fixed pieces of one block (CSS abbreviated).
  const BlockOpen: string := "\n<div style=\"border-left: 5px solid "
  const BannerOpen: string := "\"><div style=\"background: "
  const HeadingOpen: string := "\"><h2>\U{1F4CC} "
  const HeadingClose: string := "</h2></div><div>"
  const LinkOpen: string := "</div><a href=\""
  const LinkStyle: string := "\" style=\"background: "
  const BlockClose: string := "\">READ FULL ARTICLE</a></div>\n"

  /** The coloured border and banner, up to the heading text. */
  function BlockHead(color: string): string {
    BlockOpen + color + BannerOpen + color + HeadingOpen
  }

  /** The call-to-action link to the article, in the accent colour. */
  function ReadMoreLink(url: string, color: string): string {
    LinkOpen + url + (LinkStyle + color + BlockClose)
  }

  /** Everything after the heading: the summary, then the link. */
  function BlockBody(summary: string, url: string, color: string): string {
    HeadingClose + summary + ReadMoreLink(url, color)
  }

  /** The block for the article at 1-based position `i`. */
  function Block(i: nat, a: Article): string {
    var color := AccentColor(i);
    BlockHead(color) + ArticleHeading(i, a.title) + BlockBody(SummaryText(a), a.url, color)
  }

  /** The border and banner carry the colour they are given. */
  lemma BlockHeadShowsColor(color: string)
    ensures Occurs(color, BlockHead(color))
  {
    assert BlockHead(color) == BlockOpen + color + (BannerOpen + color + HeadingOpen);
    OccursInside(BlockOpen, color, BannerOpen + color + HeadingOpen);
  }

  /** A block opens with the border and banner in the accent colour of its position. */
  lemma BlockInColor(i: nat, a: Article)
    ensures BlockHead(AccentColor(i)) <= Block(i, a)
    ensures Occurs(AccentColor(i), Block(i, a))
  {
    var color := AccentColor(i);
    var head := BlockHead(color);
    var block := Block(i, a);
    assert block[..|head|] == head;
    assert Occurs(head, block);
    BlockHeadShowsColor(color);
    OccursTransitive(color, head, block);
  }

  /** A block shows its label, title, summary and URL verbatim. */
  lemma BlockShowsArticle(i: nat, a: Article)
    ensures Occurs(ArticleHeading(i, a.title), Block(i, a))
    ensures Occurs(SummaryText(a), Block(i, a))
    ensures Occurs(a.url, Block(i, a))
  {
    var color := AccentColor(i);
    var head := BlockHead(color) + ArticleHeading(i, a.title);
    var body := BlockBody(SummaryText(a), a.url, color);
    var link := ReadMoreLink(a.url, color);
    OccursInside(BlockHead(color), ArticleHeading(i, a.title), body);
    OccursAtEnd(head, body);
    OccursInside(HeadingClose, SummaryText(a), link);
    OccursTransitive(SummaryText(a), body, Block(i, a));
    OccursInside(LinkOpen, a.url, LinkStyle + color + BlockClose);
    OccursAtEnd(HeadingClose + SummaryText(a), link);
    OccursTransitive(a.url, link, body);
    OccursTransitive(a.url, body, Block(i, a));
  }

  /** `articles_html`: the blocks of all articles, in order, numbered from 1. */
  function ArticlesHtml(articles: seq<Article>): string {
    Numbered(articles, Block)
  }

  /** The `+=` loop over `enumerate(articles_with_summaries, 1)`. */
  method BuildArticlesHtml(articles: seq<Article>) returns (html: string)
    ensures html == ArticlesHtml(articles)
  {
    html := "";
    var i := 0;
    while i < |articles|
      invariant 0 <= i <= |articles|
      invariant html == Numbered(articles[..i], Block)
    {
      NumberedStep(articles, Block, i);
      html := html + Block(i + 1, articles[i]);
      i := i + 1;
    }
    assert articles[..|articles|] == articles;
  }

  // The fixed page around the blocks (CSS abbreviated).
  const PageOpen: string := "<html><body><h1>Your Daily Google Ads Digest</h1><p>"
  const PageDate: string := "</p>\n"
  const PageClose: string := "\n<p>Source: Search Engine Land</p></body></html>\n"

  /** The page header with the date line. */
  function PageHead(today: string): string {
    PageOpen + today + PageDate
  }

  /** Every article handed to the renderer carries a summary. */
  predicate AllSummarized(articles: seq<Article>) {
    forall k :: 0 <= k < |articles| ==> articles[k].summary.Some?
  }

  /** The page `create_html_email` returns, for the date text `today`. */
  function Digest(today: string, articles: seq<Article>): string
    requires AllSummarized(articles)
  {
    PageHead(today) + ArticlesHtml(articles) + PageClose
  }

  method CreateHtmlEmail(today: string, articles: seq<Article>) returns (html: string)
    requires AllSummarized(articles)
    ensures html == Digest(today, articles)
  {
    var articlesHtml := BuildArticlesHtml(articles);
    html := PageHead(today) + articlesHtml + PageClose;
  }

  /** The page up to the block of the article at index `k`: the header, the blocks of the
      articles before it, then its own block, numbered `k + 1`. */
  lemma DigestInOrder(today: string, articles: seq<Article>, k: nat)
    requires AllSummarized(articles) && k < |articles|
    ensures PageHead(today) + ArticlesHtml(articles[..k]) + Block(k + 1, articles[k])
      <= Digest(today, articles)
  {
    NumberedPagePrefix(PageHead(today), articles, Block, PageClose, k);
  }

  /** Every article's label, title, summary and URL appear in the page, and so does the
      accent colour of its position. */
  lemma DigestShowsEveryArticle(today: string, articles: seq<Article>, k: nat)
    requires AllSummarized(articles) && k < |articles|
    ensures Occurs(ArticleHeading(k + 1, articles[k].title), Digest(today, articles))
    ensures Occurs(articles[k].summary.value, Digest(today, articles))
    ensures Occurs(articles[k].url, Digest(today, articles))
    ensures Occurs(AccentColor(k + 1), Digest(today, articles))
  {
    BlockShowsArticle(k + 1, articles[k]);
    BlockInColor(k + 1, articles[k]);
    var a := articles[k];
    NumberedPieceShows(PageHead(today), articles, Block, PageClose, k, ArticleHeading(k + 1, a.title));
    NumberedPieceShows(PageHead(today), articles, Block, PageClose, k, SummaryText(a));
    NumberedPieceShows(PageHead(today), articles, Block, PageClose, k, a.url);
    NumberedPieceShows(PageHead(today), articles, Block, PageClose, k, AccentColor(k + 1));
  }
}
