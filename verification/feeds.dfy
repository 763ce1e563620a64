/**
 News aggregation: `fetch_news_from_feeds` in both dashboards. The feed
 library is a parameter `fetch` from a feed address to the entries it returns;
 every entry field is optional, as `entry.get(..)` treats it.
 */
module Feeds {
  import opened Wrappers
  import opened Seqs

  /** One raw feed entry: only the four fields the dashboards read. */
  datatype Entry = Entry(title: Option<string>, published: Option<string>,
                         summary: Option<string>, link: Option<string>)

  /** A configured feed of the payment-methods dashboard. */
  datatype Feed = Feed(name: string, url: string)

  /** One row of the credit-card dashboard's table; `published` is renamed `date`. */
  datatype Article = Article(title: string, date: string, summary: string, link: string)

  /** One row of the payment-methods dashboard's table: an article tagged with its feed's name. */
  datatype NewsItem = NewsItem(article: Article, source: string)

  const NoTitle: string := "Sem título"
  const NoDate: string := "Data desconhecida"
  const NoSummary: string := "Sem resumo"
  const NoLink: string := "Sem link"

  /** The placeholder substitution both dashboards perform on every entry. */
  function ToArticle(e: Entry): (a: Article)
    ensures e.title.Some? ==> a.title == e.title.value
    ensures e.title.None? ==> a.title == NoTitle
    ensures e.published.Some? ==> a.date == e.published.value
    ensures e.published.None? ==> a.date == NoDate
    ensures e.summary.Some? ==> a.summary == e.summary.value
    ensures e.summary.None? ==> a.summary == NoSummary
    ensures e.link.Some? ==> a.link == e.link.value
    ensures e.link.None? ==> a.link == NoLink
  {
    Article(e.title.GetOr(NoTitle), e.published.GetOr(NoDate),
            e.summary.GetOr(NoSummary), e.link.GetOr(NoLink))
  }

  /** An entry with all four fields is recovered exactly from its article. */
  lemma ToArticleFields(e: Entry)
    ensures e == Entry(Some(ToArticle(e).title), Some(ToArticle(e).date),
                       Some(ToArticle(e).summary), Some(ToArticle(e).link))
            <== e.title.Some? && e.published.Some? && e.summary.Some? && e.link.Some?
  {
  }

  /** The articles of one feed, in entry order. */
  function ArticlesOf(entries: seq<Entry>): (r: seq<Article>)
    ensures |r| == |entries|
    ensures forall j :: 0 <= j < |entries| ==> r[j] == ToArticle(entries[j])
  {
    seq(|entries|, j requires 0 <= j < |entries| => ToArticle(entries[j]))
  }

  /** The entries the feed library returns for each address, in address order. */
  function EntriesPerUrl(urls: seq<string>, fetch: string -> seq<Entry>): (r: seq<seq<Entry>>)
    ensures |r| == |urls|
    ensures forall i :: 0 <= i < |urls| ==> r[i] == fetch(urls[i])
  {
    seq(|urls|, i requires 0 <= i < |urls| => fetch(urls[i]))
  }

  /** Total number of entries the feed library returns over all addresses. */
  function EntryCount(urls: seq<string>, fetch: string -> seq<Entry>): nat
  {
    TotalLength(EntriesPerUrl(urls, fetch))
  }

  /**
   `fetch_news_from_feeds` of the credit-card dashboard: every entry of every
   address, normalised, addresses in list order and entries in feed order.
   */
  function FetchArticles(urls: seq<string>, fetch: string -> seq<Entry>): (r: seq<Article>)
    ensures |r| == EntryCount(urls, fetch)
  {
    var ss := ArticlesPerUrl(urls, fetch);
    SameOffsets(ss, EntriesPerUrl(urls, fetch), |urls|);
    assert ss[..|urls|] == ss;
    assert EntriesPerUrl(urls, fetch)[..|urls|] == EntriesPerUrl(urls, fetch);
    Flatten(ss)
  }

  function ArticlesPerUrl(urls: seq<string>, fetch: string -> seq<Entry>): (r: seq<seq<Article>>)
    ensures |r| == |urls|
    ensures forall i :: 0 <= i < |urls| ==> r[i] == ArticlesOf(fetch(urls[i]))
  {
    seq(|urls|, i requires 0 <= i < |urls| => ArticlesOf(fetch(urls[i])))
  }

  /**
   Entry `j` of address `i` becomes row `Offset + j` of the table, where
   `Offset` counts the entries of the addresses before `i`.
   */
  lemma FetchArticlesOrder(urls: seq<string>, fetch: string -> seq<Entry>, i: nat, j: nat)
    requires i < |urls| && j < |fetch(urls[i])|
    ensures Offset(EntriesPerUrl(urls, fetch), i) + j < |FetchArticles(urls, fetch)|
    ensures FetchArticles(urls, fetch)[Offset(EntriesPerUrl(urls, fetch), i) + j]
            == ToArticle(fetch(urls[i])[j])
  {
    var ss := ArticlesPerUrl(urls, fetch);
    FlattenAt(ss, i, j);
    SameOffsets(ss, EntriesPerUrl(urls, fetch), i);
  }

  /** Two lists of lists whose inner lengths agree have the same offsets. */
  lemma {:induction false} SameOffsets<A, B>(xs: seq<seq<A>>, ys: seq<seq<B>>, i: nat)
    requires |xs| == |ys| && i <= |xs|
    requires forall k :: 0 <= k < |xs| ==> |xs[k]| == |ys[k]|
    ensures Offset(xs, i) == Offset(ys, i)
    decreases i
  {
    if i > 0 {
      OffsetStep(xs, i);
      OffsetStep(ys, i);
      SameOffsets(xs[1..], ys[1..], i - 1);
    }
  }

  /** The rows of one feed: its entries normalised and tagged with the feed's name. */
  function ItemsOf(f: Feed, entries: seq<Entry>): (r: seq<NewsItem>)
    ensures |r| == |entries|
    ensures forall j :: 0 <= j < |entries| ==> r[j] == NewsItem(ToArticle(entries[j]), f.name)
  {
    seq(|entries|, j requires 0 <= j < |entries| => NewsItem(ToArticle(entries[j]), f.name))
  }

  function Urls(feeds: seq<Feed>): (r: seq<string>)
    ensures |r| == |feeds|
    ensures forall i :: 0 <= i < |feeds| ==> r[i] == feeds[i].url
  {
    seq(|feeds|, i requires 0 <= i < |feeds| => feeds[i].url)
  }

  function Names(feeds: seq<Feed>): set<string>
  {
    set f | f in feeds :: f.name
  }

  function ItemsPerFeed(feeds: seq<Feed>, fetch: string -> seq<Entry>): (r: seq<seq<NewsItem>>)
    ensures |r| == |feeds|
    ensures forall i :: 0 <= i < |feeds| ==> r[i] == ItemsOf(feeds[i], fetch(feeds[i].url))
  {
    seq(|feeds|, i requires 0 <= i < |feeds| => ItemsOf(feeds[i], fetch(feeds[i].url)))
  }

  /**
   `fetch_news_from_feeds` of the payment-methods dashboard: one row per entry
   of every feed, in feed order then entry order, each row tagged with the
   name of the feed it came from.
   */
  function FetchNews(feeds: seq<Feed>, fetch: string -> seq<Entry>): (r: seq<NewsItem>)
    ensures |r| == EntryCount(Urls(feeds), fetch)
    ensures forall x :: x in r ==> x.source in Names(feeds)
  {
    var ss := ItemsPerFeed(feeds, fetch);
    var r := Flatten(ss);
    SameOffsets(ss, EntriesPerUrl(Urls(feeds), fetch), |feeds|);
    assert ss[..|feeds|] == ss;
    assert EntriesPerUrl(Urls(feeds), fetch)[..|feeds|] == EntriesPerUrl(Urls(feeds), fetch);
    forall x | x in r
      ensures x.source in Names(feeds)
    {
      FlattenMember(ss, x);
      var i, j :| 0 <= i < |ss| && 0 <= j < |ss[i]| && ss[i][j] == x;
      assert feeds[i] in feeds;
    }
    r
  }

  /** Entry `j` of feed `i` becomes row `Offset + j`, tagged with feed `i`'s name. */
  lemma FetchNewsOrder(feeds: seq<Feed>, fetch: string -> seq<Entry>, i: nat, j: nat)
    requires i < |feeds| && j < |fetch(feeds[i].url)|
    ensures Offset(EntriesPerUrl(Urls(feeds), fetch), i) + j < |FetchNews(feeds, fetch)|
    ensures FetchNews(feeds, fetch)[Offset(EntriesPerUrl(Urls(feeds), fetch), i) + j]
            == NewsItem(ToArticle(fetch(feeds[i].url)[j]), feeds[i].name)
  {
    var ss := ItemsPerFeed(feeds, fetch);
    FlattenAt(ss, i, j);
    SameOffsets(ss, EntriesPerUrl(Urls(feeds), fetch), i);
  }

  /** Both dashboards build the same articles: the tagged table, with the tag dropped, is the untagged one. */
  lemma TaggedMatchesUntagged(feeds: seq<Feed>, fetch: string -> seq<Entry>, k: nat)
    requires k < |FetchNews(feeds, fetch)|
    ensures |FetchNews(feeds, fetch)| == |FetchArticles(Urls(feeds), fetch)|
    ensures FetchNews(feeds, fetch)[k].article == FetchArticles(Urls(feeds), fetch)[k]
  {
    var ss := ItemsPerFeed(feeds, fetch);
    var urls := Urls(feeds);
    FlattenProject(ss, ArticlesPerUrl(urls, fetch));
  }

  /** Dropping the tag commutes with concatenation. */
  lemma {:induction false} FlattenProject(ss: seq<seq<NewsItem>>, aa: seq<seq<Article>>)
    requires |ss| == |aa|
    requires forall i :: 0 <= i < |ss| ==> |ss[i]| == |aa[i]|
    requires forall i, j :: 0 <= i < |ss| && 0 <= j < |ss[i]| ==> ss[i][j].article == aa[i][j]
    ensures |Flatten(ss)| == |Flatten(aa)|
    ensures forall k :: 0 <= k < |Flatten(ss)| ==> Flatten(ss)[k].article == Flatten(aa)[k]
    decreases |ss|
  {
    if |ss| > 0 {
      FlattenProject(ss[1..], aa[1..]);
      assert |ss[0]| == |aa[0]|;
      var fs := Flatten(ss);
      var fa := Flatten(aa);
      forall k | 0 <= k < |fs|
        ensures fs[k].article == fa[k]
      {
        if k < |ss[0]| {
          assert fs[k] == ss[0][k];
          assert fa[k] == aa[0][k];
        } else {
          assert fs[k] == Flatten(ss[1..])[k - |ss[0]|];
          assert fa[k] == Flatten(aa[1..])[k - |aa[0]|];
        }
      }
    }
  }
}
