/** The in-memory article catalog (`services/articleService.ts`).

    The catalog is one module-level array: filled once from the sample data,
    prepended to by `addArticle`, and read by lookups that keep catalog order.
    Generated ids, timestamps and `Math.random` draws are parameters. */
module ArticleService {
  import opened Util

  datatype Article = Article(
    id: string,
    title: string,
    publisher: string,
    author: string,
    time: string,
    category: string,
    article: string,
    summary: string,
    informationValue: real)

  /** What an uploader supplies: an article without id, summary, value or time. */
  datatype NewArticleData = NewArticleData(
    title: string,
    publisher: string,
    author: string,
    category: string,
    article: string)

  /** One parsed line of the sample data; `summary` is None when the line has none. */
  datatype SampleRecord = SampleRecord(
    title: string,
    publisher: string,
    author: string,
    time: string,
    category: string,
    article: string,
    summary: Option<string>)

  const SummaryFallback: string := "Summary not available."

  /** A draw of `Math.random()`. */
  predicate IsRandomDraw(x: real)
  {
    0.0 <= x < 1.0
  }

  /** `articles.find(a => a.id === id)`: the first article carrying `id`, if any. */
  function GetArticleById(articles: seq<Article>, id: string): (r: Option<Article>)
    ensures r.None? <==> forall i :: 0 <= i < |articles| ==> articles[i].id != id
    ensures r.Some? ==> exists k :: 0 <= k < |articles| && articles[k] == r.value && r.value.id == id
                                    && forall j :: 0 <= j < k ==> articles[j].id != id
  {
    if articles == [] then None
    else if articles[0].id == id then Some(articles[0])
    else
      var r := GetArticleById(articles[1..], id);
      assert r.Some? ==> exists k :: 0 <= k < |articles| && articles[k] == r.value
                                    && forall j :: 0 <= j < k ==> articles[j].id != id by {
        if r.Some? {
          var k :| 0 <= k < |articles| - 1 && articles[1..][k] == r.value && r.value.id == id
                   && forall j :: 0 <= j < k ==> articles[1..][j].id != id;
          assert articles[k + 1] == r.value;
          assert forall j :: 1 <= j < k + 1 ==> articles[j].id == articles[1..][j - 1].id;
        }
      }
      r
  }

  /** `articles.filter(a => ids.includes(a.id))`: the catalog articles whose id was
      requested, in catalog order (not request order). */
  function GetArticlesByIds(articles: seq<Article>, ids: seq<string>): (r: seq<Article>)
    ensures IsSubsequence(r, articles)
    ensures forall i :: 0 <= i < |r| ==> r[i].id in ids
    ensures forall i :: 0 <= i < |articles| && articles[i].id in ids ==> articles[i] in r
  {
    Filter(articles, (a: Article) => a.id in ids)
  }

  /** A requested article is selected as many times as the catalog lists it. */
  lemma {:induction false} GetArticlesByIdsKeepsCopies(articles: seq<Article>, ids: seq<string>, a: Article)
    requires a.id in ids
    ensures multiset(GetArticlesByIds(articles, ids))[a] == multiset(articles)[a]
  {
    FilterCount(articles, (a: Article) => a.id in ids, a);
  }

  /** The selection depends only on which ids are requested: neither their order
      nor repetitions change it. */
  lemma GetArticlesByIdsSameIds(articles: seq<Article>, ids1: seq<string>, ids2: seq<string>)
    requires forall x :: x in ids1 <==> x in ids2
    ensures GetArticlesByIds(articles, ids1) == GetArticlesByIds(articles, ids2)
  {
    FilterAgrees(articles, (a: Article) => a.id in ids1, (a: Article) => a.id in ids2);
  }

  /** Requesting an id twice does not select its articles twice. */
  lemma DuplicateIdsNotDoubleCounted(articles: seq<Article>, ids: seq<string>, x: string)
    requires x in ids
    ensures GetArticlesByIds(articles, ids + [x]) == GetArticlesByIds(articles, ids)
  {
    GetArticlesByIdsSameIds(articles, ids + [x], ids);
  }

  /** Requesting every id of the catalog selects the whole catalog. */
  lemma GetArticlesByAllIds(articles: seq<Article>, ids: seq<string>)
    requires forall i :: 0 <= i < |articles| ==> articles[i].id in ids
    ensures GetArticlesByIds(articles, ids) == articles
  {
    FilterKeepsAll(articles, (a: Article) => a.id in ids);
  }

  /** The article that one sample line becomes. */
  function FromSample(rec: SampleRecord, id: string, draw: real): (a: Article)
    requires IsRandomDraw(draw)
    ensures a.id == id && a.title == rec.title && a.article == rec.article
    ensures a.publisher == rec.publisher && a.author == rec.author
    ensures a.time == rec.time && a.category == rec.category
    ensures a.summary == if rec.summary.Some? && rec.summary.value != "" then rec.summary.value else SummaryFallback
    ensures 1.0 <= a.informationValue < 11.0
  {
    Article(id, rec.title, rec.publisher, rec.author, rec.time, rec.category, rec.article,
            if rec.summary.Some? && rec.summary.value != "" then rec.summary.value else SummaryFallback,
            draw * 10.0 + 1.0)
  }

  class Store {
    /** The module-level `articles` array. */
    var articles: seq<Article>

    constructor ()
      ensures articles == []
    {
      articles := [];
    }

    /** `initializeData`: fills an empty catalog from the parsed sample lines; `parsed`
        is None when parsing failed. A non-empty catalog is left alone. */
    method InitializeData(parsed: Option<seq<SampleRecord>>, ids: seq<string>, draws: seq<real>)
      requires parsed.Some? ==> |ids| == |parsed.value| && |draws| == |parsed.value|
      requires forall i :: 0 <= i < |draws| ==> IsRandomDraw(draws[i])
      modifies this
      ensures old(articles) != [] ==> articles == old(articles)
      ensures old(articles) == [] && parsed.None? ==> articles == []
      ensures old(articles) == [] && parsed.Some? ==>
                |articles| == |parsed.value|
                && forall i :: 0 <= i < |articles| ==> articles[i] == FromSample(parsed.value[i], ids[i], draws[i])
    {
      if articles == [] {
        match parsed
        case Some(recs) =>
          articles := seq(|recs|, i requires 0 <= i < |recs| => FromSample(recs[i], ids[i], draws[i]));
        case None =>
          articles := [];
      }
    }

    /** `getAllArticles`. */
    method GetAllArticles() returns (r: seq<Article>)
      ensures r == articles
    {
      r := articles;
    }

    /** `addArticle`: builds the article from the upload and puts it first. */
    method AddArticle(data: NewArticleData, summary: string, id: string, time: string, draw: real)
      returns (a: Article)
      requires IsRandomDraw(draw)
      modifies this
      ensures a.id == id && a.time == time && a.summary == summary
      ensures a.title == data.title && a.publisher == data.publisher && a.author == data.author
      ensures a.category == data.category && a.article == data.article
      ensures 5.0 <= a.informationValue < 15.0
      ensures articles == [a] + old(articles)
    {
      a := Article(id, data.title, data.publisher, data.author, time, data.category, data.article,
                   summary, draw * 10.0 + 5.0);
      articles := [a] + articles;
    }
  }
}
