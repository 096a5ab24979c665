/** `GET /api/statistics`: the size of each collection and the three most-viewed
    articles, projected to their title and view count. */
module StatisticsRoute {
  import opened Js
  import opened Store
  import opened Sorting
  import opened ArticleModel
  import opened SectionModel
  import opened UserModel

  const TopLimit: nat := 3

  /** The sort key of `.sort({ viewCount: -1 })`. */
  function ViewKey(d: Doc<Article>): Option<int> {
    Some(d.data.viewCount)
  }

  /** `.select('title viewCount')` keeps the id as well. */
  datatype TopArticle = TopArticle(id: Id, title: string, viewCount: nat)

  datatype Stats = Stats(articlesCount: nat, sectionsCount: nat, usersCount: nat, topArticles: seq<TopArticle>)

  function Project(d: Doc<Article>): TopArticle {
    TopArticle(d.id, d.data.title, d.data.viewCount)
  }

  function ProjectAll(docs: seq<Doc<Article>>): (r: seq<TopArticle>)
    ensures |r| == |docs|
    ensures forall k :: 0 <= k < |docs| ==> r[k] == Project(docs[k])
  {
    if docs == [] then [] else [Project(docs[0])] + ProjectAll(docs[1..])
  }

  /** Cutting a list sorted by descending views: the front stays in order, the
      two parts make up the list, and nothing behind the cut outranks the front. */
  lemma SortedCut(sorted: seq<Doc<Article>>, m: nat)
    requires SortedBy(sorted, ViewKey, Descending) && m <= |sorted|
    ensures forall i, j :: 0 <= i < j < m ==> sorted[..m][i].data.viewCount >= sorted[..m][j].data.viewCount
    ensures forall d, t :: d in sorted[m..] && t in sorted[..m] ==> d.data.viewCount <= t.data.viewCount
    ensures multiset(sorted[..m]) + multiset(sorted[m..]) == multiset(sorted)
  {
    var top := sorted[..m];
    var rest := sorted[m..];
    assert sorted == top + rest;
    forall d, t | d in rest && t in top ensures d.data.viewCount <= t.data.viewCount {
      var a :| 0 <= a < |top| && top[a] == t;
      var b :| 0 <= b < |rest| && rest[b] == d;
      assert InOrder(ViewKey(sorted[a]), ViewKey(sorted[m + b]), Descending);
    }
    forall i, j | 0 <= i < j < |top| ensures top[i].data.viewCount >= top[j].data.viewCount {
      assert InOrder(ViewKey(sorted[i]), ViewKey(sorted[j]), Descending);
    }
  }

  /** Sorted by descending view count, cut after the first `TopLimit`: the
      articles kept are part of the collection, and none of the articles left
      out has more views than any kept. */
  function TopDocs(docs: seq<Doc<Article>>): (r: seq<Doc<Article>>)
    ensures |r| == if |docs| < TopLimit then |docs| else TopLimit
    ensures forall i, j :: 0 <= i < j < |r| ==> r[i].data.viewCount >= r[j].data.viewCount
    ensures multiset(r) <= multiset(docs)
    ensures forall d, t :: d in multiset(docs) - multiset(r) && t in r ==> d.data.viewCount <= t.data.viewCount
  {
    var sorted := SortBy(docs, ViewKey, Descending);
    var m := if |docs| < TopLimit then |docs| else TopLimit;
    SortedCut(sorted, m);
    assert multiset(docs) - multiset(sorted[..m]) == multiset(sorted[m..]);
    sorted[..m]
  }

  /** Every article kept is one of the collection. */
  lemma TopDocsFromCollection(docs: seq<Doc<Article>>)
    ensures forall t :: t in TopDocs(docs) ==> t in docs
  {
    var r := TopDocs(docs);
    forall t | t in r ensures t in docs {
      assert t in multiset(r);
      assert t in multiset(docs);
    }
  }

  /** Projecting a part of the collection gives part of the projected collection. */
  lemma ProjectedSubset(docs: seq<Doc<Article>>, part: seq<Doc<Article>>)
    requires forall t :: t in part ==> t in docs
    ensures forall k :: 0 <= k < |part| ==> ProjectAll(part)[k] in ProjectAll(docs)
  {
    var all := ProjectAll(docs);
    forall k | 0 <= k < |part| ensures ProjectAll(part)[k] in all {
      assert part[k] in docs;
      var i :| 0 <= i < |docs| && docs[i] == part[k];
      assert all[i] == Project(part[k]);
    }
  }

  /** Projecting keeps the order of view counts. */
  lemma ProjectedOrder(docs: seq<Doc<Article>>)
    requires forall i, j :: 0 <= i < j < |docs| ==> docs[i].data.viewCount >= docs[j].data.viewCount
    ensures var r := ProjectAll(docs);
      forall i, j :: 0 <= i < j < |r| ==> r[i].viewCount >= r[j].viewCount
  {
    var r := ProjectAll(docs);
    forall i, j | 0 <= i < j < |r| ensures r[i].viewCount >= r[j].viewCount {
      assert r[i] == Project(docs[i]) && r[j] == Project(docs[j]);
    }
  }

  /** What `topArticles` promises: at most three entries, most-viewed first,
      each the projection of an article of the collection. */
  predicate TopListOf(articles: seq<Doc<Article>>, tops: seq<TopArticle>) {
    && |tops| == (if |articles| < TopLimit then |articles| else TopLimit)
    && (forall i, j :: 0 <= i < j < |tops| ==> tops[i].viewCount >= tops[j].viewCount)
    && forall k :: 0 <= k < |tops| ==> tops[k] in ProjectAll(articles)
  }

  /** The projected top documents are such a list. */
  lemma TopDocsListed(articles: seq<Doc<Article>>)
    ensures TopListOf(articles, ProjectAll(TopDocs(articles)))
  {
    TopDocsFromCollection(articles);
    ProjectedSubset(articles, TopDocs(articles));
    ProjectedOrder(TopDocs(articles));
  }

  /** The handler; the random `actionsCount` is not part of the model. */
  function Statistics(articles: seq<Doc<Article>>, sections: seq<Doc<Section>>, users: seq<Doc<User>>): (s: Stats)
    ensures s.articlesCount == |articles| && s.sectionsCount == |sections| && s.usersCount == |users|
    ensures TopListOf(articles, s.topArticles)
  {
    TopDocsListed(articles);
    Stats(|articles|, |sections|, |users|, ProjectAll(TopDocs(articles)))
  }

  /** No article outside the top list has more views than the least-viewed one in it. */
  lemma LeftOutNotMoreViewed(articles: seq<Doc<Article>>, rest: seq<Doc<Article>>)
    requires multiset(TopDocs(articles)) + multiset(rest) == multiset(articles)
    requires |articles| > TopLimit
    ensures |rest| == |articles| - TopLimit
    ensures forall d :: d in rest ==> d.data.viewCount <= TopDocs(articles)[TopLimit - 1].data.viewCount
  {
    var top := TopDocs(articles);
    assert multiset(rest) == multiset(articles) - multiset(top);
    assert |multiset(rest)| == |multiset(articles)| - |multiset(top)|;
    forall d | d in rest ensures d.data.viewCount <= top[TopLimit - 1].data.viewCount {
      assert d in multiset(rest);
      assert top[TopLimit - 1] in top;
    }
  }
}
