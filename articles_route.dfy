/** The `/api/articles` handlers: GET (one article by id, raising its view
    count; the articles of a section; all articles), POST, PUT and DELETE. */
module ArticlesRoute {
  import opened Js
  import opened Store
  import opened Http
  import opened ArticleModel

  /** The author recorded when the request names none ("current user"). */
  const DefaultAuthor: string := "Текущий пользователь"

  predicate ArticlesStored(docs: seq<Doc<Article>>) {
    forall k :: 0 <= k < |docs| ==> ArticleStored(docs[k].data)
  }

  datatype GetBody = One(article: Doc<Article>) | Many(articles: seq<Doc<Article>>)

  /** `Article.find({ section: n })`: the articles of section n, in collection order. */
  function InSection(docs: seq<Doc<Article>>, n: int): (r: seq<Doc<Article>>)
    ensures |r| <= |docs|
    ensures forall d :: d in r <==> d in docs && d.data.section == n
  {
    if docs == [] then []
    else (if docs[0].data.section == n then [docs[0]] else []) + InSection(docs[1..], n)
  }

  /** GET without an id: the articles of the section `parseInt(section)` when a
      section is given (a NaN section fails the query cast), otherwise all. */
  function List(docs: seq<Doc<Article>>, section: Option<string>): (r: Reply<GetBody>)
    ensures !Given(section) ==> r == Ok(Many(docs))
    ensures Given(section) ==> (r == Err(ServerError) <==> ParseInt(section.value).NaN?)
    ensures Given(section) && ParseInt(section.value).Integer? ==>
      r.Ok? && r.body.Many? && forall d :: d in r.body.articles <==> d in docs && d.data.section == ParseInt(section.value).value
  {
    if !Given(section) then Ok(Many(docs))
    else match ParseInt(section.value)
      case NaN => Err(ServerError)
      case Integer(n) => Ok(Many(InSection(docs, n)))
  }

  /** Every article GET returns for `section=s` is in that section, and none of that section is missing. */
  lemma ListBySection(docs: seq<Doc<Article>>, s: string, n: int)
    requires s != "" && ParseInt(s) == Integer(n)
    ensures List(docs, Some(s)).Ok?
    ensures forall d :: d in List(docs, Some(s)).body.articles <==> d in docs && d.data.section == n
  {
  }

  method Get(articles: Collection<Article>, id: Option<string>, section: Option<string>)
    returns (r: Reply<GetBody>)
    requires articles.Valid() && ArticlesStored(articles.docs)
    modifies articles
    ensures articles.Valid() && ArticlesStored(articles.docs)
    ensures Given(id) ==>
      match Find(old(articles.docs), id.value)
      case Some(i) =>
        var a := old(articles.docs)[i].data;
        && articles.docs == old(articles.docs)[i := Doc(id.value, a.(viewCount := a.viewCount + 1))]
        && r == Ok(One(articles.docs[i]))
      case None =>
        articles.docs == old(articles.docs) && r == Err(NotFound(ArticleEntity))
    ensures !Given(id) ==> articles.docs == old(articles.docs) && r == List(articles.docs, section)
  {
    if Given(id) {
      var found := Find(articles.docs, id.value);
      match found {
        case Some(i) =>
          var a := articles.docs[i].data;
          articles.Replace(i, a.(viewCount := a.viewCount + 1));
          r := Ok(One(articles.docs[i]));
        case None =>
          r := Err(NotFound(ArticleEntity));
      }
    } else {
      r := List(articles.docs, section);
    }
  }

  /** The document POST passes to `new Article`. */
  function PostFields(title: Option<string>, content: Option<string>, section: Json,
                      author: Option<string>, today: string): ArticleFields
  {
    ArticleFields(title, content, Some(if Given(author) then author.value else DefaultAuthor),
                  Some(today), Some(ParseIntOf(section)), None)
  }

  /** POST up to the insert: the 400 check on the body, then the schema on `save()`. */
  function Created(title: Option<string>, content: Option<string>, section: Json,
                   author: Option<string>, today: string): (r: Reply<Article>)
    ensures r.Ok? || r == Err(MissingFields) || r == Err(ServerError)
    ensures r == Err(MissingFields) <==> !(Given(title) && Given(content) && Truthy(section))
    ensures r == Err(ServerError) <==>
      Given(title) && Given(content) && Truthy(section)
      && (Trim(title.value) == "" || ParseIntOf(section).NaN?)
    ensures r.Ok? ==>
      && r.body.title == Trim(title.value)
      && r.body.content == content.value
      && r.body.section == ParseIntOf(section).value
      && r.body.author == (if Given(author) then author.value else DefaultAuthor)
      && r.body.date == today
      && r.body.acknowledged == []
      && r.body.viewCount == 0
      && ValidArticle(r.body) && ArticleStored(r.body)
  {
    if !(Given(title) && Given(content) && Truthy(section)) then Err(MissingFields)
    else
      var f := PostFields(title, content, section, author, today);
      assert f.title == title && f.content == content && f.section == Some(ParseIntOf(section));
      assert f.author.value != "" && f.acknowledged.GetOr([]) == [];
      match NewArticle(f, today)
      case None => Err(ServerError)
      case Some(a) => Ok(a)
  }

  /** A numeric section 0 is falsy, so POST refuses it with 400. */
  lemma ZeroSectionRefused(title: Option<string>, content: Option<string>, author: Option<string>, today: string)
    ensures Created(title, content, Num(0), author, today) == Err(MissingFields)
  {
  }

  /** The string "0" is truthy, so POST accepts it and files the article under section 0. */
  lemma StringZeroSectionAccepted(title: string, content: string, author: Option<string>, today: string)
    requires Trim(title) != "" && content != ""
    ensures Created(Some(title), Some(content), Str("0"), author, today).Ok?
    ensures Created(Some(title), Some(content), Str("0"), author, today).body.section == 0
  {
    assert ParseIntOf(Str("0")) == Integer(0) by {
      ParseIntDecimal(0);
      assert DecimalString(0) == "0";
    }
  }

  method Post(articles: Collection<Article>, title: Option<string>, content: Option<string>,
              section: Json, author: Option<string>, newId: Id, today: string)
    returns (r: Reply<Doc<Article>>)
    requires articles.Valid() && ArticlesStored(articles.docs) && Find(articles.docs, newId).None?
    modifies articles
    ensures articles.Valid() && ArticlesStored(articles.docs)
    ensures
      match Created(title, content, section, author, today)
      case Ok(a) => articles.docs == old(articles.docs) + [Doc(newId, a)] && r == Ok(Doc(newId, a))
      case Err(f) => articles.docs == old(articles.docs) && r == Err(f)
  {
    var created := Created(title, content, section, author, today);
    match created {
      case Ok(a) =>
        articles.Insert(Doc(newId, a));
        r := Ok(Doc(newId, a));
      case Err(f) =>
        r := Err(f);
    }
  }

  /** The update document PUT builds: only the truthy fields, each as written. */
  datatype ArticlePatch = ArticlePatch(title: Option<string>, content: Option<string>, section: Option<int>)

  /** The update PUT sends, once Mongoose has cast it: a path for each truthy
      field only, the title through its trim setter, the section through
      `parseInt`. A NaN section is a cast error (None), raised before the lookup. */
  function PatchOf(title: Option<string>, content: Option<string>, section: Json): (r: Option<ArticlePatch>)
    ensures r.None? <==> Truthy(section) && ParseIntOf(section).NaN?
    ensures r.Some? ==> r.value.title == (if Given(title) then Some(Trim(title.value)) else None)
    ensures r.Some? ==> r.value.content == (if Given(content) then content else None)
    ensures r.Some? ==> r.value.section == (if Truthy(section) then Some(ParseIntOf(section).value) else None)
  {
    var t := if Given(title) then Some(Trim(title.value)) else None;
    var c := if Given(content) then content else None;
    if !Truthy(section) then Some(ArticlePatch(t, c, None))
    else match ParseIntOf(section)
      case NaN => None
      case Integer(n) => Some(ArticlePatch(t, c, Some(n)))
  }

  /** Writing the update: the fields it names are overwritten, every other one is kept. */
  function Apply(a: Article, p: ArticlePatch): (r: Article)
    ensures r.title == p.title.GetOr(a.title) && r.content == p.content.GetOr(a.content)
    ensures r.section == p.section.GetOr(a.section)
    ensures r.author == a.author && r.date == a.date
    ensures r.acknowledged == a.acknowledged && r.viewCount == a.viewCount
  {
    a.(title := p.title.GetOr(a.title), content := p.content.GetOr(a.content),
       section := p.section.GetOr(a.section))
  }

  /** PUT with only falsy fields (a numeric section 0 among them) leaves the article as it was. */
  lemma FalsyFieldsIgnored(a: Article, title: Option<string>, content: Option<string>, section: Json)
    requires !Given(title) && !Given(content) && !Truthy(section)
    ensures PatchOf(title, content, section).Some?
    ensures Apply(a, PatchOf(title, content, section).value) == a
  {
  }

  /** An updated title is trimmed but not validated: PUT can store an empty title. */
  lemma BlankTitleStored(a: Article)
    ensures Apply(a, PatchOf(Some(" "), None, Undefined).value).title == ""
  {
    assert LeadingSpaces(" ") == 1;
  }

  method Put(articles: Collection<Article>, id: Option<string>, title: Option<string>,
             content: Option<string>, section: Json)
    returns (r: Reply<Doc<Article>>)
    requires articles.Valid() && ArticlesStored(articles.docs)
    modifies articles
    ensures articles.Valid() && ArticlesStored(articles.docs)
    ensures !Given(id) ==> articles.docs == old(articles.docs) && r == Err(MissingFields)
    ensures Given(id) && PatchOf(title, content, section).None? ==>
      articles.docs == old(articles.docs) && r == Err(ServerError)
    ensures Given(id) && PatchOf(title, content, section).Some? ==>
      match Find(old(articles.docs), id.value)
      case Some(i) =>
        && articles.docs == old(articles.docs)[i := Doc(id.value, Apply(old(articles.docs)[i].data, PatchOf(title, content, section).value))]
        && r == Ok(articles.docs[i])
      case None =>
        articles.docs == old(articles.docs) && r == Err(NotFound(ArticleEntity))
  {
    if !Given(id) {
      return Err(MissingFields);
    }
    var patch := PatchOf(title, content, section);
    if patch.None? {
      return Err(ServerError);
    }
    var found := Find(articles.docs, id.value);
    match found {
      case Some(i) =>
        articles.Replace(i, Apply(articles.docs[i].data, patch.value));
        r := Ok(articles.docs[i]);
      case None =>
        r := Err(NotFound(ArticleEntity));
    }
  }

  method Delete(articles: Collection<Article>, id: Option<string>) returns (r: Reply<Id>)
    requires articles.Valid() && ArticlesStored(articles.docs)
    modifies articles
    ensures articles.Valid() && ArticlesStored(articles.docs)
    ensures !Given(id) ==> articles.docs == old(articles.docs) && r == Err(MissingFields)
    ensures Given(id) ==>
      match Find(old(articles.docs), id.value)
      case Some(i) => articles.docs == RemoveAt(old(articles.docs), i) && r == Ok(id.value)
      case None => articles.docs == old(articles.docs) && r == Err(NotFound(ArticleEntity))
  {
    if !Given(id) {
      return Err(MissingFields);
    }
    var found := Find(articles.docs, id.value);
    match found {
      case Some(i) =>
        articles.Remove(i);
        r := Ok(id.value);
      case None =>
        r := Err(NotFound(ArticleEntity));
    }
  }
}
