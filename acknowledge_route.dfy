/** `POST /api/articles/acknowledge`: a user marks an article as read. The user
    id is added to the article's `acknowledged` list and the article id to the
    user's `acknowledgedArticles`, each as a set (`$addToSet`). */
module AcknowledgeRoute {
  import opened Js
  import opened Store
  import opened Http
  import opened ArticleModel
  import opened UserModel
  import ArticlesRoute
  import UsersRoute

  /** The article after `$addToSet: { acknowledged: userId }`. */
  function MarkAcknowledged(a: Article, userId: Id): (r: Article)
    ensures userId in r.acknowledged
    ensures forall x :: x in r.acknowledged <==> x in a.acknowledged || x == userId
    ensures r == a.(acknowledged := r.acknowledged)
  {
    a.(acknowledged := AddToSet(a.acknowledged, userId))
  }

  /** The user after `$addToSet: { acknowledgedArticles: articleId }`. */
  function MarkRead(u: User, articleId: Id): (r: User)
    ensures articleId in r.acknowledgedArticles
    ensures forall x :: x in r.acknowledgedArticles <==> x in u.acknowledgedArticles || x == articleId
    ensures r == u.(acknowledgedArticles := r.acknowledgedArticles)
  {
    u.(acknowledgedArticles := AddToSet(u.acknowledgedArticles, articleId))
  }

  /** What one request leaves behind: the reply and both collections. */
  datatype Outcome = Outcome(reply: Reply<()>, articles: seq<Doc<Article>>, users: seq<Doc<User>>)

  /** The handler on values: 400 without both ids, 404 for the article before
      the user is looked at, 404 for the user, else both set-adds. */
  function Acknowledgement(articles: seq<Doc<Article>>, users: seq<Doc<User>>,
                           articleId: Option<string>, userId: Option<string>): (o: Outcome)
    ensures |o.articles| == |articles| && |o.users| == |users|
    ensures o.reply.Err? ==> o.articles == articles && o.users == users
    ensures o.reply.Ok? <==> Given(articleId) && Given(userId)
                             && Find(articles, articleId.value).Some? && Find(users, userId.value).Some?
  {
    if !(Given(articleId) && Given(userId)) then Outcome(Err(MissingFields), articles, users)
    else match (Find(articles, articleId.value), Find(users, userId.value))
      case (None, _) => Outcome(Err(NotFound(ArticleEntity)), articles, users)
      case (Some(_), None) => Outcome(Err(NotFound(UserEntity)), articles, users)
      case (Some(i), Some(j)) =>
        Outcome(Ok(()),
                articles[i := Doc(articles[i].id, MarkAcknowledged(articles[i].data, userId.value))],
                users[j := Doc(users[j].id, MarkRead(users[j].data, articleId.value))])
  }

  /** Every failure leaves both collections as they were, and the article check comes first. */
  lemma FailureChangesNothing(articles: seq<Doc<Article>>, users: seq<Doc<User>>,
                              articleId: Option<string>, userId: Option<string>)
    ensures var o := Acknowledgement(articles, users, articleId, userId);
      o.reply.Err? ==> o.articles == articles && o.users == users
    ensures !Given(articleId) || !Given(userId) ==>
      Acknowledgement(articles, users, articleId, userId).reply == Err(MissingFields)
    ensures Given(articleId) && Given(userId) && Find(articles, articleId.value).None? ==>
      Acknowledgement(articles, users, articleId, userId).reply == Err(NotFound(ArticleEntity))
  {
  }

  /** After a success each side names the other, and nothing else changes:
      every other document, and every other field of the two documents, is kept. */
  lemma SuccessMarksBoth(articles: seq<Doc<Article>>, users: seq<Doc<User>>, articleId: string, userId: string)
    requires Find(articles, articleId).Some? && Find(users, userId).Some?
    requires articleId != "" && userId != ""
    ensures var o := Acknowledgement(articles, users, Some(articleId), Some(userId));
      && o.reply == Ok(())
      && |o.articles| == |articles| && |o.users| == |users|
      && (forall k :: 0 <= k < |articles| ==> o.articles[k].id == articles[k].id)
      && (forall k :: 0 <= k < |users| ==> o.users[k].id == users[k].id)
      && userId in o.articles[Find(articles, articleId).value].data.acknowledged
      && articleId in o.users[Find(users, userId).value].data.acknowledgedArticles
      && (forall k :: 0 <= k < |articles| && k != Find(articles, articleId).value ==> o.articles[k] == articles[k])
      && (forall k :: 0 <= k < |users| && k != Find(users, userId).value ==> o.users[k] == users[k])
      && o.articles[Find(articles, articleId).value].data
         == articles[Find(articles, articleId).value].data.(acknowledged := o.articles[Find(articles, articleId).value].data.acknowledged)
      && o.users[Find(users, userId).value].data
         == users[Find(users, userId).value].data.(acknowledgedArticles := o.users[Find(users, userId).value].data.acknowledgedArticles)
  {
  }

  /** Marking one article keeps every article's stored invariant. */
  lemma MarkKeepsArticlesStored(articles: seq<Doc<Article>>, i: nat, userId: Id)
    requires ArticlesRoute.ArticlesStored(articles) && i < |articles|
    ensures ArticlesRoute.ArticlesStored(articles[i := Doc(articles[i].id, MarkAcknowledged(articles[i].data, userId))])
  {
    var next := articles[i := Doc(articles[i].id, MarkAcknowledged(articles[i].data, userId))];
    forall k | 0 <= k < |next| ensures ArticleStored(next[k].data) {
      if k != i {
        assert next[k] == articles[k];
      }
    }
  }

  /** Marking one user keeps every user's stored invariant and the distinct emails. */
  lemma MarkKeepsUsersStored(users: seq<Doc<User>>, j: nat, articleId: Id)
    requires UsersRoute.UsersStored(users) && j < |users|
    ensures UsersRoute.UsersStored(users[j := Doc(users[j].id, MarkRead(users[j].data, articleId))])
  {
    var next := users[j := Doc(users[j].id, MarkRead(users[j].data, articleId))];
    assert forall k :: 0 <= k < |users| ==> next[k].data.email == users[k].data.email;
    forall k | 0 <= k < |next| ensures UserStored(next[k].data) {
      if k != j {
        assert next[k] == users[k];
      }
    }
  }

  /** Both stored invariants survive: the lists gain an element only when it is new. */
  lemma AcknowledgementKeepsStored(articles: seq<Doc<Article>>, users: seq<Doc<User>>,
                                   articleId: Option<string>, userId: Option<string>)
    requires ArticlesRoute.ArticlesStored(articles) && UsersRoute.UsersStored(users)
    ensures ArticlesRoute.ArticlesStored(Acknowledgement(articles, users, articleId, userId).articles)
    ensures UsersRoute.UsersStored(Acknowledgement(articles, users, articleId, userId).users)
  {
    var o := Acknowledgement(articles, users, articleId, userId);
    if o.reply.Ok? {
      MarkKeepsArticlesStored(articles, Find(articles, articleId.value).value, userId.value);
      MarkKeepsUsersStored(users, Find(users, userId.value).value, articleId.value);
    }
  }

  /** Acknowledging twice leaves the same state as acknowledging once. */
  lemma AcknowledgementIdempotent(articles: seq<Doc<Article>>, users: seq<Doc<User>>,
                                  articleId: Option<string>, userId: Option<string>)
    ensures var o := Acknowledgement(articles, users, articleId, userId);
      var o2 := Acknowledgement(o.articles, o.users, articleId, userId);
      o2.articles == o.articles && o2.users == o.users && o2.reply == o.reply
  {
    var o := Acknowledgement(articles, users, articleId, userId);
    if o.reply.Ok? {
      var i := Find(articles, articleId.value).value;
      var j := Find(users, userId.value).value;
      FindAfterReplace(articles, i, MarkAcknowledged(articles[i].data, userId.value), articleId.value);
      FindAfterReplace(users, j, MarkRead(users[j].data, articleId.value), userId.value);
      AddToSetIdempotent(articles[i].data.acknowledged, userId.value);
      AddToSetIdempotent(users[j].data.acknowledgedArticles, articleId.value);
    }
  }

  /** `if (!article.acknowledged.includes(userId))` then `$addToSet`: the same
      state as the unconditional `$addToSet`. */
  method AddAcknowledged(articles: Collection<Article>, i: nat, userId: Id)
    requires articles.Valid() && i < |articles.docs|
    modifies articles
    ensures articles.Valid()
    ensures articles.docs == old(articles.docs)[i := Doc(old(articles.docs)[i].id, MarkAcknowledged(old(articles.docs)[i].data, userId))]
  {
    var a := articles.docs[i].data;
    if userId !in a.acknowledged {
      articles.Replace(i, MarkAcknowledged(a, userId));
    } else {
      assert MarkAcknowledged(a, userId) == a;
      assert articles.docs == articles.docs[i := Doc(articles.docs[i].id, a)];
    }
  }

  /** `if (!user.acknowledgedArticles.includes(articleId))` then `$addToSet`. */
  method AddRead(users: Collection<User>, j: nat, articleId: Id)
    requires users.Valid() && j < |users.docs|
    modifies users
    ensures users.Valid()
    ensures users.docs == old(users.docs)[j := Doc(old(users.docs)[j].id, MarkRead(old(users.docs)[j].data, articleId))]
  {
    var u := users.docs[j].data;
    if articleId !in u.acknowledgedArticles {
      users.Replace(j, MarkRead(u, articleId));
    } else {
      assert MarkRead(u, articleId) == u;
      assert users.docs == users.docs[j := Doc(users.docs[j].id, u)];
    }
  }

  /** The handler: 400, the two 404s, then both guarded updates. */
  method Acknowledge(articles: Collection<Article>, users: Collection<User>,
                     articleId: Option<string>, userId: Option<string>)
    returns (r: Reply<()>)
    requires articles.Valid() && users.Valid()
    requires ArticlesRoute.ArticlesStored(articles.docs) && UsersRoute.UsersStored(users.docs)
    modifies articles, users
    ensures articles.Valid() && users.Valid()
    ensures ArticlesRoute.ArticlesStored(articles.docs) && UsersRoute.UsersStored(users.docs)
    ensures
      var o := Acknowledgement(old(articles.docs), old(users.docs), articleId, userId);
      r == o.reply && articles.docs == o.articles && users.docs == o.users
  {
    AcknowledgementKeepsStored(articles.docs, users.docs, articleId, userId);
    if !(Given(articleId) && Given(userId)) {
      return Err(MissingFields);
    }
    var foundArticle := Find(articles.docs, articleId.value);
    var foundUser := Find(users.docs, userId.value);
    if foundArticle.None? {
      return Err(NotFound(ArticleEntity));
    }
    if foundUser.None? {
      return Err(NotFound(UserEntity));
    }
    AddAcknowledged(articles, foundArticle.value, userId.value);
    AddRead(users, foundUser.value, articleId.value);
    r := Ok(());
  }
}
