/** The article schema: which paths are required, which are trimmed and which
    take a default when the document is created. */
module ArticleModel {
  import opened Js
  import opened Store

  /** A stored article. `section` refers to a section by that section's
      `priority`, not by its id. `viewCount` is not a declared path of the
      schema, yet the article and statistics routes read and raise it; it is
      modelled as a counter that starts at 0. */
  datatype Article = Article(
    title: string,
    content: string,
    author: string,
    date: string,
    section: int,
    acknowledged: seq<Id>,
    viewCount: nat)

  /** The paths given to `new Article({...})`; None leaves a path unset. The
      section is the number it was given, which may be NaN. */
  datatype ArticleFields = ArticleFields(
    title: Option<string>,
    content: Option<string>,
    author: Option<string>,
    date: Option<string>,
    section: Option<Number>,
    acknowledged: Option<seq<Id>>)

  /** Mongoose's `required` check on a String path (the empty string fails it). */
  predicate Filled(s: Option<string>) {
    s.Some? && s.value != ""
  }

  function TrimmedOpt(s: Option<string>): Option<string> {
    if s.Some? then Some(Trim(s.value)) else None
  }

  /** What the schema guarantees of a document it accepts on save. */
  predicate ValidArticle(a: Article) {
    IsTrimmed(a.title) && a.title != "" && a.content != "" && a.author != ""
  }

  /** What every stored article keeps, through updates as well as creation:
      updates run the `trim` setter but not the `required` validators. */
  predicate ArticleStored(a: Article) {
    IsTrimmed(a.title) && NoDuplicates(a.acknowledged)
  }

  /** Building the document (setters and defaults) and validating it on `save()`.
      None is the validation error `save()` throws; a NaN section fails the cast of
      the Number path, which Mongoose reports in the same error. */
  function NewArticle(f: ArticleFields, today: string): (r: Option<Article>)
    ensures r.Some? <==>
      Filled(TrimmedOpt(f.title)) && Filled(f.content) && Filled(f.author)
      && f.section.Some? && f.section.value.Integer?
    ensures r.Some? ==> ValidArticle(r.value)
    ensures r.Some? ==> ArticleStored(r.value) || !NoDuplicates(f.acknowledged.GetOr([]))
    ensures r.Some? ==>
      && r.value.title == Trim(f.title.value)
      && r.value.content == f.content.value
      && r.value.author == f.author.value
      && r.value.section == f.section.value.value
      && r.value.date == f.date.GetOr(today)
      && r.value.acknowledged == f.acknowledged.GetOr([])
      && r.value.viewCount == 0
  {
    var title := TrimmedOpt(f.title);
    if Filled(title) && Filled(f.content) && Filled(f.author) && f.section.Some? && f.section.value.Integer? then
      Some(Article(title.value, f.content.value, f.author.value, f.date.GetOr(today),
                   f.section.value.value, f.acknowledged.GetOr([]), 0))
    else None
  }

  /** An article is refused unless title, content, author and section are all set. */
  lemma RequiredPaths(f: ArticleFields, today: string)
    requires f.title.None? || f.content.None? || f.author.None? || f.section.None?
    ensures NewArticle(f, today).None?
  {
  }

  /** A title of nothing but whitespace is trimmed to "" and then fails `required`. */
  lemma BlankTitleRefused(f: ArticleFields, today: string)
    requires f.title.Some? && forall k :: 0 <= k < |f.title.value| ==> IsSpace(f.title.value[k])
    ensures NewArticle(f, today).None?
  {
    var t := f.title.value;
    assert LeadingSpaces(t) == |t|;
  }

  /** An article created with no `acknowledged` list starts acknowledged by no one, unread. */
  lemma DefaultsOnCreate(f: ArticleFields, today: string)
    requires f.acknowledged.None? && f.date.None?
    requires NewArticle(f, today).Some?
    ensures NewArticle(f, today).value.acknowledged == []
    ensures NewArticle(f, today).value.date == today
    ensures ArticleStored(NewArticle(f, today).value)
  {
  }
}
