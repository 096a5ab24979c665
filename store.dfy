/** A document collection as the route handlers use a Mongoose model: documents
    in natural (insertion) order, each with a distinct opaque `_id`. */
module Store {
  import opened Js

  type Id = string

  datatype Doc<T> = Doc(id: Id, data: T)

  predicate DistinctIds<T>(docs: seq<Doc<T>>) {
    forall i, j :: 0 <= i < j < |docs| ==> docs[i].id != docs[j].id
  }

  /** `findById`: the position of the first document with this id, if any. */
  function Find<T>(docs: seq<Doc<T>>, id: Id): (r: Option<nat>)
    ensures r.Some? ==> r.value < |docs| && docs[r.value].id == id
    ensures r.Some? ==> forall k :: 0 <= k < r.value ==> docs[k].id != id
    ensures r.None? <==> forall k :: 0 <= k < |docs| ==> docs[k].id != id
  {
    if docs == [] then None
    else if docs[0].id == id then Some(0)
    else match Find(docs[1..], id)
      case None => None
      case Some(k) => Some(k + 1)
  }

  /** In a collection with distinct ids, the document found is the only one with that id. */
  lemma FindUnique<T>(docs: seq<Doc<T>>, id: Id, i: nat)
    requires DistinctIds(docs) && i < |docs| && docs[i].id == id
    ensures Find(docs, id) == Some(i)
  {
  }

  /** Replacing a document's data keeps every id where it was, so every lookup is unchanged. */
  lemma {:induction false} FindAfterReplace<T>(docs: seq<Doc<T>>, i: nat, data: T, id: Id)
    requires i < |docs|
    ensures Find(docs[i := Doc(docs[i].id, data)], id) == Find(docs, id)
  {
    if i > 0 && docs[0].id != id {
      assert docs[i := Doc(docs[i].id, data)][1..] == docs[1..][i - 1 := Doc(docs[i].id, data)];
      FindAfterReplace(docs[1..], i - 1, data, id);
    }
  }

  /** The collection without the document at position i, the others kept in order. */
  function RemoveAt<T>(docs: seq<Doc<T>>, i: nat): seq<Doc<T>>
    requires i < |docs|
  {
    docs[..i] + docs[i + 1..]
  }

  /** Position k of the shortened collection holds what position k, or k + 1 from i on, held before. */
  lemma RemoveAtIndex<T>(docs: seq<Doc<T>>, i: nat)
    requires i < |docs|
    ensures |RemoveAt(docs, i)| == |docs| - 1
    ensures forall k :: 0 <= k < |docs| - 1 ==> RemoveAt(docs, i)[k] == docs[if k < i then k else k + 1]
  {
  }

  /** `findByIdAndDelete` removes exactly the one document with that id and keeps every other one. */
  lemma RemoveAtFacts<T>(docs: seq<Doc<T>>, i: nat)
    requires DistinctIds(docs) && i < |docs|
    ensures DistinctIds(RemoveAt(docs, i))
    ensures |RemoveAt(docs, i)| == |docs| - 1
    ensures Find(RemoveAt(docs, i), docs[i].id).None?
    ensures forall k :: 0 <= k < |docs| && k != i ==> docs[k] in RemoveAt(docs, i)
  {
    var r := RemoveAt(docs, i);
    forall a, b | 0 <= a < b < |r| ensures r[a].id != r[b].id {
      var a' := if a < i then a else a + 1;
      var b' := if b < i then b else b + 1;
      assert r[a] == docs[a'] && r[b] == docs[b'];
    }
    forall k | 0 <= k < |r| ensures r[k].id != docs[i].id {
      assert r[k] == docs[if k < i then k else k + 1];
    }
    forall k | 0 <= k < |docs| && k != i ensures docs[k] in r {
      assert docs[k] == r[if k < i then k else k - 1];
    }
  }

  predicate NoDuplicates(s: seq<Id>) {
    forall i, j :: 0 <= i < j < |s| ==> s[i] != s[j]
  }

  /** `$addToSet` on an array path: append x unless it is already there. */
  function AddToSet(s: seq<Id>, x: Id): (r: seq<Id>)
    ensures x in r
    ensures forall y :: y in r <==> y in s || y == x
    ensures NoDuplicates(s) ==> NoDuplicates(r)
    ensures |s| <= |r| && r[..|s|] == s
  {
    if x in s then s else s + [x]
  }

  lemma AddToSetIdempotent(s: seq<Id>, x: Id)
    ensures AddToSet(AddToSet(s, x), x) == AddToSet(s, x)
  {
  }

  /** A Mongoose model: the documents of one collection. */
  class Collection<T> {
    var docs: seq<Doc<T>>

    ghost predicate Valid()
      reads this
    {
      DistinctIds(docs)
    }

    constructor ()
      ensures Valid() && docs == []
    {
      docs := [];
    }

    /** `save()` of a new document, whose id the database has just generated. */
    method Insert(d: Doc<T>)
      requires Valid() && Find(docs, d.id).None?
      modifies this
      ensures Valid()
      ensures docs == old(docs) + [d]
    {
      docs := docs + [d];
    }

    /** `findByIdAndUpdate` of the document at position i. */
    method Replace(i: nat, data: T)
      requires Valid() && i < |docs|
      modifies this
      ensures Valid()
      ensures docs == old(docs)[i := Doc(old(docs)[i].id, data)]
    {
      docs := docs[i := Doc(docs[i].id, data)];
    }

    /** `findByIdAndDelete` of the document at position i. */
    method Remove(i: nat)
      requires Valid() && i < |docs|
      modifies this
      ensures Valid()
      ensures docs == RemoveAt(old(docs), i)
    {
      RemoveAtFacts(docs, i);
      docs := RemoveAt(docs, i);
    }
  }
}

/** The answers the route handlers give: a JSON body with status 200, or one of
    the error replies. */
module Http {

  datatype Entity = ArticleEntity | SectionEntity | UserEntity

  datatype Failure =
    | MissingFields        // 400: a required request field is missing or falsy
    | DuplicateEmail       // 400: a user with this email already exists
    | InvalidCredentials   // 401: unknown email or wrong password, one reply for both
    | NotFound(entity: Entity)
    | ServerError          // 500: any exception the handler catches

  datatype Reply<T> = Ok(body: T) | Err(failure: Failure) {
    function Status(): (code: int)
      ensures code in {200, 400, 401, 404, 500}
      ensures code == 200 <==> Ok?
    {
      match this
      case Ok(_) => 200
      case Err(MissingFields) => 400
      case Err(DuplicateEmail) => 400
      case Err(InvalidCredentials) => 401
      case Err(NotFound(_)) => 404
      case Err(ServerError) => 500
    }
  }
}
