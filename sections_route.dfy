/** The `/api/sections` handlers: GET (one section by id, or all sorted by
    priority), POST, PUT and DELETE. */
module SectionsRoute {
  import opened Js
  import opened Store
  import opened Http
  import opened Sorting
  import opened SectionModel

  predicate SectionsStored(docs: seq<Doc<Section>>) {
    forall k :: 0 <= k < |docs| ==> SectionStored(docs[k].data)
  }

  /** The sort key of `.sort({ priority: 1 })`. */
  function PriorityKey(d: Doc<Section>): Option<int> {
    d.data.priority
  }

  datatype GetBody = One(section: Doc<Section>) | Many(sections: seq<Doc<Section>>)

  /** GET: the section with the given id, or, without an id, every section in
      ascending priority order (null priorities first). */
  function Get(docs: seq<Doc<Section>>, id: Option<string>): (r: Reply<GetBody>)
    ensures Given(id) && Find(docs, id.value).Some? ==> r == Ok(One(docs[Find(docs, id.value).value]))
    ensures Given(id) && Find(docs, id.value).None? ==> r == Err(NotFound(SectionEntity))
    ensures !Given(id) ==>
      && r.Ok? && r.body.Many?
      && multiset(r.body.sections) == multiset(docs)
      && SortedBy(r.body.sections, PriorityKey, Ascending)
  {
    if Given(id) then
      match Find(docs, id.value)
      case Some(i) => Ok(One(docs[i]))
      case None => Err(NotFound(SectionEntity))
    else Ok(Many(SortBy(docs, PriorityKey, Ascending)))
  }

  /** A parent reference as Mongoose casts it to an ObjectId path: null stays
      null, a string is taken as an id, anything else is a cast error (None). */
  function ParentOf(v: Json): (r: Option<Option<Id>>)
    ensures r.None? <==> v.Bool? || v.Num?
    ensures r == Some(None) <==> v.Undefined? || v.Null?
    ensures v.Str? ==> r == Some(Some(v.s))
  {
    match v
    case Undefined => Some(None)
    case Null => Some(None)
    case Str(s) => Some(Some(s))
    case Bool(_) => None
    case Num(_) => None
  }

  /** `priority || 0` cast to the Number path; None is a cast error. */
  function PostPriority(priority: Json): (r: Option<int>)
    ensures !Truthy(priority) ==> r == Some(0)
    ensures Truthy(priority) ==> (r.None? <==> CastNumber(priority).CastError?)
    ensures Truthy(priority) && r.Some? ==> CastNumber(priority) == Cast(r)
  {
    if !Truthy(priority) then Some(0)
    else match CastNumber(priority)
      case CastError => None
      case Cast(v) => if v.Some? then v else Some(0)
  }

  /** POST up to the insert: the 400 check on the name, then the document
      (parent set only when truthy) and its validation on `save()`. */
  function Created(name: Option<string>, priority: Json, parentId: Json): (r: Reply<Section>)
    ensures r.Ok? || r == Err(MissingFields) || r == Err(ServerError)
    ensures r == Err(MissingFields) <==> !Given(name)
    ensures r == Err(ServerError) <==>
      Given(name) && (Trim(name.value) == "" || PostPriority(priority).None?
                      || (Truthy(parentId) && ParentOf(parentId).None?))
    ensures r.Ok? ==>
      && r.body.name == Trim(name.value)
      && r.body.priority == PostPriority(priority)
      && r.body.parentId == (if Truthy(parentId) then ParentOf(parentId).value else None)
      && ValidSection(r.body)
  {
    if !Given(name) then Err(MissingFields)
    else
      var parent := if Truthy(parentId) then ParentOf(parentId) else Some(None);
      match (PostPriority(priority), parent)
      case (Some(p), Some(pid)) =>
        (match NewSection(SectionFields(name, Some(p), pid))
         case Some(s) => Ok(s)
         case None => Err(ServerError))
      case _ => Err(ServerError)
  }

  /** A falsy priority (0, "", null, absent) is stored as 0. */
  lemma FalsyPriorityIsZero(name: string, priority: Json)
    requires Trim(name) != "" && !Truthy(priority)
    ensures Created(Some(name), priority, Undefined) == Ok(Section(Trim(name), Some(0), None))
  {
  }

  method Post(sections: Collection<Section>, name: Option<string>, priority: Json, parentId: Json, newId: Id)
    returns (r: Reply<Doc<Section>>)
    requires sections.Valid() && SectionsStored(sections.docs) && Find(sections.docs, newId).None?
    modifies sections
    ensures sections.Valid() && SectionsStored(sections.docs)
    ensures
      match Created(name, priority, parentId)
      case Ok(s) => sections.docs == old(sections.docs) + [Doc(newId, s)] && r == Ok(Doc(newId, s))
      case Err(f) => sections.docs == old(sections.docs) && r == Err(f)
  {
    var created := Created(name, priority, parentId);
    match created {
      case Ok(s) =>
        sections.Insert(Doc(newId, s));
        r := Ok(Doc(newId, s));
      case Err(f) =>
        r := Err(f);
    }
  }

  /** The update PUT sends: the name only when truthy (through its trim setter),
      but priority and parent whenever they are not undefined, so 0 and null
      are written. */
  datatype SectionPatch = SectionPatch(name: Option<string>, priority: Option<Option<int>>, parentId: Option<Option<Id>>)

  /** The update after Mongoose casts it; None is a cast error, raised before the lookup. */
  function PatchOf(name: Option<string>, priority: Json, parentId: Json): (r: Option<SectionPatch>)
    ensures r.None? <==> CastNumber(priority).CastError? || ParentOf(parentId).None?
    ensures r.Some? ==> r.value.name == (if Given(name) then Some(Trim(name.value)) else None)
    ensures r.Some? ==> r.value.priority == (if priority.Undefined? then None else Some(CastNumber(priority).value))
    ensures r.Some? ==> r.value.parentId == (if parentId.Undefined? then None else ParentOf(parentId))
  {
    var n := if Given(name) then Some(Trim(name.value)) else None;
    match (CastNumber(priority), ParentOf(parentId))
    case (Cast(p), Some(pid)) =>
      Some(SectionPatch(n, if priority.Undefined? then None else Some(p),
                        if parentId.Undefined? then None else Some(pid)))
    case _ => None
  }

  function Apply(s: Section, p: SectionPatch): (r: Section)
    ensures r.name == p.name.GetOr(s.name)
    ensures r.priority == p.priority.GetOr(s.priority)
    ensures r.parentId == p.parentId.GetOr(s.parentId)
  {
    Section(p.name.GetOr(s.name), p.priority.GetOr(s.priority), p.parentId.GetOr(s.parentId))
  }

  /** Unlike an article's section, a priority of 0 is applied by PUT. */
  lemma ZeroPriorityApplied(s: Section)
    ensures PatchOf(None, Num(0), Undefined).Some?
    ensures Apply(s, PatchOf(None, Num(0), Undefined).value) == s.(priority := Some(0))
  {
  }

  /** A null priority is written too, leaving the section with no priority. */
  lemma NullPriorityApplied(s: Section)
    ensures PatchOf(None, Null, Undefined).Some?
    ensures Apply(s, PatchOf(None, Null, Undefined).value) == s.(priority := None)
  {
  }

  method Put(sections: Collection<Section>, id: Option<string>, name: Option<string>, priority: Json, parentId: Json)
    returns (r: Reply<Doc<Section>>)
    requires sections.Valid() && SectionsStored(sections.docs)
    modifies sections
    ensures sections.Valid() && SectionsStored(sections.docs)
    ensures !Given(id) ==> sections.docs == old(sections.docs) && r == Err(MissingFields)
    ensures Given(id) && PatchOf(name, priority, parentId).None? ==>
      sections.docs == old(sections.docs) && r == Err(ServerError)
    ensures Given(id) && PatchOf(name, priority, parentId).Some? ==>
      match Find(old(sections.docs), id.value)
      case Some(i) =>
        && sections.docs == old(sections.docs)[i := Doc(id.value, Apply(old(sections.docs)[i].data, PatchOf(name, priority, parentId).value))]
        && r == Ok(sections.docs[i])
      case None =>
        sections.docs == old(sections.docs) && r == Err(NotFound(SectionEntity))
  {
    if !Given(id) {
      return Err(MissingFields);
    }
    var patch := PatchOf(name, priority, parentId);
    if patch.None? {
      return Err(ServerError);
    }
    var found := Find(sections.docs, id.value);
    match found {
      case Some(i) =>
        sections.Replace(i, Apply(sections.docs[i].data, patch.value));
        r := Ok(sections.docs[i]);
      case None =>
        r := Err(NotFound(SectionEntity));
    }
  }

  /** DELETE removes the section alone: the handler has no access to the
      articles, so none of them changes, not even those filed under its priority. */
  method Delete(sections: Collection<Section>, id: Option<string>) returns (r: Reply<Id>)
    requires sections.Valid() && SectionsStored(sections.docs)
    modifies sections
    ensures sections.Valid() && SectionsStored(sections.docs)
    ensures !Given(id) ==> sections.docs == old(sections.docs) && r == Err(MissingFields)
    ensures Given(id) ==>
      match Find(old(sections.docs), id.value)
      case Some(i) => sections.docs == RemoveAt(old(sections.docs), i) && r == Ok(id.value)
      case None => sections.docs == old(sections.docs) && r == Err(NotFound(SectionEntity))
  {
    if !Given(id) {
      return Err(MissingFields);
    }
    var found := Find(sections.docs, id.value);
    match found {
      case Some(i) =>
        sections.Remove(i);
        r := Ok(id.value);
      case None =>
        r := Err(NotFound(SectionEntity));
    }
  }
}
