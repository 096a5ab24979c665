/** The section schema: a required, trimmed name, a numeric priority that
    defaults to 0 and an optional parent reference that defaults to null. */
module SectionModel {
  import opened Js
  import opened Store

  /** A stored section. `priority` is the sort key and the value articles use
      to refer to the section; an update may set it to null (None). `parentId`
      is null (None) or the id of another section, never checked. */
  datatype Section = Section(name: string, priority: Option<int>, parentId: Option<Id>)

  /** The paths given to `new Section({...})`; None leaves a path unset. */
  datatype SectionFields = SectionFields(name: Option<string>, priority: Option<int>, parentId: Option<Id>)

  predicate ValidSection(s: Section) {
    IsTrimmed(s.name) && s.name != ""
  }

  /** What every stored section keeps: updates run the `trim` setter but not `required`. */
  predicate SectionStored(s: Section) {
    IsTrimmed(s.name)
  }

  /** Building the document and validating it on `save()`; None is the validation error. */
  function NewSection(f: SectionFields): (r: Option<Section>)
    ensures r.Some? <==> f.name.Some? && Trim(f.name.value) != ""
    ensures r.Some? ==> ValidSection(r.value) && SectionStored(r.value)
    ensures r.Some? ==>
      && r.value.name == Trim(f.name.value)
      && r.value.priority == Some(f.priority.GetOr(0))
      && r.value.parentId == f.parentId
  {
    if f.name.Some? && Trim(f.name.value) != "" then
      Some(Section(Trim(f.name.value), Some(f.priority.GetOr(0)), f.parentId))
    else None
  }

  /** Whether a section is accepted does not depend on its parent: the schema
      does not check that `parentId` names an existing section. */
  lemma AnyParentAccepted(f: SectionFields, p: Option<Id>)
    ensures NewSection(f.(parentId := p)).Some? == NewSection(f).Some?
  {
  }

  /** With neither priority nor parent given, a section gets priority 0 and a null parent. */
  lemma SectionDefaults(name: string)
    requires Trim(name) != ""
    ensures NewSection(SectionFields(Some(name), None, None)) == Some(Section(Trim(name), Some(0), None))
  {
  }
}
