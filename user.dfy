/** The user schema: the role enumeration, required and normalised paths, the
    defaults, and the `toJSON` transform that removes the password. */
module UserModel {
  import opened Js
  import opened Store

  datatype Role = Admin | Editor | Reader

  function RoleName(r: Role): string {
    match r
    case Admin => "admin"
    case Editor => "editor"
    case Reader => "reader"
  }

  /** The `enum` validator of the role path: exactly the three role names pass. */
  function ParseRole(s: string): (r: Option<Role>)
    ensures r.Some? ==> RoleName(r.value) == s
    ensures r.None? ==> forall role: Role :: RoleName(role) != s
  {
    if s == "admin" then Some(Admin)
    else if s == "editor" then Some(Editor)
    else if s == "reader" then Some(Reader)
    else None
  }

  lemma RoleRoundTrip(r: Role)
    ensures ParseRole(RoleName(r)) == Some(r)
  {
  }

  /** The `trim` and `lowercase` setters of the email path. */
  function NormaliseEmail(s: string): (r: string)
    ensures IsTrimmed(r)
    ensures ToLower(r) == r
    ensures |r| == |Trim(s)| <= |s|
    ensures forall k :: 0 <= k < |r| ==> r[k] == LowerChar(Trim(s)[k])
  {
    TrimLowerCommute(s);
    ToLowerIdempotent(Trim(s));
    ToLower(Trim(s))
  }

  /** Normalising an email that is already normalised changes nothing. */
  lemma NormaliseEmailIdempotent(s: string)
    ensures NormaliseEmail(NormaliseEmail(s)) == NormaliseEmail(s)
  {
    var t := NormaliseEmail(s);
    assert t == ToLower(Trim(s)) && Trim(t) == t;
    ToLowerIdempotent(Trim(s));
    assert NormaliseEmail(t) == ToLower(Trim(t));
  }

  /** A stored user. The role is kept as the string that was written: updates
      do not run the enum validator. */
  datatype User = User(
    email: string,
    name: string,
    password: string,
    role: string,
    acknowledgedArticles: seq<Id>)

  /** The paths given to `new User({...})`; None leaves a path unset. */
  datatype UserFields = UserFields(
    email: Option<string>,
    name: Option<string>,
    password: Option<string>,
    role: Option<string>,
    acknowledgedArticles: Option<seq<Id>>)

  /** What the schema guarantees of a user it accepts on save. */
  predicate ValidUser(u: User) {
    && u.email != "" && NormaliseEmail(u.email) == u.email
    && u.name != "" && IsTrimmed(u.name)
    && u.password != ""
    && ParseRole(u.role).Some?
  }

  /** What every stored user keeps, through updates as well as creation. */
  predicate UserStored(u: User) {
    NormaliseEmail(u.email) == u.email && IsTrimmed(u.name) && NoDuplicates(u.acknowledgedArticles)
  }

  /** The unique index on the email path. */
  predicate EmailsDistinct(docs: seq<Doc<User>>) {
    forall i, j :: 0 <= i < j < |docs| ==> docs[i].data.email != docs[j].data.email
  }

  /** Building the document (setters, defaults) and validating it on `save()`;
      None is the validation error. */
  function NewUser(f: UserFields): (r: Option<User>)
    ensures r.Some? <==>
      && f.email.Some? && NormaliseEmail(f.email.value) != ""
      && f.name.Some? && Trim(f.name.value) != ""
      && f.password.Some? && f.password.value != ""
      && ParseRole(f.role.GetOr("reader")).Some?
    ensures r.Some? ==> ValidUser(r.value)
    ensures r.Some? ==>
      && r.value.email == NormaliseEmail(f.email.value)
      && r.value.name == Trim(f.name.value)
      && r.value.password == f.password.value
      && r.value.role == f.role.GetOr("reader")
      && r.value.acknowledgedArticles == f.acknowledgedArticles.GetOr([])
  {
    if && f.email.Some? && NormaliseEmail(f.email.value) != ""
       && f.name.Some? && Trim(f.name.value) != ""
       && f.password.Some? && f.password.value != ""
       && ParseRole(f.role.GetOr("reader")).Some?
    then
      NormaliseEmailIdempotent(f.email.value);
      Some(User(NormaliseEmail(f.email.value), Trim(f.name.value), f.password.value,
                f.role.GetOr("reader"), f.acknowledgedArticles.GetOr([])))
    else None
  }

  /** Every user the schema accepts has one of the three roles; any other role string is refused. */
  lemma RoleIsEnumerated(f: UserFields)
    requires NewUser(f).Some?
    ensures exists role :: NewUser(f).value.role == RoleName(role)
  {
    var role := ParseRole(NewUser(f).value.role).value;
    assert NewUser(f).value.role == RoleName(role);
  }

  /** Without a role or a list, a user is a reader who has acknowledged nothing. */
  lemma UserDefaults(f: UserFields)
    requires f.role.None? && f.acknowledgedArticles.None? && NewUser(f).Some?
    ensures NewUser(f).value.role == "reader" && NewUser(f).value.acknowledgedArticles == []
  {
  }

  /** A user as serialised to JSON: every path except the password. */
  datatype UserView = UserView(id: Id, email: string, name: string, role: string, acknowledgedArticles: seq<Id>)

  /** The `toJSON` transform: deletes the password and keeps everything else. */
  function ToJson(d: Doc<User>): (v: UserView)
    ensures v.id == d.id && v.email == d.data.email && v.name == d.data.name
    ensures v.role == d.data.role && v.acknowledgedArticles == d.data.acknowledgedArticles
  {
    UserView(d.id, d.data.email, d.data.name, d.data.role, d.data.acknowledgedArticles)
  }

  /** The JSON of a user does not depend on its password. */
  lemma ToJsonHidesPassword(d: Doc<User>, p: string)
    ensures ToJson(Doc(d.id, d.data.(password := p))) == ToJson(d)
  {
  }

  function ToJsonAll(docs: seq<Doc<User>>): (r: seq<UserView>)
    ensures |r| == |docs| && forall k :: 0 <= k < |docs| ==> r[k] == ToJson(docs[k])
  {
    seq(|docs|, k requires 0 <= k < |docs| => ToJson(docs[k]))
  }
}
