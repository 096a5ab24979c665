/** The `/api/users` handlers: GET (one user by id, or all), POST (with the
    duplicate-email check and the password hash), PUT and DELETE. Every user
    reply goes through the `toJSON` transform, so no reply carries a password.
    The hash is a parameter: bcrypt with the salt of that call. */
module UsersRoute {
  import opened Js
  import opened Store
  import opened Http
  import opened UserModel

  /** What the user collection keeps through every handler: stored paths and the unique email index. */
  predicate UsersStored(docs: seq<Doc<User>>) {
    && (forall k :: 0 <= k < |docs| ==> UserStored(docs[k].data))
    && EmailsDistinct(docs)
  }

  /** `findOne({ email })`: whether some user holds this (already normalised) email. */
  predicate EmailHeld(docs: seq<Doc<User>>, email: string) {
    exists k :: 0 <= k < |docs| && docs[k].data.email == email
  }

  datatype GetBody = One(user: UserView) | Many(users: seq<UserView>)

  /** GET: the user with the given id, or every user, always without the password. */
  function Get(docs: seq<Doc<User>>, id: Option<string>): (r: Reply<GetBody>)
    ensures Given(id) && Find(docs, id.value).Some? ==> r == Ok(One(ToJson(docs[Find(docs, id.value).value])))
    ensures Given(id) && Find(docs, id.value).None? ==> r == Err(NotFound(UserEntity))
    ensures !Given(id) ==> r.Ok? && r.body.Many? && |r.body.users| == |docs|
    ensures !Given(id) ==> forall k :: 0 <= k < |docs| ==> r.body.users[k] == ToJson(docs[k])
  {
    if Given(id) then
      match Find(docs, id.value)
      case Some(i) => Ok(One(ToJson(docs[i])))
      case None => Err(NotFound(UserEntity))
    else Ok(Many(ToJsonAll(docs)))
  }

  /** POST up to the insert: the 400 checks, the hash, and the schema on `save()`. */
  function Created(docs: seq<Doc<User>>, name: Option<string>, email: Option<string>,
                   password: Option<string>, role: Option<string>, hash: string -> string): (r: Reply<User>)
    ensures r.Ok? || r == Err(MissingFields) || r == Err(DuplicateEmail) || r == Err(ServerError)
    ensures r == Err(MissingFields) <==> !(Given(name) && Given(email) && Given(password))
    ensures r == Err(DuplicateEmail) <==>
      Given(name) && Given(email) && Given(password) && EmailHeld(docs, NormaliseEmail(email.value))
    ensures r == Err(ServerError) <==>
      && Given(name) && Given(email) && Given(password)
      && !EmailHeld(docs, NormaliseEmail(email.value))
      && (|| NormaliseEmail(email.value) == "" || Trim(name.value) == "" || hash(password.value) == ""
          || (Given(role) && ParseRole(role.value).None?))
    ensures r.Ok? ==>
      && r.body.email == NormaliseEmail(email.value)
      && r.body.name == Trim(name.value)
      && r.body.password == hash(password.value)
      && r.body.role == (if Given(role) then role.value else "reader")
      && r.body.acknowledgedArticles == []
      && ValidUser(r.body)
      && !EmailHeld(docs, r.body.email)
  {
    if !(Given(name) && Given(email) && Given(password)) then Err(MissingFields)
    else if EmailHeld(docs, NormaliseEmail(email.value)) then Err(DuplicateEmail)
    else
      var f := UserFields(email, name, Some(hash(password.value)),
                          Some(if Given(role) then role.value else "reader"), Some([]));
      assert f.email == email && f.name == name && f.password == Some(hash(password.value));
      assert f.role.GetOr("reader") == (if Given(role) then role.value else "reader");
      match NewUser(f)
      case Some(u) => Ok(u)
      case None => Err(ServerError)
  }

  /** The stored password is the hash of the one supplied, whatever the hash is. */
  lemma CreatedStoresHash(docs: seq<Doc<User>>, name: string, email: string, password: string,
                          hash: string -> string)
    requires Created(docs, Some(name), Some(email), Some(password), None, hash).Ok?
    ensures Created(docs, Some(name), Some(email), Some(password), None, hash).body.password == hash(password)
    ensures Created(docs, Some(name), Some(email), Some(password), None, hash).body.role == "reader"
  {
  }

  /** Any role other than the three names makes the save fail with 500. */
  lemma UnlistedRoleRefused(docs: seq<Doc<User>>, name: Option<string>, email: Option<string>,
                            password: Option<string>, role: string, hash: string -> string)
    requires Given(name) && Given(email) && Given(password)
    requires !EmailHeld(docs, NormaliseEmail(email.value))
    requires role != "" && ParseRole(role).None?
    ensures Created(docs, name, email, password, Some(role), hash) == Err(ServerError)
  {
    var f := UserFields(email, name, Some(hash(password.value)), Some(role), Some([]));
    assert NewUser(f).None?;
  }

  /** Appending a valid user with a new email keeps the collection's invariant. */
  lemma InsertKeepsUsersStored(docs: seq<Doc<User>>, d: Doc<User>)
    requires UsersStored(docs) && ValidUser(d.data) && d.data.acknowledgedArticles == []
    requires !EmailHeld(docs, d.data.email)
    ensures UsersStored(docs + [d])
  {
    var all := docs + [d];
    assert NoDuplicates(d.data.acknowledgedArticles);
    forall k | 0 <= k < |all| ensures UserStored(all[k].data) {
      if k < |docs| {
        assert all[k] == docs[k];
      } else {
        assert all[k] == d;
      }
    }
    forall i, j | 0 <= i < j < |all| ensures all[i].data.email != all[j].data.email {
      assert all[i] == docs[i];
      if j < |docs| {
        assert all[j] == docs[j];
      } else {
        assert all[j] == d;
      }
    }
  }

  method Post(users: Collection<User>, name: Option<string>, email: Option<string>,
              password: Option<string>, role: Option<string>, hash: string -> string, newId: Id)
    returns (r: Reply<UserView>)
    requires users.Valid() && UsersStored(users.docs) && Find(users.docs, newId).None?
    modifies users
    ensures users.Valid() && UsersStored(users.docs)
    ensures
      match Created(old(users.docs), name, email, password, role, hash)
      case Ok(u) => users.docs == old(users.docs) + [Doc(newId, u)] && r == Ok(ToJson(Doc(newId, u)))
      case Err(f) => users.docs == old(users.docs) && r == Err(f)
  {
    var created := Created(users.docs, name, email, password, role, hash);
    match created {
      case Ok(u) =>
        InsertKeepsUsersStored(users.docs, Doc(newId, u));
        users.Insert(Doc(newId, u));
        r := Ok(ToJson(Doc(newId, u)));
      case Err(f) =>
        r := Err(f);
    }
  }

  /** The update PUT writes: each truthy field only; password hashed. */
  datatype UserPatch = UserPatch(name: Option<string>, email: Option<string>, role: Option<string>, password: Option<string>)

  /** The update as stored, once the trim and lowercase setters have run. The
      role is not checked against the enumeration: update validators are off. */
  function PatchOf(name: Option<string>, email: Option<string>, role: Option<string>,
                   password: Option<string>, hash: string -> string): (p: UserPatch)
    ensures p.name == (if Given(name) then Some(Trim(name.value)) else None)
    ensures p.email == (if Given(email) then Some(NormaliseEmail(email.value)) else None)
    ensures p.role == (if Given(role) then role else None)
    ensures p.password == (if Given(password) then Some(hash(password.value)) else None)
  {
    UserPatch(if Given(name) then Some(Trim(name.value)) else None,
              if Given(email) then Some(NormaliseEmail(email.value)) else None,
              if Given(role) then role else None,
              if Given(password) then Some(hash(password.value)) else None)
  }

  /** Writing the update: the fields it names are overwritten; the acknowledged articles are kept. */
  function Apply(u: User, p: UserPatch): (r: User)
    ensures r.name == p.name.GetOr(u.name) && r.email == p.email.GetOr(u.email)
    ensures r.role == p.role.GetOr(u.role) && r.password == p.password.GetOr(u.password)
    ensures r.acknowledgedArticles == u.acknowledgedArticles
  {
    u.(name := p.name.GetOr(u.name), email := p.email.GetOr(u.email),
       role := p.role.GetOr(u.role), password := p.password.GetOr(u.password))
  }

  /** Whether another user than the one at position i already has this email. */
  predicate HeldByOther(docs: seq<Doc<User>>, i: nat, email: string) {
    exists k :: 0 <= k < |docs| && k != i && docs[k].data.email == email
  }

  /** PUT stores any role string: "owner" is written although the schema lists only three roles. */
  lemma UnlistedRoleStored(u: User, hash: string -> string)
    ensures Apply(u, PatchOf(None, None, Some("owner"), None, hash)).role == "owner"
    ensures ParseRole("owner").None?
  {
  }

  /** An update keeps a user's stored shape: the setters leave a normalised email and a trimmed name. */
  lemma PatchKeepsUserStored(u: User, name: Option<string>, email: Option<string>, role: Option<string>,
                             password: Option<string>, hash: string -> string)
    requires UserStored(u)
    ensures UserStored(Apply(u, PatchOf(name, email, role, password, hash)))
  {
    if Given(email) {
      NormaliseEmailIdempotent(email.value);
    }
  }

  /** Writing a stored-shape user whose email no other user holds keeps the collection's invariant. */
  lemma ReplaceKeepsUsersStored(docs: seq<Doc<User>>, i: nat, u: User)
    requires UsersStored(docs) && i < |docs| && UserStored(u) && !HeldByOther(docs, i, u.email)
    ensures UsersStored(docs[i := Doc(docs[i].id, u)])
  {
  }

  /** PUT does no duplicate check of its own: the unique index rejects an email
      held by another user with 500, after the lookup (unknown id: 404). */
  method Put(users: Collection<User>, id: Option<string>, name: Option<string>, email: Option<string>,
             password: Option<string>, role: Option<string>, hash: string -> string)
    returns (r: Reply<UserView>)
    requires users.Valid() && UsersStored(users.docs)
    modifies users
    ensures users.Valid() && UsersStored(users.docs)
    ensures !Given(id) ==> users.docs == old(users.docs) && r == Err(MissingFields)
    ensures Given(id) ==>
      var p := PatchOf(name, email, role, password, hash);
      match Find(old(users.docs), id.value)
      case None => users.docs == old(users.docs) && r == Err(NotFound(UserEntity))
      case Some(i) =>
        if p.email.Some? && HeldByOther(old(users.docs), i, p.email.value) then
          users.docs == old(users.docs) && r == Err(ServerError)
        else
          && users.docs == old(users.docs)[i := Doc(id.value, Apply(old(users.docs)[i].data, p))]
          && r == Ok(ToJson(users.docs[i]))
  {
    if !Given(id) {
      return Err(MissingFields);
    }
    var p := PatchOf(name, email, role, password, hash);
    var found := Find(users.docs, id.value);
    match found {
      case None =>
        r := Err(NotFound(UserEntity));
      case Some(i) =>
        if p.email.Some? && HeldByOther(users.docs, i, p.email.value) {
          r := Err(ServerError);
        } else {
          PatchKeepsUserStored(users.docs[i].data, name, email, role, password, hash);
          ReplaceKeepsUsersStored(users.docs, i, Apply(users.docs[i].data, p));
          users.Replace(i, Apply(users.docs[i].data, p));
          r := Ok(ToJson(users.docs[i]));
        }
    }
  }

  /** Removing one user keeps every other user, so the stored invariant and the unique emails hold still. */
  lemma RemoveKeepsUsersStored(docs: seq<Doc<User>>, i: nat)
    requires UsersStored(docs) && i < |docs|
    ensures UsersStored(RemoveAt(docs, i))
  {
    var r := RemoveAt(docs, i);
    RemoveAtIndex(docs, i);
    forall a, b | 0 <= a < b < |r| ensures r[a].data.email != r[b].data.email {
      assert r[a] == docs[if a < i then a else a + 1];
      assert r[b] == docs[if b < i then b else b + 1];
    }
  }

  /** DELETE removes the user record alone; the articles' acknowledged lists
      are not touched (the handler has no access to them). */
  method Delete(users: Collection<User>, id: Option<string>) returns (r: Reply<Id>)
    requires users.Valid() && UsersStored(users.docs)
    modifies users
    ensures users.Valid() && UsersStored(users.docs)
    ensures !Given(id) ==> users.docs == old(users.docs) && r == Err(MissingFields)
    ensures Given(id) ==>
      match Find(old(users.docs), id.value)
      case Some(i) => users.docs == RemoveAt(old(users.docs), i) && r == Ok(id.value)
      case None => users.docs == old(users.docs) && r == Err(NotFound(UserEntity))
  {
    if !Given(id) {
      return Err(MissingFields);
    }
    var found := Find(users.docs, id.value);
    match found {
      case Some(i) =>
        RemoveKeepsUsersStored(users.docs, i);
        users.Remove(i);
        r := Ok(id.value);
      case None =>
        r := Err(NotFound(UserEntity));
    }
  }
}
