/** `/api/auth`: POST checks credentials, GET lists up to ten users. Neither
    handler writes to the store. */
module AuthRoute {
  import opened Js
  import opened Store
  import opened Http
  import opened UserModel
  import UsersRoute

  /** `findOne({ email })` on the normalised email: the first user holding it, in collection order. */
  function FindByEmail(docs: seq<Doc<User>>, email: string): (r: Option<nat>)
    ensures r.Some? ==> r.value < |docs| && docs[r.value].data.email == email
    ensures r.Some? ==> forall k :: 0 <= k < r.value ==> docs[k].data.email != email
    ensures r.None? <==> forall k :: 0 <= k < |docs| ==> docs[k].data.email != email
  {
    if docs == [] then None
    else if docs[0].data.email == email then Some(0)
    else match FindByEmail(docs[1..], email)
      case None => None
      case Some(k) => Some(k + 1)
  }

  datatype LoginBody = LoginBody(user: UserView, message: string)

  const LoginMessage: string := "Вход выполнен успешно"

  /** POST: 400 without both fields; 401, the same for an unknown email and for
      a wrong password; otherwise the user without its password. The supplied
      password is compared, exactly, with the stored one. */
  function Login(docs: seq<Doc<User>>, email: Option<string>, password: Option<string>): (r: Reply<LoginBody>)
    ensures r.Ok? || r == Err(MissingFields) || r == Err(InvalidCredentials)
    ensures r == Err(MissingFields) <==> !(Given(email) && Given(password))
    ensures r.Ok? ==> exists k :: 0 <= k < |docs| && r.body.user == ToJson(docs[k])
                                  && docs[k].data.email == NormaliseEmail(email.value)
                                  && docs[k].data.password == password.value
  {
    if !(Given(email) && Given(password)) then Err(MissingFields)
    else match FindByEmail(docs, NormaliseEmail(email.value))
      case None => Err(InvalidCredentials)
      case Some(i) =>
        if docs[i].data.password != password.value then Err(InvalidCredentials)
        else Ok(LoginBody(ToJson(docs[i]), LoginMessage))
  }

  /** Under the unique email index, login succeeds exactly when some user
      holds the normalised email and has exactly the supplied password. */
  lemma LoginSucceedsIff(docs: seq<Doc<User>>, email: string, password: string)
    requires EmailsDistinct(docs)
    requires email != "" && password != ""
    ensures Login(docs, Some(email), Some(password)).Ok? <==>
      exists k :: 0 <= k < |docs| && docs[k].data.email == NormaliseEmail(email) && docs[k].data.password == password
  {
    var e := NormaliseEmail(email);
    if k :| 0 <= k < |docs| && docs[k].data.email == e && docs[k].data.password == password {
      var i := FindByEmail(docs, e).value;
      assert docs[i].data.email == docs[k].data.email;
    }
  }

  /** The duplicate check of POST /api/users and login's lookup agree: an email
      is held exactly when `findOne` finds a user with it. */
  lemma EmailHeldIffFound(docs: seq<Doc<User>>, email: string)
    ensures UsersRoute.EmailHeld(docs, email) <==> FindByEmail(docs, email).Some?
  {
  }

  /** A user appended with an email nobody else holds is the one `findOne` finds. */
  lemma FindByEmailAppended(docs: seq<Doc<User>>, d: Doc<User>, email: string)
    requires forall k :: 0 <= k < |docs| ==> docs[k].data.email != email
    requires d.data.email == email
    ensures FindByEmail(docs + [d], email) == Some(|docs|)
  {
    var all := docs + [d];
    assert forall k :: 0 <= k < |docs| ==> all[k] == docs[k];
    assert all[|docs|] == d;
  }

  /** A user created by POST /api/users stores the hash of its password, but
      login compares the raw password: it succeeds only if the hash leaves
      that password unchanged. */
  lemma NewUserLogin(docs: seq<Doc<User>>, name: string, email: string, password: string,
                     role: Option<string>, hash: string -> string, newId: Id)
    requires UsersRoute.Created(docs, Some(name), Some(email), Some(password), role, hash).Ok?
    ensures
      var u := UsersRoute.Created(docs, Some(name), Some(email), Some(password), role, hash).body;
      Login(docs + [Doc(newId, u)], Some(email), Some(password)).Ok? <==> hash(password) == password
  {
    var u := UsersRoute.Created(docs, Some(name), Some(email), Some(password), role, hash).body;
    var e := NormaliseEmail(email);
    assert u.email == e && u.password == hash(password);
    assert !UsersRoute.EmailHeld(docs, e);
    FindByEmailAppended(docs, Doc(newId, u), e);
  }

  /** The listing of GET: the first ten users, in collection order. */
  const ListLimit: nat := 10

  function ListUsers(docs: seq<Doc<User>>): (r: seq<UserView>)
    ensures |r| <= ListLimit
    ensures |r| == if |docs| < ListLimit then |docs| else ListLimit
    ensures forall k :: 0 <= k < |r| ==> r[k] == ToJson(docs[k])
  {
    ToJsonAll(if |docs| < ListLimit then docs else docs[..ListLimit])
  }
}
