# Knowledge base: a Dafny model of its domain logic

The system is a small knowledge base for a company. Articles are filed under
sections, users acknowledge that they have read an article, and an admin area
offers statistics and a debug join. Persistence goes through Mongoose over
MongoDB, and every HTTP route handler follows a small rule set over three
flat collections: articles, sections and users.

This project models those rule sets:

- **The three schemas** (`ArticleModel`, `SectionModel`, `UserModel`): their
  required paths, trim and lowercase setters, defaults, the role enumeration
  and the `toJSON` transform that drops the password.
- **The route handlers**, one module per route file:
  - `ArticlesRoute`, `SectionsRoute` and `UsersRoute` hold GET, POST, PUT and
    DELETE.
  - `AcknowledgeRoute` holds the two-sided acknowledgement.
  - `AuthRoute` holds login and the limited user listing.
  - `StatisticsRoute` computes the counts and the top three articles.
  - `DebugRoute` holds the join of articles to sections by priority.

Supporting modules:

- `Js` holds the JavaScript semantics the handlers depend on:
  - truthiness of body fields;
  - `trim` and `toLowerCase`;
  - `String(v)` and `parseInt`;
  - Mongoose's cast of a value to a Number path.
- `Store` holds the collections. `Store.Collection<T>` is a class whose
  `docs` field is the sequence of documents in natural order, each with a
  distinct id. Its methods `Insert`, `Replace` and `Remove` stand for
  `save`, `findByIdAndUpdate` and `findByIdAndDelete`.
- `Http` holds the replies, each with its status code.
- `Sorting` implements `sort` on one numeric path in BSON order, where null
  comes first.

Handlers that change the store are methods on the collections they touch.
Each `modifies` clause names those collections and no others. Each method
states the whole new state as a function of the old one, and keeps the
route's stored invariant. The invariants are trimmed titles and names,
normalised emails, unique emails, and acknowledgement lists without
duplicates. Handlers that only read are functions. The debug route's two
`forEach` loops are imperative methods proved against the spec functions
`SectionKeys`, `LastWith`, `Filed` and `Orphans`.

Behaviour taken from Mongoose, as the source relies on it:

- Setters (trim, lowercase) run when a document is created, on query
  filters and on updates.
- Update validators are off. So a PUT may store a blank title or name, or a
  role outside the enumeration, and lemmas show each of these.
- A failed cast or validation is a thrown error. Every handler reports it
  as 500.
- The unique index on the user email makes a PUT that reuses another
  user's email fail with 500.
- A NaN section fails the cast of the query filter, of the new document and
  of the update alike.

Two points where the code's behaviour deserves notice:

- Login compares the supplied password with the stored one exactly,
  although `POST /api/users` stores a hash (`app/api/auth/route.ts:33-35`,
  `app/api/users/route.ts:72-79`). `AuthRoute.NewUserLogin` proves the
  consequence: a user created by that route logs in with password p only if
  the hash leaves p unchanged.
- `viewCount` is not a declared schema path, but the article and statistics
  routes use it. It is modelled as a natural number that starts at 0 and
  that `$inc` raises.

## Model

| member | source | states |
|---|---|---|
| Js.Trim | lib/models/article.ts:19-23 | the `trim` setter: the result has no leading or trailing whitespace, and a string without any is unchanged |
| Js.TrimSlice | lib/models/article.ts:19-23 | the trimmed string is the slice from the end of the leading whitespace to the start of the trailing whitespace |
| Js.TrimIdempotent | lib/models/article.ts:21-22 | trimming a stored title again changes nothing |
| Js.ToLowerIdempotent | lib/models/user.ts:26 | lowercasing is idempotent |
| Js.ToLower | lib/models/user.ts:26 | the `lowercase` setter: same length, each character mapped on its own |
| Js.ToLowerSlice | lib/models/user.ts:26 | lowercasing a slice is slicing the lowercased string |
| Js.TrimBoundsOfLower | lib/models/user.ts:25-26 | lowercasing moves neither end of the trimmed part |
| Js.TrimLowerCommute | lib/models/user.ts:25-26 | the trim and lowercase setters can run in either order |
| Js.ParseIntDecimal | app/api/articles/route.ts:90 | `parseInt(String(n))` is n for every integer n |
| Js.ParseInt | app/api/articles/route.ts:90 | `parseInt` after the leading whitespace: nothing left is NaN; a digit that starts no hex prefix gives a non-negative integer; any other first character than a digit or sign is NaN; only a leading minus gives a negative result |
| Js.DecimalStringShape | app/api/articles/route.ts:90 | `String(n)` is a minus sign exactly for negative n, followed by the digits of the magnitude |
| Js.ParseIntOfWord | app/api/articles/route.ts:90 | `parseInt` of a word starting with a lower-case letter, such as "true" or "null", is NaN |
| Js.ParseIntOf | app/api/articles/route.ts:90 | `parseInt(v)` through `String(v)`: a string is parsed, a JSON number is kept, and true, false, null and a missing field give NaN |
| Js.CastDecimalString | lib/models/section.ts:21-24 | a decimal string cast to a Number path gives its value |
| Js.StringToNumber | lib/models/section.ts:21-24 | the `Number` conversion of a string on the priority path: blank is 0; NaN exactly when the trimmed string, after an optional sign, is not a non-empty run of digits; a negative result needs a leading minus |
| Js.CastNumber | lib/models/section.ts:21-24 | Mongoose's cast to a Number path: only a string can fail, exactly when its `Number` is NaN; undefined, null and the empty string become null; a number is kept |
| Js.StringToNumberDecimal | lib/models/section.ts:21-24 | the Number cast of `String(n)` is n |
| Store.Find | app/api/sections/route.ts:26 | `findById`: returns the position of the first document with that id; None exactly when no document has it |
| Store.FindUnique | app/api/sections/route.ts:26 | with distinct ids, the document found is the only one with that id |
| Store.FindAfterReplace | app/api/articles/route.ts:128-136 | replacing a document's data changes no lookup afterwards |
| Store.RemoveAtFacts | app/api/articles/route.ts:174 | `findByIdAndDelete` shortens the collection by one, removes that id, keeps every other document, and keeps ids distinct |
| Store.AddToSet | app/api/articles/acknowledge/route.ts:49-52 | `$addToSet`: x is in the result; everything else in it was already in the list; a list without duplicates stays so; the old list is a prefix of the new one |
| Store.AddToSetIdempotent | app/api/articles/acknowledge/route.ts:49-52 | adding the same id twice is adding it once |
| Store.Collection.Insert | app/api/articles/route.ts:96 | `save()` of a new id appends exactly that document, keeping ids distinct |
| Store.Collection.Replace | app/api/articles/route.ts:128-136 | updates the data at one position and nothing else; the id is kept |
| Store.Collection.Remove | app/api/articles/route.ts:174 | removes exactly the document at one position |
| Http.Reply.Status | app/api/auth/route.ts:24-56 | a reply is 200 exactly when it succeeds; a failure is 400, 401, 404 or 500 |
| ArticleModel.NewArticle | lib/models/article.ts:17-48 | an article is accepted iff its trimmed title, content and author are non-empty and its section is a number; it is then trimmed, valid, dated today unless a date is given, acknowledged by nobody unless a list is given, and not yet viewed |
| ArticleModel.RequiredPaths | lib/models/article.ts:19-39 | without title, content, author or section no article is created |
| ArticleModel.BlankTitleRefused | lib/models/article.ts:19-23 | a title made only of whitespace trims to "" and fails `required` |
| ArticleModel.DefaultsOnCreate | lib/models/article.ts:32-43 | the defaults for `date` and `acknowledged` are today and [] |
| SectionModel.NewSection | lib/models/section.ts:16-28 | a section is accepted iff its trimmed name is non-empty; priority defaults to 0 and parent to null |
| SectionModel.AnyParentAccepted | lib/models/section.ts:25-28 | whether a section is accepted does not depend on its parent: no existence check |
| SectionModel.SectionDefaults | lib/models/section.ts:21-28 | with no priority and no parent given, a section gets priority 0 and parent null |
| UserModel.ParseRole | lib/models/user.ts:39-44 | the `enum` validator accepts exactly the three role names |
| UserModel.RoleRoundTrip | lib/models/user.ts:4 | each role name is accepted as that role |
| UserModel.NormaliseEmail | lib/models/user.ts:21-27 | the `trim` and `lowercase` setters: the stored email is trimmed and already lower case, and character by character it is the lower case of the trimmed input |
| UserModel.NormaliseEmailIdempotent | lib/models/user.ts:25-26 | normalising an email again changes nothing |
| UserModel.NewUser | lib/models/user.ts:19-55 | a user is accepted iff email, name and password are set and non-empty after the setters and the role is one of the three; then the email is normalised, the name trimmed, the role defaults to reader and the list to [] |
| UserModel.RoleIsEnumerated | lib/models/user.ts:39-44 | every user the schema accepts has one of the three roles |
| UserModel.UserDefaults | lib/models/user.ts:45-50 | without role or list, a user is a reader who has acknowledged nothing |
| UserModel.ToJson | lib/models/user.ts:58-63 | `toJSON` keeps id, email, name, role and acknowledged articles |
| UserModel.ToJsonHidesPassword | lib/models/user.ts:58-63 | the JSON of a user does not depend on its password |
| UserModel.ToJsonAll | lib/models/user.ts:58-63 | a list of users is serialised user by user, in order |
| Sorting.Insert | app/api/sections/route.ts:35 | inserting into a sorted list keeps it sorted and adds exactly that element |
| Sorting.ConsSorted | app/api/sections/route.ts:35 | an element in order with every element of a sorted list can go in front of it |
| Sorting.InsertBound | app/api/sections/route.ts:35 | an element in order with a list and with the inserted one is in order with the list after the insertion |
| Sorting.SortBy | app/api/sections/route.ts:35 | `sort` returns a permutation of its input in the requested order |
| ArticlesRoute.InSection | app/api/articles/route.ts:42 | `find({ section: n })` holds exactly the articles of section n |
| ArticlesRoute.List | app/api/articles/route.ts:40-49 | GET without an id: every article without `section`; with it, 500 iff `parseInt` gives NaN, otherwise exactly the articles of that section |
| ArticlesRoute.ListBySection | app/api/articles/route.ts:40-45 | GET with `section=s` returns exactly the articles whose section is `parseInt(s)` |
| ArticlesRoute.Get | app/api/articles/route.ts:21-59 | with an id: a found article's view count rises by exactly 1 and nothing else changes; an unknown id gives 404 and no change. The id takes precedence over `section`; without an id nothing changes |
| ArticlesRoute.Created | app/api/articles/route.ts:79-96 | 400 iff title, content or section is falsy; 500 iff the trimmed title is blank or the section is NaN; otherwise the article has the given fields, the default author, `parseInt(section)`, today's date, no acknowledgements and no views |
| ArticlesRoute.ZeroSectionRefused | app/api/articles/route.ts:79-84 | a numeric section 0 is falsy and refused with 400 |
| ArticlesRoute.StringZeroSectionAccepted | app/api/articles/route.ts:79-90 | the string "0" is truthy and files the article under section 0 |
| ArticlesRoute.Post | app/api/articles/route.ts:69-101 | a success appends exactly one article; every failure leaves the collection unchanged |
| ArticlesRoute.PatchOf | app/api/articles/route.ts:128-136 | the update holds exactly the truthy fields: the title trimmed, the section `parseInt`ed; a NaN section is a cast error |
| ArticlesRoute.Apply | app/api/articles/route.ts:128-136 | an update overwrites the fields it names and keeps author, date, acknowledgements and view count |
| ArticlesRoute.FalsyFieldsIgnored | app/api/articles/route.ts:130-134 | a PUT with only falsy fields, section 0 included, leaves the article as it was |
| ArticlesRoute.BlankTitleStored | app/api/articles/route.ts:131 | PUT stores a blank title, because update validators are off |
| ArticlesRoute.Put | app/api/articles/route.ts:111-155 | without an id: 400 and no change; a cast error: 500 and no change; an unknown id: 404 and no change; otherwise only that article changes, as `Apply` says |
| ArticlesRoute.Delete | app/api/articles/route.ts:157-188 | without an id: 400; an unknown id: 404 and no change; otherwise exactly that article is removed and the id echoed |
| SectionsRoute.Get | app/api/sections/route.ts:17-36 | the section with the id, or 404; without an id, all sections in ascending priority order, as a permutation of the collection |
| SectionsRoute.PostPriority | app/api/sections/route.ts:64 | priority-or-0: a falsy priority is 0, otherwise its cast, and a failed cast is an error |
| SectionsRoute.ParentOf | app/api/sections/route.ts:65 | the cast to the ObjectId path: undefined and null are null, a string is the id, a number or boolean is a cast error |
| SectionsRoute.Created | app/api/sections/route.ts:54-69 | 400 iff the name is falsy; 500 iff the trimmed name is blank, the priority fails its cast or a truthy parent is not an id; otherwise the name is trimmed, the priority is the given one or 0 and the parent is set only when truthy |
| SectionsRoute.FalsyPriorityIsZero | app/api/sections/route.ts:64 | a falsy priority (0, "", null, absent) is stored as 0 |
| SectionsRoute.Post | app/api/sections/route.ts:46-72 | a success appends exactly one section; a failure changes nothing |
| SectionsRoute.PatchOf | app/api/sections/route.ts:97-105 | the name only when truthy; priority and parent whenever they are not undefined, so 0 and null are written |
| SectionsRoute.Apply | app/api/sections/route.ts:97-105 | an update overwrites exactly the fields it names |
| SectionsRoute.ZeroPriorityApplied | app/api/sections/route.ts:101 | PUT applies a priority of 0 |
| SectionsRoute.NullPriorityApplied | app/api/sections/route.ts:101 | PUT applies a null priority |
| SectionsRoute.Put | app/api/sections/route.ts:82-114 | without an id: 400; a cast error: 500; an unknown id: 404 and no change; otherwise only that section changes |
| SectionsRoute.Delete | app/api/sections/route.ts:124-151 | only the sections change: exactly the section with that id is removed, and no article is touched |
| UsersRoute.Get | app/api/users/route.ts:18-37 | the user with the id, or 404; otherwise every user; all without the password |
| UsersRoute.EmailHeld | app/api/users/route.ts:63-69 | the duplicate check `findOne({ email })`: some user holds that normalised email |
| UsersRoute.Created | app/api/users/route.ts:54-85 | 400 iff name, email or password is falsy; then 400 iff a user already holds the normalised email; then 500 iff the normalised email, the trimmed name or the hash is blank or a given role is not one of the three; otherwise the stored password is the hash, the role defaults to reader, the list is [], and the email is new |
| UsersRoute.CreatedStoresHash | app/api/users/route.ts:72-82 | a new user stores `Hash(password)` and, without a role, is a reader |
| UsersRoute.UnlistedRoleRefused | app/api/users/route.ts:76-85 | POST with any non-empty role outside the enumeration, on an otherwise acceptable request, fails on save with 500 |
| UsersRoute.InsertKeepsUsersStored | app/api/users/route.ts:62-85 | appending a valid user with no acknowledged articles, whose email nobody holds, keeps every user stored and the emails distinct |
| UsersRoute.Post | app/api/users/route.ts:47-98 | a success appends exactly one user and replies without the password; a failure changes nothing; emails stay unique |
| UsersRoute.PatchOf | app/api/users/route.ts:123-134 | the update holds exactly the truthy fields: the name trimmed, the email normalised, the role as written, the password hashed |
| UsersRoute.Apply | app/api/users/route.ts:137-141 | an update overwrites the fields it names and keeps the acknowledged articles |
| UsersRoute.UnlistedRoleStored | app/api/users/route.ts:127 | PUT stores a role outside the enumeration |
| UsersRoute.PatchKeepsUserStored | app/api/users/route.ts:123-141 | applying a PUT update to a stored user keeps it stored: email normalised, name trimmed, no duplicate in its list |
| UsersRoute.ReplaceKeepsUsersStored | app/api/users/route.ts:137-141 | replacing one user by a stored user whose email no other user holds keeps the collection stored with distinct emails |
| UsersRoute.HeldByOther | app/api/users/route.ts:137-141 | the unique email index on update: a user other than the one updated holds the email |
| UsersRoute.Put | app/api/users/route.ts:108-158 | without an id: 400; an unknown id: 404; an email held by another user: 500 from the unique index; otherwise only that user changes; no reply carries the password |
| UsersRoute.RemoveKeepsUsersStored | app/api/users/route.ts:175 | removing a user keeps the stored shape and the unique emails |
| UsersRoute.Delete | app/api/users/route.ts:160-187 | without an id: 400; an unknown id: 404; otherwise exactly that user is removed and no article is touched |
| AcknowledgeRoute.MarkAcknowledged | app/api/articles/acknowledge/route.ts:48-53 | the user id joins the article's list and no other field changes |
| AcknowledgeRoute.MarkRead | app/api/articles/acknowledge/route.ts:55-61 | the article id joins the user's list and no other field changes |
| AcknowledgeRoute.Acknowledgement | app/api/articles/acknowledge/route.ts:18-66 | the handler on values: both collections keep their length; a failure changes neither; it succeeds iff both ids are given and both documents exist |
| AcknowledgeRoute.FailureChangesNothing | app/api/articles/acknowledge/route.ts:26-45 | a missing id gives 400; a missing article gives 404 before the user is checked; no failure changes anything |
| AcknowledgeRoute.SuccessMarksBoth | app/api/articles/acknowledge/route.ts:47-61 | after success, each of the two documents names the other; every other document and field is unchanged |
| AcknowledgeRoute.MarkKeepsArticlesStored | app/api/articles/acknowledge/route.ts:48-53 | marking one article keeps every article in its stored shape |
| AcknowledgeRoute.MarkKeepsUsersStored | app/api/articles/acknowledge/route.ts:55-61 | marking one user keeps every user stored and the emails distinct |
| AcknowledgeRoute.AddAcknowledged | app/api/articles/acknowledge/route.ts:48-53 | the update guarded by `includes` leaves the same collection as an unconditional `$addToSet` on that article |
| AcknowledgeRoute.AddRead | app/api/articles/acknowledge/route.ts:55-61 | the guarded update of the user leaves the same collection as an unconditional `$addToSet` on that user |
| AcknowledgeRoute.AcknowledgementKeepsStored | app/api/articles/acknowledge/route.ts:47-61 | neither list ever gets a duplicate; the stored invariants of both collections hold |
| AcknowledgeRoute.AcknowledgementIdempotent | app/api/articles/acknowledge/route.ts:47-61 | acknowledging twice leaves the same state and reply as once |
| AcknowledgeRoute.Acknowledge | app/api/articles/acknowledge/route.ts:18-66 | the handler, through `AddAcknowledged` and `AddRead`, leaves exactly the reply and state of `Acknowledgement`, and keeps both stored invariants |
| AuthRoute.FindByEmail | app/api/auth/route.ts:33 | `findOne({ email })`: the first user with that email, or None exactly when there is none |
| AuthRoute.Login | app/api/auth/route.ts:17-49 | 400 iff email or password is falsy; one 401 for an unknown email and for a wrong password; a success returns a user with that email and exactly that password, without the password |
| AuthRoute.LoginSucceedsIff | app/api/auth/route.ts:33-40 | with unique emails, login succeeds iff some user has the normalised email and exactly the supplied password |
| AuthRoute.EmailHeldIffFound | app/api/auth/route.ts:33 | POST /api/users' duplicate check and login's `findOne` agree on whether an email is held |
| AuthRoute.FindByEmailAppended | app/api/auth/route.ts:33 | a user appended with an email no earlier user holds is the one `findOne` finds |
| AuthRoute.NewUserLogin | app/api/auth/route.ts:35 | a user created by POST /api/users logs in with p iff the hash of p is p |
| AuthRoute.ListUsers | app/api/auth/route.ts:64 | at most ten users: the first min(10, n), without passwords |
| StatisticsRoute.TopDocs | app/api/statistics/route.ts:31-34 | min(3, n) articles in non-increasing view order; they are a sub-multiset of the collection, and no article outside them has more views than any kept |
| StatisticsRoute.SortedCut | app/api/statistics/route.ts:32-33 | cutting a list sorted by descending views keeps the front in order, splits the list in two parts, and leaves nothing behind the cut that outranks the front |
| StatisticsRoute.ProjectAll | app/api/statistics/route.ts:34 | `.select` projects every article, in order, to its id, title and view count |
| StatisticsRoute.ProjectedSubset | app/api/statistics/route.ts:34 | the projection of articles taken from the collection is taken from the projected collection |
| StatisticsRoute.ProjectedOrder | app/api/statistics/route.ts:34 | projecting keeps the order of view counts |
| StatisticsRoute.TopDocsListed | app/api/statistics/route.ts:31-34 | the projected top articles are min(3, n) entries in non-increasing view order, each the projection of an article of the collection |
| StatisticsRoute.TopDocsFromCollection | app/api/statistics/route.ts:31-34 | every top article is from the collection |
| StatisticsRoute.Statistics | app/api/statistics/route.ts:19-45 | the counts are the collection sizes; `TopListOf`: the top list is min(3, n) entries in non-increasing view order, each the projection of an article of the collection |
| StatisticsRoute.LeftOutNotMoreViewed | app/api/statistics/route.ts:31-34 | every article left out has at most the views of the least-viewed one kept, and n − 3 are left out |
| DebugRoute.SectionKeys | app/api/debug/route.ts:23-32 | the map's keys in first-insertion order: distinct, at most one per section |
| DebugRoute.SectionKeysMembers | app/api/debug/route.ts:23-32 | one key per priority that some section has, and no other |
| DebugRoute.LastWith | app/api/debug/route.ts:25-31 | the entry for a key is built from a section with that priority |
| DebugRoute.LastWithIsLast | app/api/debug/route.ts:25-31 | a later section with the same priority replaces the entry; there is an entry iff some section has that priority |
| DebugRoute.MapOneMore | app/api/debug/route.ts:24-32 | `Map.set` of one more section: a new key at the end unless it is there already; the entry now comes from that section |
| DebugRoute.SectionMapStep | app/api/debug/route.ts:24-32 | one more `Map.set` keeps the map the keys of the sections seen so far, each with an empty entry from the last section with that key |
| DebugRoute.Filed | app/api/debug/route.ts:35-49 | a key's list holds every article whose section is that key, and only those |
| DebugRoute.Orphans | app/api/debug/route.ts:62-67 | the orphans are exactly the articles whose section is no key |
| DebugRoute.MapSections | app/api/debug/route.ts:23-32 | the first `forEach` builds the keys `SectionKeys` and, for each, an empty entry from the last section with it |
| DebugRoute.FileArticles | app/api/debug/route.ts:35-49 | the second `forEach` pushes each article, in input order, onto exactly its key's entry |
| DebugRoute.Values | app/api/debug/route.ts:52 | `Array.from(values())` lists the entries in key order |
| DebugRoute.Debug | app/api/debug/route.ts:58-67 | the counts are the input sizes; one entry per key with its articles; the orphans |
| DebugRoute.FiledCountStep | app/api/debug/route.ts:35-49 | with distinct keys, an article is counted under the keys once or not at all |
| DebugRoute.Partition | app/api/debug/route.ts:35-67 | over distinct keys, the section lists and the orphans together hold one entry per article |
| DebugRoute.ReportPartition | app/api/debug/route.ts:52-67 | the report's lists and orphans hold one entry per article, and there are no more entries than sections |
| DebugRoute.ArticlePlaced | app/api/debug/route.ts:35-67 | each article is in its own section's list and in no other, or only in the orphans |
| DebugRoute.DeletedSectionOrphans | app/api/debug/route.ts:62-67 | deleting the only section with a priority turns the articles filed under it into orphans |

## Left out

- Database connection, the connection state and the health and cache-reset routes are I/O. They are not modelled.
- The timestamps `createdAt` and `updatedAt`, and the debug report's `status`, `timestamp` and `mongodbStatus`, are clock and connection state. They are left out.
- The article date is a parameter (`today`), because `toLocaleDateString` reads the clock.
- bcrypt is a function parameter `hash` that stands for hashing with the salt of that call. Nothing is assumed about it.
- ObjectId casting is not modelled. Ids are opaque strings, so a malformed id is simply an unknown id (404), not a cast error (500).
- `SectionsRoute.ParentOf`: a section's `parentId` is either null or a string id, since ObjectId casting is not modelled. POST sets it only when truthy, so a truthy number or boolean there is a cast error (500). PUT writes it whenever it is not undefined, so any number or boolean there, 0 and false included, is a cast error (500).
- Text fields of a request body are strings or absent. A number or an object sent for a text field is not modelled.
- `Js.Json` has no arrays and no objects, so a request field holding either is not modelled.
- `Js.ParseIntDecimal`: numbers are unbounded integers. JavaScript numbers are doubles, exact as integers only up to 2^53, and `String(n)` switches to exponent notation from 1e21; the lemma holds of JavaScript only within that range.
- JSON numbers are integers. Floating point, `Number("1e3")`, hexadecimal and other non-decimal strings on a Number path are out of scope: `Js.StringToNumber` accepts only integer literals and calls all others a cast error.
- `UserModel.NormaliseEmail`: `Js.ToLower` and `Js.LowerChar` map only A–Z and U+0400–U+042F to lower case. Other capitals that JavaScript lowercases, such as Ґ (U+0490) or Ѣ (U+0462), are left unchanged.
- The search route (a regular expression built from the query) belongs to the database's regex engine. It is not modelled.
- `actionsCount` in the statistics reply is random and fictitious. It is not modelled.
- The order of the acknowledgement reads (`Promise.all`) and the two writes, which are not atomic, are concurrency concerns. The handler is modelled as sequential steps.
- Mongoose's strict mode is not relied on: `viewCount` is stored and raised as the routes use it.
- Ties in `sort` are not modelled: `SectionsRoute.Get` and `StatisticsRoute.TopDocs` promise only sortedness and a permutation (or, for the top three, a sub-multiset of the collection that no article outside it outranks), not which of equal-key documents comes first.
- Logging is not modelled.
