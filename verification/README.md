# simple-express-jwt: the authentication and authorisation core in Dafny

A model of a small Express service that keeps user accounts in MongoDB and
guards its routes with JSON Web Tokens. It covers four parts:

- **The user handlers** (`controller/userController.js`). The user table is a
  map from id to record held by a `UserStore` object, which keeps the schema
  and the unique index as its invariant. Register, profile update and account
  deletion write the table, so they are methods of the store. Login, refresh,
  profile read, the admin list and admin detail only read it, so they are
  functions of the table.
- **The token helpers and middleware** (`utils/token.js`).
  - `createSuccessTokenRespond` and `getPayload` build the token response.
  - `verifyToken(permission)` and `verifyRefreshToken` are modelled twice. A
    pure decision (`AccessGate`, `RefreshGate`) says what should happen, and a
    method on the request object does it. The method answers the request, or
    it sets the decoded claims and calls `next` once.
- **The record schema** (`models/user.js`). It becomes a well-formedness
  predicate on one record and on the whole table: the username is lower-case
  and alphanumeric, usernames are unique, the name is required, and the role
  is in the enum.
- **The route table** (`routes/api.js`), mounted under `/api`. It is a
  constant list of verb, path, middleware and handler. A per-handler access
  policy is stated separately, and the table is proved to follow it. `Serve`
  puts dispatch, middleware and handler together for one request.

The libraries are replaced by small symbolic models:

- **bcrypt.** A digest is the term `Bcrypt(cost, salt, secret)`. Like
  bcrypt, `Compare` looks only at the first 72 characters of a secret: it
  accepts an attempt exactly when those agree with the hashed secret's.
- **jsonwebtoken.** A token is either a term signed with a key or arbitrary
  text. `Verify` succeeds exactly for a signed term, under its own key,
  strictly before `exp = iat + lifetime`.
- **express-validator.**
  - `isJWT` is modelled as the three-segment base64url shape.
  - `isStrongPassword({ minSymbols: 0 })` uses the library's other defaults: a
    length of at least 8, one lower-case letter, one upper-case letter and one
    digit. The length is counted as JavaScript counts it, in UTF-16 code
    units, so a character outside the Basic Multilingual Plane counts twice.
  - `escape()` is the library's eight-entity HTML escape.
  - `toLowerCase()` is an ASCII case fold.
- **mongoose.** The schema's `lowercase` setter also runs on query filters, so
  every lookup by username lower-cases the name it is given.

Outside inputs are parameters:

- the clock (seconds since the epoch);
- the bcrypt salt;
- the two signing secrets (environment variables in the source).

Where the code and its description differ, the model follows the code:

- Login answers 401 "could not find user" for an unknown username.
- The admin list rows keep `_id`: `select("username name role")` does not drop
  it.
- Profile read answers 200 with a null user once the record is gone.

Files:

- `text.dfy`: `Wrappers`, `Text`
- `schema.dfy`: `Password`, `Schema`
- `jwt.dfy`: `Jwt`
- `validators.dfy`: `Validators`
- `http.dfy`: `Http`
- `token.dfy`: `Token`
- `controller.dfy`: `Controller`
- `routes.dfy`: `Routes`

## Model

| member | source | states |
|---|---|---|
| Schema.ApplySetters | models/user.js:6-8 | the `lowercase` setter stores the fold of the given username (so a lower-case one), touches no other field, and leaves a well-formed record as it is |
| Schema.InsertKeepsWellFormed | models/user.js:4-32 | adding a schema-valid record under a fresh id with a free username keeps the table well formed (unique usernames included) |
| Schema.RenameKeepsWellFormed | models/user.js:6-18 | renaming a record to a well-formed username no other record holds keeps the table well formed |
| Schema.RemoveKeepsWellFormed | models/user.js:4-32 | removing a record keeps the table well formed |
| Schema.UpperCaseNeverStored | models/user.js:8 | in a well-formed table no record holds a username with an upper-case letter |
| Password.Hash | controller/userController.js:64 | the digest made with cost 10 accepts the plaintext it was made from |
| Password.Significant | controller/userController.js:22 | the part of a secret bcrypt looks at: a prefix of at most 72 characters, the whole secret when it is no longer, exactly 72 characters otherwise |
| Password.CompareHashIff | controller/userController.js:22 | a digest accepts an attempt if and only if the first 72 characters of the attempt and of the hashed secret agree; for secrets of at most 72 characters, if and only if the attempt is the hashed secret |
| Password.LongSecretsCollide | controller/userController.js:22 | two secrets of 72 characters or more that share their first 72 characters are accepted by each other's digests |
| Password.SaltsSeparateHashes | controller/userController.js:64 | two hashes of one secret under different salts differ |
| Text.LowerChar | controller/userController.js:9 | a capital letter becomes its own small letter; every other character is unchanged; so the result is never upper case and is alphanumeric exactly when the input is |
| Text.ToLowerAt | controller/userController.js:9 | the fold keeps the length and folds each character in place |
| Text.ToLowerLength | controller/userController.js:9 | the fold keeps the length |
| Text.ToLowerProperties | controller/userController.js:42-43 | the fold keeps the length, yields a lower-case string, and keeps a string alphanumeric if and only if it was |
| Text.ToLowerFixesLowerCase | models/user.js:8 | a lower-case string is its own fold |
| Text.ToLowerIdempotent | controller/userController.js:43 | folding twice is folding once |
| Text.UpperCaseIsNoFold | controller/userController.js:9 | a string with an upper-case letter is the fold of nothing |
| Text.LowerCharAlike | models/user.js:8 | two characters fold alike if and only if they are equal or one is the capital of the other |
| Text.FoldsAlike | models/user.js:6-9 | two strings fold alike if and only if they have the same length and differ at most in letter case, position by position: the case-insensitive identity of usernames |
| Text.LexLeTotal | controller/userController.js:190 | the name order compares any two names |
| Text.LexLeTransitive | controller/userController.js:190 | the name order is transitive |
| Text.LexLeReflexive | controller/userController.js:190 | the name order is reflexive |
| Jwt.Sign | utils/token.js:9-14 | a signed token carries the payload, the key, `iat = now` and `exp = iat + lifetime` |
| Jwt.Verify | utils/token.js:38-41 | decoding succeeds if and only if the token is signed with the given key and the clock is before `exp`; it then yields the signed claims |
| Jwt.VerifySign | utils/token.js:9-14 | a signed token verifies under a key if and only if the key is the signing key and the token has not expired; it then yields the signed payload |
| Jwt.KeysSeparate | utils/token.js:38 | a token signed with one key never verifies under another |
| Jwt.EmptyIsNotJwt | utils/token.js:32 | a missing header or field, read as the empty string, fails the JWT shape check |
| Validators.Utf16LengthBounds | controller/userController.js:51-55 | the length `isStrongPassword` measures lies between the number of characters and twice that number, and equals the number of characters when every character is in the Basic Multilingual Plane |
| Validators.AstralCharactersCountTwice | controller/userController.js:51-55 | a password of six characters, three of them outside the Basic Multilingual Plane, counts as length 9 and is strong |
| Validators.EscapeChar | controller/userController.js:50 | every character is replaced by at least one character and by no markup character; it is kept as it is if and only if it is neither markup nor `&` |
| Validators.EscapeKeepsEmptiness | controller/userController.js:50 | escaping never shortens a string and keeps it empty if and only if it was empty, so `notEmpty` still holds after `escape` |
| Validators.EscapeRemovesMarkup | controller/userController.js:50 | an escaped string contains no markup character |
| Validators.EscapeFixesPlainText | controller/userController.js:127 | a string without markup and `&` is left unchanged |
| Token.CreateSuccessTokenRespond | utils/token.js:7-25 | `success` is true; `user` holds exactly username, role and name; the access token verifies under the access secret until 7200 s after issue, and the refresh token under the refresh secret until 172800 s after issue, both decoding to the record's `{sub, username, role}` |
| Token.TokensShareThePayload | utils/token.js:80-87 | both tokens of one response decode to the same payload: the record's id, username and role |
| Token.AccessGate | utils/token.js:28-50 | 400 if and only if the header is not JWT-shaped; passes if and only if it is shaped, verifies under the access secret and (when a list is given) its role is in the list; a pass hands on exactly the verified claims; every rejection is 400 or 401 |
| Token.RefreshGate | utils/token.js:58-73 | 400 if and only if `body.refresh` is not JWT-shaped; passes if and only if it is shaped and verifies under the refresh secret, with no role check; a pass hands on the verified claims |
| Token.VerifyToken | utils/token.js:28-50 | when the gate rejects, sends its answer and leaves `decodedToken` and `next` untouched; when it passes, sets `decodedToken` to the claims and calls `next` once |
| Token.VerifyRefreshToken | utils/token.js:58-73 | when the gate rejects, sends its answer and leaves `decodedRefreshToken` and `next` untouched; when it passes, sets `decodedRefreshToken` and calls `next` once |
| Token.IssuedAccessTokenGate | utils/token.js:9-11 | an issued access token passes the access middleware before 7200 s if its role is permitted, and gets 401 otherwise |
| Token.IssuedRefreshTokenGate | utils/token.js:12-14 | an issued refresh token passes the refresh middleware, whatever the role, before 172800 s, and gets 401 after |
| Token.SecretsSeparateTokens | utils/token.js:4-5 | with two distinct secrets, the access middleware refuses a refresh token and the refresh middleware refuses an access token |
| Token.EmptyPermissionListRejectsAll | utils/token.js:42-46 | a permission list that is given but empty shuts every token out |
| Controller.LoginErrors | controller/userController.js:9-13 | no errors if and only if the username is non-empty and alphanumeric and the password non-empty; the entry for each of these checks is present if and only if that check fails |
| Controller.FindByUsername | controller/userController.js:17 | finds a record exactly when some record holds the name, and the id found holds it |
| Controller.FindByUsernameUnique | controller/userController.js:17 | under the unique index the lookup finds the one record holding the name |
| Controller.UserLogin | controller/userController.js:6-27 | answers 200, 400 or 401; 400 if and only if validation fails; 200 if and only if the lower-cased username is stored and the password matches that record |
| Controller.LoginRejectsInvalidInputWithoutLookup | controller/userController.js:9-15 | invalid input gets the same 400 whatever the table holds |
| Controller.LoginUnknownUser | controller/userController.js:17-20 | valid input with an unknown lower-cased username gets 401 "could not find user" |
| Controller.LoginKnownUser | controller/userController.js:17-27 | valid input naming a record gets 401 "wrong password" on a mismatch, and otherwise 200 with the token response built from that record |
| Controller.LoginIgnoresCase | controller/userController.js:9 | login gives the same answer whatever the case of the typed username |
| Controller.RegisterErrors | controller/userController.js:37-59 | no errors if and only if every check passes; for each check (length 5..20, alphanumeric, lower-cased username not taken, name non-empty, strong password, role in {student, teacher, admin}) its entry is present if and only if that check fails |
| Controller.NewRecord | controller/userController.js:63-71 | the record to create has the given id and role, the lower-cased (so lower-case) username, the escaped name (so no markup character), and a cost-10 digest that accepts the typed password |
| Controller.RegisterValidIsWellFormed | controller/userController.js:62-71 | input that passes validation yields a record that the schema and the unique index accept |
| Controller.RegisterRejectsCaseVariant | controller/userController.js:43-46 | a username whose fold is the fold of a registered one is refused as taken |
| Controller.RegisterRejectsSpellingVariant | controller/userController.js:43-46 | a username that differs from a registered spelling only in letter case, position by position, is refused as taken |
| Controller.RefreshToken | controller/userController.js:80-90 | 401 if and only if the claims' subject has no record; otherwise 200 with tokens built from the current record |
| Controller.RefreshUsesCurrentRecord | controller/userController.js:85 | only the subject of the old claims matters |
| Controller.RefreshReflectsCurrentRole | controller/userController.js:85-90 | the refreshed access token carries the record's current role |
| Controller.UserProfileDetail | controller/userController.js:97-103 | always 200; the user is present if and only if the subject's record exists, and is then that record without its password |
| Controller.UpdateErrors | controller/userController.js:113-130 | no errors if and only if length, alphanumeric and name pass and the lower-cased username is either the token's own username or not taken; the length, alphanumeric and name entries are each present if and only if their check fails, and the uniqueness entry exactly when the lower-cased username is neither |
| Controller.UpdateWithCurrentClaimsNeverClashes | controller/userController.js:120-125 | with claims whose username is the record's current one, passing validation rules out a unique-index clash |
| Controller.StaleClaimsPassValidation | controller/userController.js:121 | when the token's username is stale and another record now holds it, renaming back to it passes validation but clashes at the unique index |
| Controller.StaleTableIsWellFormed | models/user.js:4-32 | the example table obeys the schema and the unique index |
| Controller.StaleClaimsReachUniqueIndex | controller/userController.js:121-146 | a concrete table and stale token for which the rename passes validation and clashes |
| Controller.PageIndex | controller/userController.js:185 | `max(0, page - 1)`: never negative, at least `page - 1`, and either 0 or `page - 1` |
| Controller.ConsecutivePagesTile | controller/userController.js:184-189 | page 1 starts at row 0, and from page 1 on each page starts 10 rows after the one before it, so consecutive pages neither overlap nor leave a gap |
| Controller.InsertByName | controller/userController.js:190 | insertion adds exactly the one record (length, multiset, membership) |
| Controller.InsertByNameSorted | controller/userController.js:190 | insertion keeps a listing in name order |
| Controller.LeastOf | controller/userController.js:190 | a non-empty id set has a least element |
| Controller.LeastId | controller/userController.js:190 | the least id of a non-empty table |
| Controller.ByName | controller/userController.js:186-190 | a listing of every record exactly once by length and membership, in name order |
| Controller.ByNameStep | controller/userController.js:186-190 | one insertion step keeps the listing's membership equal to the table's |
| Controller.Project | controller/userController.js:187 | each row projected, in order |
| Controller.Window | controller/userController.js:188-189 | the `skip`/`limit` window: at most `limit` rows, the exact count, and row `i` is listing row `skip + i` |
| Controller.Page | controller/userController.js:184-189 | at most 10 rows, starting at row `10 * max(0, page - 1)`, each projected |
| Controller.PageOfListing | controller/userController.js:186-191 | a page of a name-ordered listing holds only stored records, in name order |
| Controller.AdminUserList | controller/userController.js:182-191 | 200 with at most 10 rows (exactly `min(10, n - skip)`), each a stored record without its password, in name order; row `i` is row `10 * max(0, page - 1) + i` of the whole table in name order |
| Controller.AdminUserListClampsPage | controller/userController.js:185 | every page number up to 1 gives the first page |
| Controller.AdminUserProfileDetail | controller/userController.js:198-204 | the parameter is lower-cased by the schema's setter; 404 if and only if no record holds the lower-cased name; otherwise 200 with that record minus its password |
| Controller.AdminDetailIgnoresCase | controller/userController.js:200-202 | a name and its lower-cased form get the same answer |
| Controller.UserStore.constructor | models/user.js:34 | an empty, well-formed table |
| Controller.UserStore.Create | controller/userController.js:66-71 | runs the setter; saves exactly the new record under a fresh id when the schema and the unique index accept it; otherwise saves nothing |
| Controller.UserStore.FindOneAndUpdate | controller/userController.js:134-145 | no match or a unique-index clash writes nothing; otherwise only username and name of that record change |
| Controller.UserStore.DeleteOne | controller/userController.js:172 | removes exactly that record |
| Controller.UserStore.UserRegister | controller/userController.js:34-73 | on any validation error, 400 with the errors and no write; otherwise exactly one new record under the next id (lower-cased username, escaped name, hashed password, the given role) and 201 with tokens for it |
| Controller.UserStore.UserProfileUpdate | controller/userController.js:110-146 | on a validation error, 400 and no write; otherwise 201 with tokens for the updated record, changing only username and name of record `sub` (role and password kept); a missing record or a clash gives 500 and no write |
| Controller.UserStore.UserDeleteAccount | controller/userController.js:153-173 | empty password gives 400; no record matching both sub and the lower-cased username of the claims gives 500; wrong password gives 401; each of these leaves the table unchanged; otherwise exactly record `sub` is removed with 200 |
| Routes.FirstMatch | routes/api.js:5-14 | the route found matches, and no earlier route does; none is found if and only if no route matches |
| Routes.Dispatch | routes/api.js:5-14 | no route if and only if the path is empty, its first segment does not fold to `api`, or no route of the table matches the rest; otherwise the route is the first of the table that matches the rest, with one path segment per pattern segment after the mount point |
| Routes.LowerAll | routes/api.js:5-14 | each segment folded, in place |
| Routes.MatchesIgnoresCase | routes/api.js:5-14 | whether a route matches does not depend on the path's letter case |
| Routes.FirstMatchIgnoresCase | routes/api.js:5-14 | which route matches first does not depend on letter case |
| Routes.DispatchIgnoresCase | routes/api.js:5-14 | a path reaches the same route whatever its letter case |
| Routes.ApiFollowsPolicy | routes/api.js:5-14 | every route puts in front of its handler the middleware the access policy prescribes |
| Routes.LoginAndRegisterAreOpen | routes/api.js:5-6 | a route has no middleware if and only if its handler is login or register |
| Routes.RefreshRouteIsGuarded | routes/api.js:7 | the refresh handler runs behind `verifyRefreshToken` |
| Routes.ProfileRoutesAcceptAnyRole | routes/api.js:9-11 | the three `/user` handlers run behind `verifyToken()` without a permission list |
| Routes.AdminRoutesDemandAdmin | routes/api.js:13-14 | both admin handlers run behind `verifyToken(["admin"])` |
| Routes.ClaimsReadersAreGuarded | routes/api.js:7-11 | every handler that reads `decodedToken` sits behind the access middleware, and the one that reads `decodedRefreshToken` behind the refresh middleware |
| Routes.AdminDetailHasThreeSegments | routes/api.js:14 | the admin detail route's path is `admin`, `user`, then a parameter, and it is the only route with three segments |
| Routes.LowerLiterals | routes/api.js:13-14 | the admin path literals are already lower case |
| Routes.AdminDetailDispatch | routes/api.js:14 | `GET /api/admin/user/<name>` reaches the admin detail route |
| Routes.AdminListDispatch | routes/api.js:13 | `GET /api/admin/user` reaches the admin list route |
| Routes.RouteOfApi | routes/api.js:5-14 | for a route of the table: no middleware if and only if login or register; the claims readers behind the matching middleware; the detail route has three segments |
| Routes.RunOpen | routes/api.js:5-6 | login answers as `UserLogin` and writes nothing; register ends in `RegisterOutcome`: 400 and no write on a validation error, otherwise exactly the new record and 201 |
| Routes.RunRefresh | routes/api.js:7 | the refresh handler answers as `RefreshToken` on the stored refresh claims |
| Routes.RunProfile | routes/api.js:9-11 | profile read answers as `UserProfileDetail`; update ends in `UpdateOutcome` and delete in `DeleteOutcome` on the stored claims; the three `/user` handlers can change or remove only the claims' subject |
| Routes.RunAdmin | routes/api.js:13-14 | the admin handlers answer as their functions, the detail one on the last path segment |
| Routes.RunGuard | routes/api.js:7-14 | the route's middleware answers, or stores exactly the verified claims in the field its kind sets and calls `next` once |
| Routes.RunRoute | routes/api.js:5-14 | the table stays well formed, and the answer and the new table are the route handler's outcome on the stored claims and the last path segment |
| Routes.Serve | routes/api.js:5-14 | 404 and no write when no route matches; when the middleware rejects, its answer is sent, `next` is not called and nothing is written; when it passes, `next` is called once with the verified claims stored; a route without middleware is login or register; whenever the handler runs, the answer and the new table are its outcome on those claims |

## Left out

- Process bootstrap, the database connection, CORS and static files are not part of this model. The only piece of `routes/index.js` kept is the 404 answer for an unmatched path (lines 3-8), which `Routes.Serve` gives.
- Every `catch` branch that logs and answers 500 is left out, since exceptions from the libraries and the database are not modelled. Two 500s are modelled because they follow from the handlers' own logic: updating a record that is gone or whose new username clashes, and deleting with claims that no longer match a record (the null record is dereferenced).
- async/await and the callback style of `jwt.verify` are left out, and so is the race between the uniqueness query and `User.create`. The store applies its checks atomically and keeps uniqueness as an invariant.
- bcrypt's salt generation, cost handling and hashing algorithm are replaced by a symbolic digest. jsonwebtoken's HMAC, base64 encoding and `ms` duration parsing are replaced by a symbolic signed term with the lifetimes in seconds.
- express-validator's error objects keep only the field name and which check failed. The message, value and location are not modelled.
- The sanitisers' in-place rewrite of `req.body` is left out. Handlers compute the lower-cased username and escaped name as values, and `Request.body` stays as it arrived.
- `Text.ToLower`: folds ASCII letters only. JavaScript's `toLowerCase` also folds non-ASCII letters: the Kelvin sign U+212A followed by `aren` folds to `karen`. The validation chains have no `bail()`, so in register and profile update the uniqueness check still runs on such a folded name after `isAlphanumeric` has failed. The source's 400 can then list "username already registered" where the model's list does not; the status is 400 either way and nothing is written. For the same reason, an admin detail request for such a name can find the record in the source and gets 404 in the model.
- `Validators.IsLength`: counts characters. Depending on its version, the library's `isLength` counts UTF-16 code units or code points, and it does not count the variation selectors U+FE0E and U+FE0F.
- `Password.Significant`: keeps the first 72 characters. bcrypt keeps the first 72 bytes of the UTF-8 encoding, which is fewer characters when the secret has non-ASCII characters.
- The 401 answers of the two middlewares carry the jsonwebtoken error object (expired, bad signature, malformed) in an `error` field. The model's 401 bodies keep only the message.
- `Controller.AdminUserList`: assumes `?page` is already an integer. A missing or non-numeric page (NaN in the source) is not modelled, and neither is a fractional one: `?page=1.5` gives `skip(5)` in the source.
- `Controller.ByName`: the database does not specify the order of equal names. The model orders them by id.
- `Text.LexLe`: the name order is code-point order, not a collation.
- Timestamps (`createdAt`, `updatedAt`) are not stored, and profile read does not project them away.
- HTTP parsing, URL decoding of path segments, HEAD requests and response serialisation are left out.
