/**
 * The user handlers. The user table is a map from id to record held by a
 * `UserStore` object; the handlers that write to it (register, profile
 * update, account deletion) are methods of the store, the others are
 * functions of its table. Claims come from the middleware; the clock, the
 * salt drawn by the hasher and the two secrets are parameters.
 */
module Controller {
  import opened Wrappers
  import opened Text
  import opened Schema
  import opened Password
  import opened Jwt
  import opened Validators
  import opened Http
  import opened Token

  /** The roles `isIn` accepts at registration. */
  const RegisterRoles: seq<string> := ["student", "teacher", "admin"]

  const PerPage: nat := 10

  /** One link of a validation chain: its error entry when the check fails, nothing when it holds. */
  function Unless(holds: bool, e: FieldError): seq<FieldError> {
    if holds then [] else [e]
  }

  // ---------------------------------------------------------------------
  // Login

  /** The validation chain of login: `username` not empty and alphanumeric, `password` not empty. */
  function LoginErrors(form: Form): (errs: seq<FieldError>)
    ensures errs == [] <==> IsAlphanumeric(form.username) && form.password != ""
    ensures FieldError("username", Required) in errs <==> form.username == ""
    ensures FieldError("username", Alphanumeric) in errs <==> !IsAlphanumeric(form.username)
    ensures FieldError("password", Required) in errs <==> form.password == ""
  {
    Unless(NotEmpty(form.username), FieldError("username", Required))
    + Unless(IsAlphanumeric(form.username), FieldError("username", Alphanumeric))
    + Unless(NotEmpty(form.password), FieldError("password", Required))
  }

  /** `User.findOne({ username })`: the id of a record holding `name`, if there is one. */
  function FindByUsername(users: map<Id, User>, name: string): (r: Option<Id>)
    requires UniqueUsernames(users)
    ensures r.Some? <==> Taken(users, name)
    ensures r.Some? ==> r.value in users && users[r.value].username == name
  {
    if Taken(users, name) then
      var k :| k in users && users[k].username == name; Some(k)
    else
      None
  }

  /** Under the unique index the lookup by username finds exactly the record holding it. */
  lemma FindByUsernameUnique(users: map<Id, User>, name: string, k: Id)
    requires UniqueUsernames(users)
    requires k in users && users[k].username == name
    ensures FindByUsername(users, name) == Some(k)
  {
  }

  /** `user_login`: validate, look up the lower-cased username, compare the password, issue tokens. */
  function UserLogin(users: map<Id, User>, form: Form, secrets: Secrets, now: int): (r: Response)
    requires UniqueUsernames(users)
    ensures r.status in {200, 400, 401}
    ensures r.status == 400 <==> LoginErrors(form) != []
    ensures r.status == 200 <==> LoginErrors(form) == [] && Taken(users, ToLower(form.username))
                                 && Compare(form.password, users[FindByUsername(users, ToLower(form.username)).value].password)
  {
    var errs := LoginErrors(form);
    if errs != [] then
      Response(400, ValidationFailed(errs))
    else
      match FindByUsername(users, ToLower(form.username))
      case None => Response(401, Failed(MsgUserNotFound))
      case Some(id) =>
        if !Compare(form.password, users[id].password) then
          Response(401, Failed(MsgWrongPassword))
        else
          Response(200, TokenIssued(CreateSuccessTokenRespond(users[id], secrets, now)))
  }

  /** Invalid login input is answered with 400 before the table is consulted: any two tables give the same answer. */
  lemma LoginRejectsInvalidInputWithoutLookup(users1: map<Id, User>, users2: map<Id, User>, form: Form,
                                              secrets: Secrets, now: int)
    requires UniqueUsernames(users1) && UniqueUsernames(users2)
    requires LoginErrors(form) != []
    ensures UserLogin(users1, form, secrets, now) == UserLogin(users2, form, secrets, now)
                                                  == Response(400, ValidationFailed(LoginErrors(form)))
  {
  }

  /** Valid login input and no record with the lower-cased username: 401, no tokens. */
  lemma LoginUnknownUser(users: map<Id, User>, form: Form, secrets: Secrets, now: int)
    requires UniqueUsernames(users)
    requires LoginErrors(form) == [] && !Taken(users, ToLower(form.username))
    ensures UserLogin(users, form, secrets, now) == Response(401, Failed(MsgUserNotFound))
  {
  }

  /**
   * Valid login input naming record `k` (after lower-casing): 401 on a wrong
   * password, otherwise 200 with the token response built from that record.
   */
  lemma LoginKnownUser(users: map<Id, User>, form: Form, k: Id, secrets: Secrets, now: int)
    requires UniqueUsernames(users)
    requires LoginErrors(form) == [] && k in users && users[k].username == ToLower(form.username)
    ensures UserLogin(users, form, secrets, now)
         == if Compare(form.password, users[k].password)
            then Response(200, TokenIssued(CreateSuccessTokenRespond(users[k], secrets, now)))
            else Response(401, Failed(MsgWrongPassword))
  {
    FindByUsernameUnique(users, ToLower(form.username), k);
  }

  /** Login does not depend on the case of the username typed. */
  lemma LoginIgnoresCase(users: map<Id, User>, form: Form, secrets: Secrets, now: int)
    requires UniqueUsernames(users)
    ensures UserLogin(users, form.(username := ToLower(form.username)), secrets, now)
         == UserLogin(users, form, secrets, now)
  {
    ToLowerProperties(form.username);
    ToLowerIdempotent(form.username);
    var lowered := form.(username := ToLower(form.username));
    assert LoginErrors(lowered) == LoginErrors(form);
  }

  // ---------------------------------------------------------------------
  // Register

  /**
   * The validation chain of register. Every check runs and every failure is
   * collected; the uniqueness check looks up the lower-cased username.
   */
  function RegisterErrors(users: map<Id, User>, form: Form): (errs: seq<FieldError>)
    ensures errs == [] <==> 5 <= |form.username| <= 20 && IsAlphanumeric(form.username)
                            && !Taken(users, ToLower(form.username)) && form.name != ""
                            && IsStrongPassword(form.password) && form.role in RegisterRoles
    ensures FieldError("username", Length) in errs <==> !(5 <= |form.username| <= 20)
    ensures FieldError("username", Alphanumeric) in errs <==> !IsAlphanumeric(form.username)
    ensures FieldError("username", Unique) in errs <==> Taken(users, ToLower(form.username))
    ensures FieldError("name", Required) in errs <==> form.name == ""
    ensures FieldError("password", StrongPassword) in errs <==> !IsStrongPassword(form.password)
    ensures FieldError("role", Enum) in errs <==> form.role !in RegisterRoles
  {
    var username := ToLower(form.username);
    var length := Unless(IsLength(form.username, 5, 20), FieldError("username", Length));
    var alphanumeric := Unless(IsAlphanumeric(form.username), FieldError("username", Alphanumeric));
    var unique := Unless(!Taken(users, username), FieldError("username", Unique));
    var name := Unless(NotEmpty(form.name), FieldError("name", Required));
    var password := Unless(IsStrongPassword(form.password), FieldError("password", StrongPassword));
    var role := Unless(IsIn(form.role, RegisterRoles), FieldError("role", Enum));
    var errs := length + alphanumeric + unique + name + password + role;
    assert forall e :: e in errs <==> e in length || e in alphanumeric || e in unique || e in name || e in password || e in role;
    errs
  }

  /** The record register asks the store to create: lower-cased username, escaped name, hashed password, role as given. */
  function NewRecord(id: Id, form: Form, salt: nat): (u: User)
    ensures u.id == id && u.role == form.role && u.name == Escape(form.name)
    ensures u.username == ToLower(form.username) && IsLowerCase(u.username)
    ensures Compare(form.password, u.password) && u.password.cost == Cost
    ensures forall i :: 0 <= i < |u.name| ==> !IsMarkupChar(u.name[i])
  {
    ToLowerProperties(form.username);
    EscapeRemovesMarkup(form.name);
    User(id, ToLower(form.username), Escape(form.name), Hash(form.password, salt), form.role)
  }

  /** Input that passes register's validation always yields a record the schema and the unique index accept. */
  lemma RegisterValidIsWellFormed(users: map<Id, User>, form: Form, id: Id, salt: nat)
    requires RegisterErrors(users, form) == []
    ensures WellFormedUser(NewRecord(id, form, salt))
    ensures !Taken(users, NewRecord(id, form, salt).username)
    ensures PassesValidation(NewRecord(id, form, salt))
  {
    ToLowerProperties(form.username);
    EscapeKeepsEmptiness(form.name);
    assert WellFormedUser(NewRecord(id, form, salt));
  }

  /** Two usernames that differ only in case: once one is registered, the other is refused as taken. */
  lemma RegisterRejectsCaseVariant(users: map<Id, User>, form: Form, other: string)
    requires ToLower(other) == ToLower(form.username)
    requires Taken(users, ToLower(other))
    ensures FieldError("username", Unique) in RegisterErrors(users, form)
  {
  }

  /** The same, stated on the spelling: a username differing from a registered one only in letter case is refused. */
  lemma RegisterRejectsSpellingVariant(users: map<Id, User>, form: Form, other: string)
    requires |other| == |form.username|
    requires forall i :: 0 <= i < |other| ==> SameUpToCase(other[i], form.username[i])
    requires Taken(users, ToLower(other))
    ensures FieldError("username", Unique) in RegisterErrors(users, form)
  {
    FoldsAlike(other, form.username);
    RegisterRejectsCaseVariant(users, form, other);
  }

  // ---------------------------------------------------------------------
  // Refresh and profile read

  /** `refresh_token`: tokens and user fields from the current record of the claims' subject, 401 if it is gone. */
  function RefreshToken(users: map<Id, User>, claims: Claims, secrets: Secrets, now: int): (r: Response)
    ensures r.status in {200, 401}
    ensures r.status == 401 <==> claims.payload.sub !in users
    ensures r.status == 401 ==> r.body == Failed(MsgUserNotFound)
    ensures r.status == 200 ==> r.body == TokenIssued(CreateSuccessTokenRespond(users[claims.payload.sub], secrets, now))
  {
    var sub := claims.payload.sub;
    if sub !in users then
      Response(401, Failed(MsgUserNotFound))
    else
      Response(200, TokenIssued(CreateSuccessTokenRespond(users[sub], secrets, now)))
  }

  /** Refresh reads only the subject of the old claims: their username, role and times do not matter. */
  lemma RefreshUsesCurrentRecord(users: map<Id, User>, c1: Claims, c2: Claims, secrets: Secrets, now: int)
    requires c1.payload.sub == c2.payload.sub
    ensures RefreshToken(users, c1, secrets, now) == RefreshToken(users, c2, secrets, now)
  {
  }

  /** A refreshed access token carries the record's current role, whatever the old claims said. */
  lemma RefreshReflectsCurrentRole(users: map<Id, User>, claims: Claims, secrets: Secrets, now: int)
    requires claims.payload.sub in users
    ensures var r := RefreshToken(users, claims, secrets, now);
            r.body.TokenIssued?
            && Verify(r.body.tokens.accessToken, secrets.access, now).Some?
            && Verify(r.body.tokens.accessToken, secrets.access, now).value.payload.role
               == users[claims.payload.sub].role
  {
  }

  /** `user_profile_detail`: 200 with the subject's record minus its password, or with a null user if the record is gone. */
  function UserProfileDetail(users: map<Id, User>, claims: Claims): (r: Response)
    ensures r.status == 200 && r.body.ProfileFound?
    ensures r.body.user.Some? <==> claims.payload.sub in users
    ensures r.body.user.Some? ==> r.body.user.value == ProfileOf(users[claims.payload.sub])
  {
    var sub := claims.payload.sub;
    Response(200, ProfileFound(if sub in users then Some(ProfileOf(users[sub])) else None))
  }

  // ---------------------------------------------------------------------
  // Profile update

  /** The validation chain of profile update; a username equal to the token's own username skips the uniqueness check. */
  function UpdateErrors(users: map<Id, User>, claims: Claims, form: Form): (errs: seq<FieldError>)
    ensures errs == [] <==> 5 <= |form.username| <= 20 && IsAlphanumeric(form.username) && form.name != ""
                            && (ToLower(form.username) == claims.payload.username || !Taken(users, ToLower(form.username)))
    ensures FieldError("username", Length) in errs <==> !(5 <= |form.username| <= 20)
    ensures FieldError("username", Alphanumeric) in errs <==> !IsAlphanumeric(form.username)
    ensures FieldError("username", Unique) in errs
        <==> ToLower(form.username) != claims.payload.username && Taken(users, ToLower(form.username))
    ensures FieldError("name", Required) in errs <==> form.name == ""
  {
    var username := ToLower(form.username);
    var length := Unless(IsLength(form.username, 5, 20), FieldError("username", Length));
    var alphanumeric := Unless(IsAlphanumeric(form.username), FieldError("username", Alphanumeric));
    var unique := Unless(username == claims.payload.username || !Taken(users, username), FieldError("username", Unique));
    var name := Unless(NotEmpty(form.name), FieldError("name", Required));
    var errs := length + alphanumeric + unique + name;
    assert forall e :: e in errs <==> e in length || e in alphanumeric || e in unique || e in name;
    errs
  }

  /** Another record than `id` already holds `name`: the unique index refuses to give it to `id`. */
  predicate HeldByOther(users: map<Id, User>, id: Id, name: string) {
    exists k :: k in users && k != id && users[k].username == name
  }

  /** When the claims are current (their username is the record's), passing validation rules out a unique-index clash. */
  lemma UpdateWithCurrentClaimsNeverClashes(users: map<Id, User>, claims: Claims, form: Form)
    requires claims.payload.sub in users && users[claims.payload.sub].username == claims.payload.username
    requires UniqueUsernames(users)
    requires UpdateErrors(users, claims, form) == []
    ensures !HeldByOther(users, claims.payload.sub, ToLower(form.username))
  {
  }

  /**
   * The self-exemption compares with the username in the token, which can be
   * stale: after a rename, the old access token still carries the old name,
   * and once another account holds that name, validation lets a rename back
   * to it through, so the request reaches the unique index.
   */
  lemma StaleClaimsPassValidation(users: map<Id, User>, claims: Claims, form: Form, other: Id)
    requires other in users && other != claims.payload.sub && users[other].username == claims.payload.username
    requires 5 <= |form.username| <= 20 && IsAlphanumeric(form.username) && form.name != ""
    requires ToLower(form.username) == claims.payload.username
    ensures UpdateErrors(users, claims, form) == []
    ensures HeldByOther(users, claims.payload.sub, ToLower(form.username))
  {
  }

  /** A table with which the stale-claims case happens: record 1 was renamed from "alice1", record 2 took that name. */
  const StaleTable: map<Id, User> :=
    map[1 := User(1, "alice2", "Alice", Hash("Passw0rdX", 0), "student"),
        2 := User(2, "alice1", "Bob", Hash("Passw0rdX", 0), "student")]

  /** The table obeys the schema and the unique index. */
  lemma StaleTableIsWellFormed()
    ensures WellFormedStore(StaleTable)
  {
    assert IsAlphanumeric("alice1") && IsAlphanumeric("alice2");
  }

  /** Record 1's old access token still names "alice1"; renaming back to "alice1" passes validation and clashes. */
  lemma StaleClaimsReachUniqueIndex()
    ensures var stale := Claims(Payload(1, "alice1", "student"), 0, AccessLifetime);
            var form := Form("alice1", "", "Alice", "", Forged(""));
            UpdateErrors(StaleTable, stale, form) == [] && HeldByOther(StaleTable, 1, ToLower(form.username))
  {
    var stale := Claims(Payload(1, "alice1", "student"), 0, AccessLifetime);
    var form := Form("alice1", "", "Alice", "", Forged(""));
    assert ToLower("alice1") == "alice1" by {
      assert IsLowerCase("alice1");
      ToLowerFixesLowerCase("alice1");
    }
    assert IsAlphanumeric("alice1");
    assert StaleTable[2].username == "alice1";
    StaleClaimsPassValidation(StaleTable, stale, form, 2);
  }

  // ---------------------------------------------------------------------
  // Admin list and detail

  /** `Math.max(0, page - 1)`: the zero-based page index, never negative. */
  function PageIndex(page: int): (r: nat)
    ensures r >= page - 1
    ensures r == 0 || r == page - 1
  {
    if page - 1 > 0 then page - 1 else 0
  }

  /** The number of records `skip` passes over: ten per page before the requested one. */
  function Skip(page: int): nat {
    PerPage * PageIndex(page)
  }

  /** Pages tile the listing: from page 1 on, each page starts where the one before it ends. */
  lemma ConsecutivePagesTile(page: int)
    requires page >= 1
    ensures Skip(page + 1) == Skip(page) + PerPage
    ensures Skip(1) == 0
  {
  }

  predicate SortedByName(s: seq<User>) {
    forall i :: 0 <= i < |s| - 1 ==> LexLe(s[i].name, s[i + 1].name)
  }

  /** Insert `x` into a name-ordered sequence, before the first record whose name is not smaller. */
  function InsertByName(x: User, s: seq<User>): (r: seq<User>)
    ensures |r| == |s| + 1
    ensures multiset(r) == multiset(s) + multiset{x}
    ensures forall y :: y in r <==> y == x || y in s
    ensures r[0] == x || (s != [] && r[0] == s[0])
  {
    if s == [] || LexLe(x.name, s[0].name) then
      [x] + s
    else
      var rest := InsertByName(x, s[1..]);
      assert s == [s[0]] + s[1..];
      [s[0]] + rest
  }

  /** Insertion keeps a listing in name order. */
  lemma {:induction false} InsertByNameSorted(x: User, s: seq<User>)
    requires SortedByName(s)
    ensures SortedByName(InsertByName(x, s))
  {
    if s != [] && !LexLe(x.name, s[0].name) {
      LexLeTotal(x.name, s[0].name);
      var tail := s[1..];
      assert SortedByName(tail) by {
        forall i | 0 <= i < |tail| - 1 ensures LexLe(tail[i].name, tail[i + 1].name) {
          assert tail[i] == s[i + 1] && tail[i + 1] == s[i + 2];
        }
      }
      InsertByNameSorted(x, tail);
      var rest := InsertByName(x, tail);
      var r := InsertByName(x, s);
      assert r == [s[0]] + rest;
      forall i | 0 <= i < |r| - 1 ensures LexLe(r[i].name, r[i + 1].name) {
        if i > 0 {
          assert r[i] == rest[i - 1] && r[i + 1] == rest[i];
        }
      }
    }
  }

  /** A non-empty finite set of ids has a least element. */
  lemma {:induction false} LeastOf(ids: set<Id>) returns (m: Id)
    requires ids != {}
    ensures m in ids && forall k :: k in ids ==> m <= k
    decreases ids
  {
    var x :| x in ids;
    if ids == {x} {
      m := x;
    } else {
      var rest := ids - {x};
      var n := LeastOf(rest);
      m := if x < n then x else n;
      forall k | k in ids ensures m <= k {
        if k != x {
          assert k in rest;
        }
      }
    }
  }

  lemma LeastExists(users: map<Id, User>)
    requires users != map[]
    ensures exists k :: k in users && forall k' :: k' in users ==> k <= k'
  {
    var x :| x in users;
    var m := LeastOf(users.Keys);
  }

  /** The lowest id in a non-empty table. */
  function LeastId(users: map<Id, User>): (k: Id)
    requires users != map[]
    ensures k in users && forall k' :: k' in users ==> k <= k'
  {
    LeastExists(users);
    var k :| k in users && forall k' :: k' in users ==> k <= k'; k
  }

  /**
   * The table's records in name order (`sort({ name: "asc" })`); equal names
   * are listed by increasing id.
   */
  function ByName(users: map<Id, User>): (s: seq<User>)
    ensures |s| == |users|
    ensures SortedByName(s)
    ensures forall i :: 0 <= i < |s| ==> s[i] in users.Values
    ensures forall k :: k in users ==> users[k] in s
    decreases |users|
  {
    if users == map[] then
      []
    else
      var k := LeastId(users);
      var rest := users - {k};
      assert rest.Keys == users.Keys - {k};
      assert |rest| == |users| - 1 by {
        assert |rest.Keys| == |users.Keys| - 1;
      }
      var tail := ByName(rest);
      var s := InsertByName(users[k], tail);
      InsertByNameSorted(users[k], tail);
      ByNameStep(users, k, tail, s);
      s
  }

  /** The membership facts of one step of ByName: `s` is `users[k]` inserted into a listing of the rest of the table. */
  lemma ByNameStep(users: map<Id, User>, k: Id, tail: seq<User>, s: seq<User>)
    requires k in users
    requires forall i :: 0 <= i < |tail| ==> tail[i] in (users - {k}).Values
    requires forall k' :: k' in users - {k} ==> (users - {k})[k'] in tail
    requires forall y :: y in s <==> y == users[k] || y in tail
    ensures forall i :: 0 <= i < |s| ==> s[i] in users.Values
    ensures forall k' :: k' in users ==> users[k'] in s
  {
    var rest := users - {k};
    forall k' | k' in users ensures users[k'] in s {
      if k' != k {
        assert k' in rest && rest[k'] == users[k'];
      }
    }
    forall i | 0 <= i < |s| ensures s[i] in users.Values {
      assert s[i] in s;
      if s[i] != users[k] {
        var j :| 0 <= j < |tail| && tail[j] == s[i];
        assert tail[j] in rest.Values;
        var k' :| k' in rest && rest[k'] == tail[j];
        assert users[k'] == s[i];
      }
    }
  }

  function Project(rows: seq<User>): (r: seq<Profile>)
    ensures |r| == |rows|
    ensures forall i :: 0 <= i < |rows| ==> r[i] == ProfileOf(rows[i])
  {
    if rows == [] then [] else [ProfileOf(rows[0])] + Project(rows[1..])
  }

  /** The password-free projections of the stored records. */
  ghost function StoredProfiles(users: map<Id, User>): set<Profile> {
    set u | u in users.Values :: ProfileOf(u)
  }

  /** The window `skip(skip).limit(limit)` of a listing. */
  function Window(s: seq<User>, skip: nat, limit: nat): (w: seq<User>)
    ensures |w| <= limit
    ensures |w| == if skip >= |s| then 0 else if |s| - skip < limit then |s| - skip else limit
    ensures forall i :: 0 <= i < |w| ==> skip + i < |s| && w[i] == s[skip + i]
  {
    if skip >= |s| then [] else s[skip .. if |s| - skip < limit then |s| else skip + limit]
  }

  /** One page of a listing: ten rows from row `Skip(page)` on, each projected. */
  function Page(listing: seq<User>, page: int): (data: seq<Profile>)
    ensures |data| <= PerPage
    ensures |data| == if Skip(page) >= |listing| then 0
                      else if |listing| - Skip(page) < PerPage then |listing| - Skip(page) else PerPage
    ensures forall i :: 0 <= i < |data| ==> data[i] == ProfileOf(listing[Skip(page) + i])
  {
    Project(Window(listing, Skip(page), PerPage))
  }

  /** A page of a name-ordered listing of the table holds stored records only, still in name order. */
  lemma PageOfListing(users: map<Id, User>, listing: seq<User>, page: int)
    requires SortedByName(listing)
    requires forall i :: 0 <= i < |listing| ==> listing[i] in users.Values
    ensures var data := Page(listing, page);
            && (forall i :: 0 <= i < |data| ==> data[i] in StoredProfiles(users))
            && (forall i :: 0 <= i < |data| - 1 ==> LexLe(data[i].name, data[i + 1].name))
  {
    var data := Page(listing, page);
    forall i | 0 <= i < |data| ensures data[i] in StoredProfiles(users) {
      assert listing[Skip(page) + i] in users.Values;
    }
    forall i | 0 <= i < |data| - 1 ensures LexLe(data[i].name, data[i + 1].name) {
      assert data[i].name == listing[Skip(page) + i].name;
      assert data[i + 1].name == listing[Skip(page) + i + 1].name;
    }
  }

  /**
   * `admin_user_list`: page `page` of the table in name order, ten records a
   * page, each projected to id, username, name and role; any page below 1 is
   * the first page.
   */
  function AdminUserList(users: map<Id, User>, page: int): (r: Response)
    ensures r.status == 200 && r.body.UserPage?
    ensures |r.body.data| <= PerPage
    ensures |r.body.data| == if Skip(page) >= |users| then 0
                             else if |users| - Skip(page) < PerPage then |users| - Skip(page) else PerPage
    ensures forall i :: 0 <= i < |r.body.data| ==> r.body.data[i] in StoredProfiles(users)
    ensures forall i :: 0 <= i < |r.body.data| - 1 ==> LexLe(r.body.data[i].name, r.body.data[i + 1].name)
    ensures forall i :: 0 <= i < |r.body.data| ==> Skip(page) + i < |ByName(users)|
                                                   && r.body.data[i] == ProfileOf(ByName(users)[Skip(page) + i])
  {
    var listing := ByName(users);
    PageOfListing(users, listing, page);
    Response(200, UserPage(Page(listing, page)))
  }

  /** Page numbers below 1 all give the first page. */
  lemma AdminUserListClampsPage(users: map<Id, User>, page: int)
    requires page <= 1
    ensures AdminUserList(users, page) == AdminUserList(users, 1)
  {
  }

  /**
   * `admin_user_profile_detail`: the record holding the username, minus its
   * password, or 404. The schema's lowercase setter also runs on the query
   * filter, so the parameter is lower-cased before the lookup.
   */
  function AdminUserProfileDetail(users: map<Id, User>, username: string): (r: Response)
    requires UniqueUsernames(users)
    ensures r.status in {200, 404}
    ensures r.status == 404 <==> !Taken(users, ToLower(username))
    ensures r.status == 404 ==> r.body == Failed(MsgNoSuchUser)
    ensures r.status == 200 ==> r.body.ProfileFound? && r.body.user.Some?
                                && exists k :: k in users && users[k].username == ToLower(username)
                                               && r.body.user.value == ProfileOf(users[k])
  {
    match FindByUsername(users, ToLower(username))
    case None => Response(404, Failed(MsgNoSuchUser))
    case Some(id) => Response(200, ProfileFound(Some(ProfileOf(users[id]))))
  }

  /** Letter case in the parameter does not matter: a name and its lower-cased form get the same answer. */
  lemma AdminDetailIgnoresCase(users: map<Id, User>, username: string)
    requires UniqueUsernames(users)
    ensures AdminUserProfileDetail(users, ToLower(username)) == AdminUserProfileDetail(users, username)
  {
    ToLowerIdempotent(username);
  }

  // ---------------------------------------------------------------------
  // What the writing handlers promise, as relations between the table
  // before, the answer and the table after

  /**
   * Register: on any validation error 400 and no record; otherwise exactly
   * one new record under the next id (lower-cased username, escaped name,
   * hashed password, the role given) and 201 with tokens for it.
   */
  predicate RegisterOutcome(before: map<Id, User>, nextId: Id, form: Form, salt: nat, secrets: Secrets, now: int,
                            r: Response, after: map<Id, User>) {
    if RegisterErrors(before, form) != [] then
      r == Response(400, ValidationFailed(RegisterErrors(before, form))) && after == before
    else
      var u := NewRecord(nextId, form, salt);
      u.id !in before && after == before[u.id := u]
      && r == Response(201, TokenIssued(CreateSuccessTokenRespond(u, secrets, now)))
  }

  /**
   * Profile update: on a validation error 400 and no write; a missing record
   * or a clash at the unique index 500 and no write; otherwise only the
   * username and name of the subject's record change and the answer is 201
   * with tokens for the updated record.
   */
  predicate UpdateOutcome(before: map<Id, User>, claims: Claims, form: Form, secrets: Secrets, now: int,
                          r: Response, after: map<Id, User>) {
    if UpdateErrors(before, claims, form) != [] then
      r == Response(400, ValidationFailed(UpdateErrors(before, claims, form))) && after == before
    else
      var sub, username := claims.payload.sub, ToLower(form.username);
      if sub !in before || HeldByOther(before, sub, username) then
        r == Response(500, ServerError) && after == before
      else
        after == before[sub := before[sub].(username := username, name := Escape(form.name))]
        && after[sub].role == before[sub].role && after[sub].password == before[sub].password
        && r == Response(201, TokenIssued(CreateSuccessTokenRespond(after[sub], secrets, now)))
  }

  /**
   * Account deletion: 400 on an empty password; 500 when no record matches
   * both the subject and the (lower-cased) username of the claims; 401 on a
   * wrong password; otherwise exactly that record is removed.
   */
  predicate DeleteOutcome(before: map<Id, User>, claims: Claims, form: Form, r: Response, after: map<Id, User>) {
    var sub := claims.payload.sub;
    if form.password == "" then
      r == Response(400, ValidationFailed([FieldError("password", Required)])) && after == before
    else if sub !in before || before[sub].username != ToLower(claims.payload.username) then
      r == Response(500, ServerError) && after == before
    else if !Compare(form.password, before[sub].password) then
      r == Response(401, Failed(MsgWrongPassword)) && after == before
    else
      r == Response(200, AccountDeleted) && after == before - {sub} && |after| == |before| - 1
  }

  // ---------------------------------------------------------------------
  // The store and the handlers that write to it

  /** What `findOneAndUpdate(..., { new: true })` ends in. */
  datatype UpdateResult = Updated(user: User) | NoMatch | DuplicateKey

  class UserStore {
    var users: map<Id, User>
    /** The id the next created record receives. */
    var nextId: Id

    ghost predicate Valid()
      reads this
    {
      WellFormedStore(users) && forall k :: k in users ==> k < nextId
    }

    constructor ()
      ensures Valid() && users == map[]
    {
      users := map[];
      nextId := 0;
    }

    /**
     * `User.create(fields)`: the schema's setters and validators run, then the
     * unique index is checked; the saved record, or None when either refuses.
     */
    method Create(username: string, password: Digest, role: string, name: string) returns (saved: Option<User>)
      requires Valid()
      modifies this
      ensures Valid()
      ensures var u := ApplySetters(User(old(nextId), username, name, password, role));
              if WellFormedUser(u) && !Taken(old(users), u.username)
              then saved == Some(u) && u.id !in old(users) && users == old(users)[u.id := u]
              else saved == None && users == old(users)
    {
      var u := ApplySetters(User(nextId, username, name, password, role));
      if !WellFormedUser(u) || Taken(users, u.username) {
        return None;
      }
      InsertKeepsWellFormed(users, u);
      users := users[u.id := u];
      nextId := nextId + 1;
      saved := Some(u);
    }

    /**
     * `findOneAndUpdate({ _id: id }, { username, name }, { new: true })`. Update
     * validators are off, so the caller's checks are what keep the schema; the
     * unique index still refuses a username another record holds.
     */
    method FindOneAndUpdate(id: Id, username: string, name: string) returns (res: UpdateResult)
      requires Valid()
      requires WellFormedUsername(username) && name != ""
      modifies this
      ensures Valid() && nextId == old(nextId)
      ensures id !in old(users) ==> res == NoMatch && users == old(users)
      ensures id in old(users) && HeldByOther(old(users), id, username) ==> res == DuplicateKey && users == old(users)
      ensures id in old(users) && !HeldByOther(old(users), id, username) ==>
                res == Updated(old(users)[id].(username := username, name := name))
                && users == old(users)[id := res.user]
    {
      if id !in users {
        return NoMatch;
      }
      if HeldByOther(users, id, username) {
        return DuplicateKey;
      }
      var u := users[id].(username := username, name := name);
      RenameKeepsWellFormed(users, id, username, name);
      users := users[id := u];
      res := Updated(u);
    }

    /** `deleteOne(user)` for a record that was just read: that record goes, nothing else changes. */
    method DeleteOne(id: Id)
      requires Valid()
      modifies this
      ensures Valid() && nextId == old(nextId)
      ensures users == old(users) - {id}
    {
      RemoveKeepsWellFormed(users, id);
      users := users - {id};
    }

    /**
     * `user_register`: on any validation error 400 and no record; otherwise
     * exactly one new record (lower-cased username, escaped name, hashed
     * password, the role given) and 201 with tokens for it.
     */
    method UserRegister(form: Form, salt: nat, secrets: Secrets, now: int) returns (r: Response)
      requires Valid()
      modifies this
      ensures Valid()
      ensures RegisterOutcome(old(users), old(nextId), form, salt, secrets, now, r, users)
    {
      var errs := RegisterErrors(users, form);
      if errs != [] {
        return Response(400, ValidationFailed(errs));
      }
      RegisterValidIsWellFormed(users, form, nextId, salt);
      var password := Hash(form.password, salt);
      var saved := Create(ToLower(form.username), password, form.role, Escape(form.name));
      if saved.None? {
        return Response(500, ServerError);
      }
      r := Response(201, TokenIssued(CreateSuccessTokenRespond(saved.value, secrets, now)));
    }

    /**
     * `user_profile_update`: on a validation error 400 and no write; otherwise
     * only `username` and `name` of the subject's record change and the answer
     * is 201 with tokens for the updated record. A missing record or a clash
     * at the unique index ends in 500 with no write.
     */
    method UserProfileUpdate(claims: Claims, form: Form, secrets: Secrets, now: int) returns (r: Response)
      requires Valid()
      modifies this
      ensures Valid()
      ensures UpdateOutcome(old(users), claims, form, secrets, now, r, users)
    {
      var errs := UpdateErrors(users, claims, form);
      if errs != [] {
        return Response(400, ValidationFailed(errs));
      }
      ToLowerProperties(form.username);
      EscapeKeepsEmptiness(form.name);
      var res := FindOneAndUpdate(claims.payload.sub, ToLower(form.username), Escape(form.name));
      match res
      case Updated(u) =>
        r := Response(201, TokenIssued(CreateSuccessTokenRespond(u, secrets, now)));
      case NoMatch =>
        // createSuccessTokenRespond(null) throws
        r := Response(500, ServerError);
      case DuplicateKey =>
        r := Response(500, ServerError);
    }

    /**
     * `user_delete_account`: 400 on an empty password; the record must match
     * both the subject and the username of the claims (otherwise the null
     * record is dereferenced: 500); 401 on a wrong password; otherwise exactly
     * that record is removed. Only the last case writes.
     */
    method UserDeleteAccount(claims: Claims, form: Form) returns (r: Response)
      requires Valid()
      modifies this
      ensures Valid()
      ensures DeleteOutcome(old(users), claims, form, r, users)
    {
      if !NotEmpty(form.password) {
        return Response(400, ValidationFailed([FieldError("password", Required)]));
      }
      var sub := claims.payload.sub;
      if sub !in users || users[sub].username != ToLower(claims.payload.username) {
        return Response(500, ServerError);
      }
      var user := users[sub];
      var passwordVerified := Compare(form.password, user.password);
      if !passwordVerified {
        return Response(401, Failed(MsgWrongPassword));
      }
      assert (users - {sub}).Keys == users.Keys - {sub};
      DeleteOne(sub);
      r := Response(200, AccountDeleted);
    }
  }
}
