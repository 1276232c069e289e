/**
 * The API routes, mounted under `/api`: each is a verb, a path pattern, at
 * most one verification middleware and a handler. Serving a request finds the
 * first matching route, runs its middleware and, if the middleware hands
 * control on, the handler.
 */
module Routes {
  import opened Wrappers
  import opened Text
  import opened Schema
  import opened Jwt
  import opened Http
  import opened Token
  import C = Controller

  datatype Verb = Get | Post | Put | Delete

  /** A path pattern segment: a literal, or a named parameter such as `:username`. */
  datatype Segment = Lit(name: string) | Param

  /** `verifyToken(permission)` or `verifyRefreshToken`. */
  datatype Guard = AccessGuard(permission: Option<seq<string>>) | RefreshGuard

  datatype Handler =
    | UserLogin | UserRegister | RefreshToken
    | UserProfileDetail | UserProfileUpdate | UserDeleteAccount
    | AdminUserList | AdminUserProfileDetail

  datatype Route = Route(verb: Verb, path: seq<Segment>, guard: Option<Guard>, handler: Handler)

  /** The mount point of the API router. */
  const Mount := "api"

  /** The route table, in registration order. */
  const Api: seq<Route> := [
    Route(Post, [Lit("login")], None, UserLogin),
    Route(Post, [Lit("register")], None, UserRegister),
    Route(Post, [Lit("refresh-token")], Some(RefreshGuard), RefreshToken),
    Route(Get, [Lit("user")], Some(AccessGuard(None)), UserProfileDetail),
    Route(Put, [Lit("user")], Some(AccessGuard(None)), UserProfileUpdate),
    Route(Delete, [Lit("user")], Some(AccessGuard(None)), UserDeleteAccount),
    Route(Get, [Lit("admin"), Lit("user")], Some(AccessGuard(Some(["admin"]))), AdminUserList),
    Route(Get, [Lit("admin"), Lit("user"), Param], Some(AccessGuard(Some(["admin"]))), AdminUserProfileDetail)
  ]

  /** The handlers that read `req.decodedToken`. */
  predicate ReadsDecodedToken(h: Handler) {
    h == UserProfileDetail || h == UserProfileUpdate || h == UserDeleteAccount
  }

  /** The handlers that read `req.decodedRefreshToken`. */
  predicate ReadsDecodedRefreshToken(h: Handler) {
    h == RefreshToken
  }

  /**
   * Route paths match without regard to ASCII letter case (the router's
   * default); a parameter matches any non-empty segment.
   */
  predicate SegmentMatches(pattern: Segment, segment: string) {
    match pattern
    case Lit(name) => ToLower(segment) == name
    case Param => segment != ""
  }

  predicate Matches(route: Route, verb: Verb, path: seq<string>) {
    route.verb == verb && |route.path| == |path|
    && forall i :: 0 <= i < |path| ==> SegmentMatches(route.path[i], path[i])
  }

  /** The first route of `routes` that matches. */
  function FirstMatch(routes: seq<Route>, verb: Verb, path: seq<string>): (r: Option<Route>)
    ensures r.Some? ==> r.value in routes && Matches(r.value, verb, path)
    ensures r.None? <==> forall i :: 0 <= i < |routes| ==> !Matches(routes[i], verb, path)
    ensures r.Some? ==> exists i :: 0 <= i < |routes| && routes[i] == r.value
                                    && forall j :: 0 <= j < i ==> !Matches(routes[j], verb, path)
  {
    if routes == [] then
      None
    else if Matches(routes[0], verb, path) then
      Some(routes[0])
    else
      var r := FirstMatch(routes[1..], verb, path);
      assert forall i :: 1 <= i < |routes| ==> routes[i] == routes[1..][i - 1];
      if r.Some? then
        var i :| 0 <= i < |routes[1..]| && routes[1..][i] == r.value
                 && forall j :: 0 <= j < i ==> !Matches(routes[1..][j], verb, path);
        assert routes[i + 1] == r.value;
        r
      else
        r
  }

  /** The route an incoming path (`/api/...`, as segments) reaches, if any. */
  function Dispatch(verb: Verb, path: seq<string>): (r: Option<Route>)
    ensures r.Some? ==> r.value in Api && |path| == |r.value.path| + 1
    ensures r.None? <==> path == [] || ToLower(path[0]) != Mount
                         || forall i :: 0 <= i < |Api| ==> !Matches(Api[i], verb, path[1..])
    ensures r.Some? ==> path != [] && ToLower(path[0]) == Mount
                        && exists i :: 0 <= i < |Api| && Api[i] == r.value && Matches(Api[i], verb, path[1..])
                                       && forall j :: 0 <= j < i ==> !Matches(Api[j], verb, path[1..])
  {
    if path != [] && ToLower(path[0]) == Mount then FirstMatch(Api, verb, path[1..]) else None
  }

  /** Every segment of a path in lower case. */
  function LowerAll(path: seq<string>): (r: seq<string>)
    ensures |r| == |path| && forall i :: 0 <= i < |path| ==> r[i] == ToLower(path[i])
  {
    if path == [] then [] else [ToLower(path[0])] + LowerAll(path[1..])
  }

  /** Whether a route matches does not depend on the letter case of the path. */
  lemma MatchesIgnoresCase(route: Route, verb: Verb, path: seq<string>)
    ensures Matches(route, verb, LowerAll(path)) == Matches(route, verb, path)
  {
    var lowered := LowerAll(path);
    forall i | 0 <= i < |path| && |route.path| == |path|
      ensures SegmentMatches(route.path[i], lowered[i]) == SegmentMatches(route.path[i], path[i])
    {
      ToLowerIdempotent(path[i]);
      ToLowerProperties(path[i]);
    }
  }

  /** Neither does which route matches first. */
  lemma {:induction false} FirstMatchIgnoresCase(routes: seq<Route>, verb: Verb, path: seq<string>)
    ensures FirstMatch(routes, verb, LowerAll(path)) == FirstMatch(routes, verb, path)
  {
    if routes != [] {
      MatchesIgnoresCase(routes[0], verb, path);
      FirstMatchIgnoresCase(routes[1..], verb, path);
    }
  }

  /** A request reaches the same route whatever the letter case of its path. */
  lemma DispatchIgnoresCase(verb: Verb, path: seq<string>)
    ensures Dispatch(verb, LowerAll(path)) == Dispatch(verb, path)
  {
    if path != [] {
      ToLowerIdempotent(path[0]);
      assert LowerAll(path)[1..] == LowerAll(path[1..]);
      FirstMatchIgnoresCase(Api, verb, path[1..]);
    }
  }

  /** What the middleware of a route decides, or None for a route without one. */
  function GuardVerdict(route: Route, authorization: Wire, refresh: Wire, secrets: Secrets, now: int): Option<Gate> {
    match route.guard
    case None => None
    case Some(AccessGuard(permission)) => Some(AccessGate(authorization, permission, secrets.access, now))
    case Some(RefreshGuard) => Some(RefreshGate(refresh, secrets.refresh, now))
  }

  /**
   * The access policy, handler by handler: which middleware must stand in
   * front of it. Login and register are open, refresh needs a refresh token,
   * the `/user` handlers an access token of any role, the admin handlers an
   * access token with the admin role.
   */
  function Policy(h: Handler): Option<Guard> {
    match h
    case UserLogin => None
    case UserRegister => None
    case RefreshToken => Some(RefreshGuard)
    case UserProfileDetail => Some(AccessGuard(None))
    case UserProfileUpdate => Some(AccessGuard(None))
    case UserDeleteAccount => Some(AccessGuard(None))
    case AdminUserList => Some(AccessGuard(Some(["admin"])))
    case AdminUserProfileDetail => Some(AccessGuard(Some(["admin"])))
  }

  /** Every route of the table puts in front of its handler the middleware the policy asks for. */
  lemma ApiFollowsPolicy()
    ensures forall r :: r in Api ==> r.guard == Policy(r.handler)
  {
    forall r | r in Api ensures r.guard == Policy(r.handler) {
      var i :| 0 <= i < |Api| && Api[i] == r;
    }
  }

  /** Login and register, and only they, run without any verification middleware. */
  lemma LoginAndRegisterAreOpen()
    ensures forall r :: r in Api ==> (r.guard == None <==> r.handler == UserLogin || r.handler == UserRegister)
  {
    ApiFollowsPolicy();
  }

  /** The refresh route runs the refresh middleware. */
  lemma RefreshRouteIsGuarded()
    ensures forall r :: r in Api && r.handler == RefreshToken ==> r.guard == Some(RefreshGuard)
  {
    ApiFollowsPolicy();
  }

  /** The three `/user` routes accept a valid access token of any role. */
  lemma ProfileRoutesAcceptAnyRole()
    ensures forall r :: r in Api && ReadsDecodedToken(r.handler) ==> r.guard == Some(AccessGuard(None))
  {
    ApiFollowsPolicy();
  }

  /** Both admin routes demand the admin role. */
  lemma AdminRoutesDemandAdmin()
    ensures forall r :: r in Api && (r.handler == AdminUserList || r.handler == AdminUserProfileDetail)
                        ==> r.guard == Some(AccessGuard(Some(["admin"])))
  {
    ApiFollowsPolicy();
  }

  /** Every handler that reads decoded claims sits behind the middleware that sets them. */
  lemma ClaimsReadersAreGuarded()
    ensures forall r :: r in Api && ReadsDecodedToken(r.handler) ==> r.guard.Some? && r.guard.value.AccessGuard?
    ensures forall r :: r in Api && ReadsDecodedRefreshToken(r.handler) ==> r.guard == Some(RefreshGuard)
  {
    ApiFollowsPolicy();
  }

  /**
   * The admin detail route is `admin/user/:username`: three segments after the
   * mount point, the last a parameter. No other route has three segments.
   */
  lemma AdminDetailHasThreeSegments()
    ensures forall r :: r in Api && r.handler == AdminUserProfileDetail ==> r.path == [Lit("admin"), Lit("user"), Param]
    ensures forall r :: r in Api && |r.path| == 3 ==> r.handler == AdminUserProfileDetail
  {
    assert forall i :: 0 <= i < 7 ==> |Api[i].path| < 3 && Api[i].handler != AdminUserProfileDetail;
  }

  /** The literals of the admin paths are their own lower-case forms. */
  lemma LowerLiterals()
    ensures ToLower("api") == "api" && ToLower("admin") == "admin" && ToLower("user") == "user"
  {
    assert IsLowerCase("api") && IsLowerCase("admin") && IsLowerCase("user");
    ToLowerFixesLowerCase("api");
    ToLowerFixesLowerCase("admin");
    ToLowerFixesLowerCase("user");
  }

  /** `GET /api/admin/user/<name>` reaches the admin detail route, whatever the name. */
  lemma AdminDetailDispatch(name: string)
    requires name != ""
    ensures Dispatch(Get, ["api", "admin", "user", name]) == Some(Api[7])
  {
    LowerLiterals();
    var rest := ["admin", "user", name];
    assert forall j :: 0 <= j < 7 ==> !Matches(Api[j], Get, rest);
    assert Matches(Api[7], Get, rest);
  }

  /** `GET /api/admin/user` reaches the admin list route. */
  lemma AdminListDispatch()
    ensures Dispatch(Get, ["api", "admin", "user"]) == Some(Api[6])
  {
    LowerLiterals();
    var rest := ["admin", "user"];
    assert forall j :: 0 <= j < 6 ==> !Matches(Api[j], Get, rest);
    assert Matches(Api[6], Get, rest);
  }

  /** The facts about one route of the table that serving a request relies on. */
  lemma RouteOfApi(route: Route)
    requires route in Api
    ensures route.guard == None <==> route.handler == UserLogin || route.handler == UserRegister
    ensures ReadsDecodedToken(route.handler) ==> route.guard.Some? && route.guard.value.AccessGuard?
    ensures ReadsDecodedRefreshToken(route.handler) ==> route.guard == Some(RefreshGuard)
    ensures route.handler == AdminUserProfileDetail ==> |route.path| == 3
  {
    LoginAndRegisterAreOpen();
    ClaimsReadersAreGuarded();
    AdminDetailHasThreeSegments();
  }

  /** `user_login` and `user_register`, which run without middleware. */
  method RunOpen(store: C.UserStore, req: Request, handler: Handler, secrets: Secrets, now: int, salt: nat)
    returns (r: Response)
    requires store.Valid()
    requires handler == UserLogin || handler == UserRegister
    modifies store
    ensures store.Valid()
    ensures handler == UserLogin ==>
              r == C.UserLogin(old(store.users), req.body, secrets, now) && store.users == old(store.users)
    ensures handler == UserRegister ==>
              C.RegisterOutcome(old(store.users), old(store.nextId), req.body, salt, secrets, now, r, store.users)
  {
    if handler == UserLogin {
      r := C.UserLogin(store.users, req.body, secrets, now);
    } else {
      r := store.UserRegister(req.body, salt, secrets, now);
    }
  }

  /** `refresh_token`, on the claims the refresh middleware stored. */
  method RunRefresh(store: C.UserStore, req: Request, secrets: Secrets, now: int) returns (r: Response)
    requires req.decodedRefreshToken.Some?
    ensures r == C.RefreshToken(store.users, req.decodedRefreshToken.value, secrets, now)
  {
    r := C.RefreshToken(store.users, req.decodedRefreshToken.value, secrets, now);
  }

  /** The three `/user` handlers, on the claims the access middleware stored: only the subject's record can change. */
  method RunProfile(store: C.UserStore, req: Request, handler: Handler, secrets: Secrets, now: int)
    returns (r: Response)
    requires store.Valid()
    requires ReadsDecodedToken(handler) && req.decodedToken.Some?
    modifies store
    ensures store.Valid()
    ensures handler == UserProfileDetail ==>
              r == C.UserProfileDetail(old(store.users), req.decodedToken.value) && store.users == old(store.users)
    ensures handler == UserProfileUpdate ==>
              C.UpdateOutcome(old(store.users), req.decodedToken.value, req.body, secrets, now, r, store.users)
    ensures handler == UserDeleteAccount ==>
              C.DeleteOutcome(old(store.users), req.decodedToken.value, req.body, r, store.users)
    ensures store.users.Keys <= old(store.users).Keys
    ensures forall k :: k in old(store.users) && k != req.decodedToken.value.payload.sub
                        ==> k in store.users && store.users[k] == old(store.users)[k]
  {
    var claims := req.decodedToken.value;
    if handler == UserProfileDetail {
      r := C.UserProfileDetail(store.users, claims);
    } else if handler == UserProfileUpdate {
      r := store.UserProfileUpdate(claims, req.body, secrets, now);
    } else {
      r := store.UserDeleteAccount(claims, req.body);
    }
  }

  /** The two admin handlers; neither writes. */
  method RunAdmin(store: C.UserStore, req: Request, handler: Handler, path: seq<string>) returns (r: Response)
    requires store.Valid()
    requires handler == AdminUserList || (handler == AdminUserProfileDetail && path != [])
    ensures handler == AdminUserList ==> r == C.AdminUserList(store.users, req.page)
    ensures handler == AdminUserProfileDetail ==> r == C.AdminUserProfileDetail(store.users, path[|path| - 1])
  {
    if handler == AdminUserList {
      r := C.AdminUserList(store.users, req.page);
    } else {
      r := C.AdminUserProfileDetail(store.users, path[|path| - 1]);
    }
  }

  /**
   * Run a route's middleware, if it has one: the answer it sends, or None when
   * control goes on to the handler, with the verified claims stored on the
   * request and `next` called once.
   */
  method RunGuard(req: Request, route: Route, secrets: Secrets, now: int) returns (sent: Option<Response>)
    modifies req`decodedToken, req`decodedRefreshToken, req`nextCalls
    ensures var verdict := GuardVerdict(route, req.authorization, req.body.refresh, secrets, now);
            match verdict
            case None =>
              sent == None && req.nextCalls == old(req.nextCalls)
              && req.decodedToken == old(req.decodedToken) && req.decodedRefreshToken == old(req.decodedRefreshToken)
            case Some(Reject(response)) =>
              sent == Some(response) && req.nextCalls == old(req.nextCalls)
              && req.decodedToken == old(req.decodedToken) && req.decodedRefreshToken == old(req.decodedRefreshToken)
            case Some(Pass(claims)) =>
              sent == None && req.nextCalls == old(req.nextCalls) + 1
              && (route.guard == Some(RefreshGuard) ==>
                    req.decodedRefreshToken == Some(claims) && req.decodedToken == old(req.decodedToken))
              && (route.guard != Some(RefreshGuard) ==>
                    req.decodedToken == Some(claims) && req.decodedRefreshToken == old(req.decodedRefreshToken))
  {
    sent := None;
    if route.guard.Some? {
      match route.guard.value
      case AccessGuard(permission) =>
        sent := VerifyToken(req, permission, secrets, now);
      case RefreshGuard =>
        sent := VerifyRefreshToken(req, secrets, now);
    }
  }

  /**
   * What handler `h` does, as a relation between the table before, the answer
   * and the table after: `access` and `refresh` are the claims the middleware
   * stored, `param` the last path segment (the `:username` of the detail route).
   */
  predicate HandlerOutcome(h: Handler, before: map<Id, User>, nextId: Id, body: Form, page: int,
                           access: Option<Claims>, refresh: Option<Claims>, param: string,
                           secrets: Secrets, now: int, salt: nat, r: Response, after: map<Id, User>)
    requires UniqueUsernames(before)
  {
    match h
    case UserLogin => r == C.UserLogin(before, body, secrets, now) && after == before
    case UserRegister => C.RegisterOutcome(before, nextId, body, salt, secrets, now, r, after)
    case RefreshToken => refresh.Some? && r == C.RefreshToken(before, refresh.value, secrets, now) && after == before
    case UserProfileDetail => access.Some? && r == C.UserProfileDetail(before, access.value) && after == before
    case UserProfileUpdate => access.Some? && C.UpdateOutcome(before, access.value, body, secrets, now, r, after)
    case UserDeleteAccount => access.Some? && C.DeleteOutcome(before, access.value, body, r, after)
    case AdminUserList => r == C.AdminUserList(before, page) && after == before
    case AdminUserProfileDetail => r == C.AdminUserProfileDetail(before, param) && after == before
  }

  /** The last segment of a path, or the empty string for an empty one. */
  function LastSegment(path: seq<string>): (r: string)
    ensures path != [] ==> r == path[|path| - 1]
  {
    if path == [] then "" else path[|path| - 1]
  }

  /** Run a route's handler once its middleware has handed control on: the handler's outcome, on the stored claims. */
  method RunRoute(store: C.UserStore, req: Request, route: Route, path: seq<string>,
                  secrets: Secrets, now: int, salt: nat) returns (r: Response)
    requires store.Valid() && route in Api
    requires route.handler == AdminUserProfileDetail ==> path != []
    requires route.guard == Some(RefreshGuard) ==> req.decodedRefreshToken.Some?
    requires route.guard.Some? && route.guard.value.AccessGuard? ==> req.decodedToken.Some?
    modifies store
    ensures store.Valid()
    ensures HandlerOutcome(route.handler, old(store.users), old(store.nextId), req.body, req.page,
                           req.decodedToken, req.decodedRefreshToken, LastSegment(path),
                           secrets, now, salt, r, store.users)
  {
    ClaimsReadersAreGuarded();
    match route.handler
    case UserLogin =>
      r := RunOpen(store, req, route.handler, secrets, now, salt);
    case UserRegister =>
      r := RunOpen(store, req, route.handler, secrets, now, salt);
    case RefreshToken =>
      r := RunRefresh(store, req, secrets, now);
    case UserProfileDetail =>
      r := RunProfile(store, req, route.handler, secrets, now);
    case UserProfileUpdate =>
      r := RunProfile(store, req, route.handler, secrets, now);
    case UserDeleteAccount =>
      r := RunProfile(store, req, route.handler, secrets, now);
    case AdminUserList =>
      r := RunAdmin(store, req, route.handler, path);
    case AdminUserProfileDetail =>
      r := RunAdmin(store, req, route.handler, path);
  }

  /**
   * Serve one request. Without a matching route the answer is 404. When the
   * route's middleware answers, that answer stands, the handler does not run
   * and the table is unchanged. Otherwise the middleware has called `next`
   * once, with the claims it verified stored on the request, and the answer
   * and the new table are the handler's outcome on them.
   */
  method Serve(store: C.UserStore, req: Request, verb: Verb, path: seq<string>,
               secrets: Secrets, now: int, salt: nat) returns (r: Response)
    requires store.Valid()
    requires req.decodedToken == None && req.decodedRefreshToken == None && req.nextCalls == 0
    modifies store, req`decodedToken, req`decodedRefreshToken, req`nextCalls
    ensures store.Valid()
    ensures Dispatch(verb, path).None? ==> r == Response(404, Failed(MsgPageNotFound)) && store.users == old(store.users)
    ensures Dispatch(verb, path).Some? ==>
              var route := Dispatch(verb, path).value;
              var verdict := GuardVerdict(route, req.authorization, req.body.refresh, secrets, now);
              && (verdict.Some? && verdict.value.Reject? ==>
                    r == verdict.value.response && store.users == old(store.users) && req.nextCalls == 0)
              && (verdict.Some? && verdict.value.Pass? ==> req.nextCalls == 1)
              && (verdict.Some? && verdict.value.Pass? && route.guard == Some(RefreshGuard) ==>
                    req.decodedRefreshToken == Some(verdict.value.claims) && req.decodedToken == None)
              && (verdict.Some? && verdict.value.Pass? && route.guard.value.AccessGuard? ==>
                    req.decodedToken == Some(verdict.value.claims) && req.decodedRefreshToken == None)
              && (verdict.None? ==> req.nextCalls == 0 && (route.handler == UserLogin || route.handler == UserRegister))
              && (verdict.None? || verdict.value.Pass? ==>
                    HandlerOutcome(route.handler, old(store.users), old(store.nextId), req.body, req.page,
                                   req.decodedToken, req.decodedRefreshToken, LastSegment(path),
                                   secrets, now, salt, r, store.users))
  {
    var found := Dispatch(verb, path);
    if found.None? {
      return Response(404, Failed(MsgPageNotFound));
    }
    var route := found.value;
    var sent := RunGuard(req, route, secrets, now);
    if sent.Some? {
      return sent.value;
    }
    RouteOfApi(route);
    r := RunRoute(store, req, route, path, secrets, now, salt);
  }
}
