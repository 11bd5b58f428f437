/**
 * The user router, mounted at `/api/v1/user`: its route table (order,
 * verbs, which routes carry `isUserAuthorized`), the length rules the
 * register and login routes declare, and the pipeline a request runs
 * through: match, authorize where guarded, validate, handle.
 */
module UserRouter {
  import opened Records
  import opened Http
  import opened Tokens
  import opened Routing
  import opened Auth
  import opened Validator
  import Password
  import UserController

  datatype Handler =
    | RegisterUser | LoginUser | GetRefreshToken | ResetPassword | GetAllUsers
    | GetUserById | UpdateUserById | DeleteUserById | LogoutUser

  /** The routes in the order the router registers them. */
  const Routes: seq<Route<Handler>> := [
    Route(POST, [Lit("register")], false, RegisterUser),
    Route(POST, [Lit("login")], false, LoginUser),
    Route(GET, [Lit("refresh-token")], false, GetRefreshToken),
    Route(POST, [Lit("reset-password")], true, ResetPassword),
    Route(GET, [Lit("all")], false, GetAllUsers),
    Route(GET, [Param], false, GetUserById),
    Route(PUT, [Param], true, UpdateUserById),
    Route(DELETE, [Param], true, DeleteUserById),
    Route(POST, [Lit("logout")], true, LogoutUser)
  ]

  predicate NeedsAuthorization(h: Handler)
  {
    h == ResetPassword || h == UpdateUserById || h == DeleteUserById || h == LogoutUser
  }

  /**
   * Reset-password, update, delete and logout pass through
   * `isUserAuthorized`; registration, login, refresh, the list and the
   * read by id do not.
   */
  lemma GuardedExactly(verb: Verb, path: seq<string>)
    requires Resolve(Routes, verb, path).Some?
    ensures Resolve(Routes, verb, path).value.guarded <==> NeedsAuthorization(Resolve(Routes, verb, path).value.handler)
  {
    var r := Resolve(Routes, verb, path).value;
    var i :| 0 <= i < |Routes| && Routes[i] == r;
    assert i < 9;
  }

  /** `GET /all` reaches the list handler: it is registered before `GET /:id`. */
  lemma AllIsNotAnId()
    ensures Resolve(Routes, GET, ["all"]) == Some(Routes[4])
    ensures Routes[4].handler == GetAllUsers
  {
    assert !SegMatches(Routes[2].pattern[0], "all") by {
      assert |"refresh-token"| != |"all"|;
    }
    ResolvesTo(Routes, GET, ["all"], 4);
  }

  /** Every other single segment on `GET` is read as a user id. */
  lemma OtherSegmentsAreIds(s: string)
    requires SegMatches(Param, s) && s != "all" && s != "refresh-token"
    ensures Resolve(Routes, GET, [s]) == Some(Routes[5])
    ensures Routes[5].handler == GetUserById
  {
    assert !PathMatches(Routes[2].pattern, [s]) && !PathMatches(Routes[4].pattern, [s]) by {
      assert [s][0] == s;
    }
    ResolvesTo(Routes, GET, [s], 5);
  }

  /** The id handler never sees the segment "all". */
  lemma IdHandlerNeverGetsAll(path: seq<string>)
    requires Resolve(Routes, GET, path).Some? && Resolve(Routes, GET, path).value.handler == GetUserById
    ensures path == [path[0]] && path[0] != "all" && path[0] != "refresh-token"
  {
    var i :| 0 <= i < |Routes| && Routes[i] == Resolve(Routes, GET, path).value
      && forall j :: 0 <= j < i ==> !RouteMatches(Routes[j], GET, path);
    assert i == 5;
    assert !RouteMatches(Routes[4], GET, path);
    assert !RouteMatches(Routes[2], GET, path);
  }

  const NAME_MSG := "name must be at least 3 characters"
  const EMAIL_MSG := "Invalid email"
  const PASSWORD_MSG := "Password must be at least 6 characters"

  /**
   * The register route's rules, in their order: name, e-mail, password, each
   * over the instances `check` finds of its field.
   */
  function RegisterErrors(names: seq<string>, emails: seq<string>, passwords: seq<string>, isEmail: string -> bool)
    : (errs: seq<FieldError>)
    ensures errs == [] <==>
      && (forall i :: 0 <= i < |names| ==> LengthCount(names[i]) >= 3)
      && (forall i :: 0 <= i < |emails| ==> isEmail(emails[i]))
      && (forall i :: 0 <= i < |passwords| ==> LengthCount(passwords[i]) >= 6)
    ensures FieldError("name", NAME_MSG) in errs <==> exists i :: 0 <= i < |names| && LengthCount(names[i]) < 3
    ensures FieldError("email", EMAIL_MSG) in errs <==> exists i :: 0 <= i < |emails| && !isEmail(emails[i])
    ensures FieldError("password", PASSWORD_MSG) in errs <==> exists i :: 0 <= i < |passwords| && LengthCount(passwords[i]) < 6
  {
    MinLength("name", names, 3, NAME_MSG) + EmailCheck("email", emails, isEmail, EMAIL_MSG)
    + MinLength("password", passwords, 6, PASSWORD_MSG)
  }

  /** The login route's rules: e-mail, then password, each over the instances of its field. */
  function LoginErrors(emails: seq<string>, passwords: seq<string>, isEmail: string -> bool): (errs: seq<FieldError>)
    ensures errs == [] <==>
      && (forall i :: 0 <= i < |emails| ==> isEmail(emails[i]))
      && (forall i :: 0 <= i < |passwords| ==> LengthCount(passwords[i]) >= 6)
    ensures FieldError("email", EMAIL_MSG) in errs <==> exists i :: 0 <= i < |emails| && !isEmail(emails[i])
    ensures FieldError("password", PASSWORD_MSG) in errs <==> exists i :: 0 <= i < |passwords| && LengthCount(passwords[i]) < 6
  {
    EmailCheck("email", emails, isEmail, EMAIL_MSG) + MinLength("password", passwords, 6, PASSWORD_MSG)
  }

  /** The body fields the user routes read; an absent field is "". */
  datatype Body = Body(name: string, email: string, password: string, oldPassword: string,
                       newPassword: string, refreshToken: string)

  /**
   * `PUT /user/:id` passes the body itself to `$set`; of its keys the model
   * merges `name` and `email`, those present replacing the stored ones.
   */
  function BodyPatch(b: Body): (p: UserController.Patch)
    ensures p.name.Some? <==> b.name != ""
    ensures p.email.Some? <==> b.email != ""
    ensures p.name.Some? ==> p.name.value == b.name
    ensures p.email.Some? ==> p.email.value == b.email
  {
    UserController.Patch(if b.name != "" then Some(b.name) else None, if b.email != "" then Some(b.email) else None)
  }

  /**
   * A request to the user router. `others` holds, for a field name, its values
   * in the cookies, headers, route parameters and query string, in that order.
   */
  datatype Request = Request(verb: Verb, path: seq<string>, headers: Headers, body: Body,
                             queryRefreshToken: string, others: map<string, seq<string>>)

  /** The instances `check(field)` validates, the body's value being `body`. */
  function Checked(req: Request, field: string, body: string): seq<string>
  {
    Instances(body, Elsewhere(req.others, field))
  }

  /** What the register route's rules report for the request. */
  function RegisterResult(req: Request, isEmail: string -> bool): seq<FieldError>
  {
    RegisterErrors(Checked(req, "name", req.body.name), Checked(req, "email", req.body.email),
                   Checked(req, "password", req.body.password), isEmail)
  }

  /** What the login route's rules report for the request. */
  function LoginResult(req: Request, isEmail: string -> bool): seq<FieldError>
  {
    LoginErrors(Checked(req, "email", req.body.email), Checked(req, "password", req.body.password), isEmail)
  }

  /** What the database, bcrypt, jwt and the e-mail validator supply while a request runs. */
  datatype Env = Env(freshId: UserId, salt: string, reissued: Claims, isEmail: string -> bool)

  /**
   * What handler `h` answers, and what it leaves in the table, once the router
   * hands it the request: the route's validation result, the `:id` segment
   * and, on a guarded route, the id of the user the token names (`requester`).
   */
  ghost predicate Handled(h: Handler, before: map<UserId, User>, after: map<UserId, User>,
                          req: Request, env: Env, requester: UserId, r: Response)
  {
    var b := req.body;
    var id := IdSegment(req.path);
    match h
    case RegisterUser =>
      var errs := RegisterResult(req, env.isEmail);
      if errs != [] then r == Response(BAD_REQUEST, Errors(errs)) && after == before
      else if UserController.EmailTaken(before, b.email) then
        r == Response(CONFLICT, Error("User already exists")) && after == before
      else
        && r == Response(CREATED, Message("User created successfully"))
        && after == before[env.freshId := User(b.name, b.email, Hash(b.password, env.salt), None)]
    case LoginUser =>
      var errs := LoginResult(req, env.isEmail);
      if errs != [] then r == Response(BAD_REQUEST, Errors(errs)) && after == before
      else if !UserController.EmailTaken(before, b.email) then
        r == Response(UNAUTHORIZED, Error("Invalid credentials")) && after == before
      else
        exists u :: u in before && before[u].email == b.email && UserController.LoginOutcome(before, after, u, b.password, r)
    case GetRefreshToken =>
      var t := req.queryRefreshToken;
      && after == before
      && (if t == "" then r == Response(UNAUTHORIZED, Error("Invalid refresh token"))
          else if !UserController.HeldByAny(before, t) then r == Response(FORBIDDEN, Error("Invalid refresh token"))
          else r.status == OK && r.body.AccessToken? && Verify(r.body.accessToken, AccessKey) == Some(env.reissued))
    case ResetPassword =>
      if !Password.RegexTest(b.newPassword) then
        r == Response(BAD_REQUEST, Error("Invalid new password format")) && after == before
      else if requester !in before then
        r == Response(BAD_REQUEST, Message("user not found")) && after == before
      else if !Matches(b.oldPassword, before[requester].password) then
        r == Response(BAD_REQUEST, Message("incorrect password")) && after == before
      else
        && r == Response(OK, Message("password updated successfully"))
        && after == before[requester := before[requester].(password := Hash(b.newPassword, env.salt))]
    case GetAllUsers =>
      r == Response(OK, UserList(before)) && after == before
    case GetUserById =>
      && after == before
      && r == (if id in before then Response(OK, UserOnly(before[id])) else Response(NOT_FOUND, Error("User not found")))
    case UpdateUserById =>
      if id !in before then r == Response(NOT_FOUND, Error("User not found")) && after == before
      else
        && after == before[id := UserController.ApplyPatch(before[id], BodyPatch(b))]
        && r == Response(OK, UserWithMessage("User updated successfully", after[id]))
    case DeleteUserById =>
      if id !in before then r == Response(NOT_FOUND, Error("User not found")) && after == before
      else after == before - {id} && r == Response(OK, UserWithMessage("User deleted successfully", before[id]))
    case LogoutUser =>
      var t := b.refreshToken;
      if t == "" then r == Response(UNAUTHORIZED, Error("Invalid refresh token")) && after == before
      else r == Response(OK, Message("Logout successful")) && after == UserController.Revoke(before, t)
  }

  /**
   * The register route's rules decide the 400: a request the router hands to
   * registration gets 400 exactly when a rule fails; an instance of a field
   * that fails its rule, in the body or in any other location, puts that
   * rule's message in the answer, and nothing is written.
   */
  lemma RegisterRulesGate(before: map<UserId, User>, after: map<UserId, User>,
                          req: Request, env: Env, requester: UserId, r: Response)
    requires Handled(RegisterUser, before, after, req, env, requester, r)
    ensures r.status == BAD_REQUEST <==> RegisterResult(req, env.isEmail) != []
    ensures var vs := Checked(req, "name", req.body.name);
      (exists i :: 0 <= i < |vs| && LengthCount(vs[i]) < 3) ==>
        r.body.Errors? && FieldError("name", NAME_MSG) in r.body.errors && after == before
    ensures var vs := Checked(req, "email", req.body.email);
      (exists i :: 0 <= i < |vs| && !env.isEmail(vs[i])) ==>
        r.body.Errors? && FieldError("email", EMAIL_MSG) in r.body.errors && after == before
    ensures var vs := Checked(req, "password", req.body.password);
      (exists i :: 0 <= i < |vs| && LengthCount(vs[i]) < 6) ==>
        r.body.Errors? && FieldError("password", PASSWORD_MSG) in r.body.errors && after == before
  {
  }

  /** The same for login: 400 exactly when a rule fails, with each failing rule's message, and nothing written. */
  lemma LoginRulesGate(before: map<UserId, User>, after: map<UserId, User>,
                       req: Request, env: Env, requester: UserId, r: Response)
    requires Handled(LoginUser, before, after, req, env, requester, r)
    ensures r.status == BAD_REQUEST <==> LoginResult(req, env.isEmail) != []
    ensures var vs := Checked(req, "email", req.body.email);
      (exists i :: 0 <= i < |vs| && !env.isEmail(vs[i])) ==>
        r.body.Errors? && FieldError("email", EMAIL_MSG) in r.body.errors && after == before
    ensures var vs := Checked(req, "password", req.body.password);
      (exists i :: 0 <= i < |vs| && LengthCount(vs[i]) < 6) ==>
        r.body.Errors? && FieldError("password", PASSWORD_MSG) in r.body.errors && after == before
  {
    if LoginResult(req, env.isEmail) == [] && UserController.EmailTaken(before, req.body.email) {
      var u :| u in before && before[u].email == req.body.email && UserController.LoginOutcome(before, after, u, req.body.password, r);
    }
  }

  /** `POST /user/register` is the registration route. */
  lemma RegisterRoute()
    ensures Resolve(Routes, POST, ["register"]) == Some(Routes[0])
  {
    ResolvesTo(Routes, POST, ["register"], 0);
  }

  /** Express calling handler `h` with the request, as user `requester` on a guarded route. */
  method Handle(store: UserController.UserStore, h: Handler, req: Request, env: Env, requester: UserId)
    returns (resp: Response)
    requires store.Valid() && env.freshId !in store.users
    modifies store
    ensures store.Valid()
    ensures Handled(h, old(store.users), store.users, req, env, requester, resp)
  {
    var b := req.body;
    match h {
      case RegisterUser =>
        resp := store.RegisterUser(RegisterResult(req, env.isEmail),
                                   b.name, b.email, b.password, env.freshId, env.salt);
      case LoginUser =>
        resp := store.LoginUser(LoginResult(req, env.isEmail), b.email, b.password);
      case GetRefreshToken =>
        if req.queryRefreshToken != "" && UserController.HeldByAny(store.users, req.queryRefreshToken) {
          var holder :| UserController.Holds(store.users, holder, req.queryRefreshToken);
          UserController.HeldTokenVerifies(store.users, holder, req.queryRefreshToken);
        }
        resp := store.GetRefreshToken(req.queryRefreshToken, env.reissued);
      case ResetPassword =>
        resp := store.ResetPassword(requester, b.oldPassword, b.newPassword, env.salt);
      case GetAllUsers =>
        resp := store.GetAllUsers();
      case GetUserById =>
        resp := store.GetUserById(IdSegment(req.path));
      case UpdateUserById =>
        resp := store.UpdateUserById(IdSegment(req.path), BodyPatch(b));
      case DeleteUserById =>
        resp := store.DeleteUserById(IdSegment(req.path));
      case LogoutUser =>
        resp := store.LogoutUser(b.refreshToken);
    }
  }

  /**
   * One request through the user router. `None` means no route matched and
   * the request falls through to the application. A guarded route answers
   * the middleware's 401 before anything else is looked at. Any other
   * matched request is answered by its handler as `Handled` describes.
   */
  method Serve(store: UserController.UserStore, req: Request, env: Env) returns (r: Option<Response>)
    requires store.Valid() && env.freshId !in store.users
    modifies store
    ensures store.Valid()
    ensures Resolve(Routes, req.verb, req.path).None? ==> r.None? && store.users == old(store.users)
    ensures Resolve(Routes, req.verb, req.path).Some? && Resolve(Routes, req.verb, req.path).value.guarded
            && Authenticate(req.headers).Reject? ==>
              r == Some(Authenticate(req.headers).response) && store.users == old(store.users)
    ensures Resolve(Routes, req.verb, req.path).Some?
            && (Resolve(Routes, req.verb, req.path).value.guarded ==> Authenticate(req.headers).Proceed?) ==>
              && r.Some?
              && Handled(Resolve(Routes, req.verb, req.path).value.handler, old(store.users), store.users,
                         req, env, Requester(req.headers), r.value)
  {
    var route := Resolve(Routes, req.verb, req.path);
    if route.None? {
      return None;
    }
    var requester := Requester(req.headers);
    if route.value.guarded {
      var ctx := new Auth.Request(req.headers);
      var denied, nextCalls := IsUserAuthorized(ctx);
      if nextCalls == 0 {
        return denied;
      }
      requester := ctx.user.value.userId;
    }
    var resp := Handle(store, route.value.handler, req, env, requester);
    r := Some(resp);
  }
}
