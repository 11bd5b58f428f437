/**
 * The user controller: registration, login, token refresh, logout, password
 * reset and the by-id profile operations, over the user collection.
 *
 * The collection is a table from user id to user document. Each handler is a
 * method of `UserStore` that runs the source's checks in the source's order
 * and answers with one status code per branch. The database's fresh
 * ObjectId, bcrypt's salt and the validator's error array come in as
 * parameters.
 */
module UserController {
  import opened Records
  import opened Http
  import opened Tokens
  import Password

  /** The refresh token login signs for user `id`. */
  function RefreshTokenFor(id: UserId): string
  {
    Sign(RefreshKey, Claims(id))
  }

  /** The access token login signs for user `id`. */
  function AccessTokenFor(id: UserId): string
  {
    Sign(AccessKey, Claims(id))
  }

  /** User `id` currently stores `token` as its refresh token. */
  predicate Holds(users: map<UserId, User>, id: UserId, token: string)
  {
    id in users && users[id].refreshToken == Some(token)
  }

  /** `User.findOne({ refreshToken: token })` finds somebody. */
  predicate HeldByAny(users: map<UserId, User>, token: string)
  {
    exists id :: id in users && Holds(users, id, token)
  }

  /** `User.findOne({ email })` finds somebody. */
  predicate EmailTaken(users: map<UserId, User>, email: string)
  {
    exists id :: id in users && users[id].email == email
  }

  /** No two users share an e-mail address. */
  ghost predicate EmailsUnique(users: map<UserId, User>)
  {
    forall a, b :: a in users && b in users && users[a].email == users[b].email ==> a == b
  }

  /**
   * The store's invariant: a stored refresh token is always the one login
   * signed for that very user. Login writes only such tokens, logout writes
   * `null`, and update-by-id as modelled writes only name and e-mail, so every
   * handler of the model keeps it. The source's `$set` can also write a
   * `refreshToken` from the request body, which breaks it.
   */
  ghost predicate TokensBound(users: map<UserId, User>)
  {
    forall id :: id in users && users[id].refreshToken.Some? ==> users[id].refreshToken.value == RefreshTokenFor(id)
  }

  /** Under the invariant a refresh token is held by at most one user. */
  lemma HolderUnique(users: map<UserId, User>, a: UserId, b: UserId, token: string)
    requires TokensBound(users)
    requires Holds(users, a, token) && Holds(users, b, token)
    ensures a == b
  {
    SignInjective(RefreshKey, RefreshKey, Claims(a), Claims(b));
  }

  /** Under the invariant a stored refresh token verifies with the refresh secret, naming its holder. */
  lemma HeldTokenVerifies(users: map<UserId, User>, id: UserId, token: string)
    requires TokensBound(users)
    requires Holds(users, id, token)
    ensures Verify(token, RefreshKey) == Some(Claims(id))
  {
  }

  /**
   * The table after logout with `token`: the same users remain, whoever held
   * the token stores `null` instead, nobody holds it any more, and every
   * other user is unchanged.
   */
  function Revoke(users: map<UserId, User>, token: string): (r: map<UserId, User>)
    ensures r.Keys == users.Keys
    ensures forall id :: Holds(users, id, token) ==> r[id] == users[id].(refreshToken := None)
    ensures forall id :: id in users && !Holds(users, id, token) ==> r[id] == users[id]
    ensures !HeldByAny(r, token)
  {
    map id | id in users :: if users[id].refreshToken == Some(token) then users[id].(refreshToken := None) else users[id]
  }

  /** Revoking a token nobody holds changes nothing. */
  lemma RevokeUnheld(users: map<UserId, User>, token: string)
    requires !HeldByAny(users, token)
    ensures Revoke(users, token) == users
  {
    var r := Revoke(users, token);
    forall id | id in users ensures r[id] == users[id] {
      assert !Holds(users, id, token);
    }
  }

  /** Logging out twice with one token is the same as logging out once. */
  lemma RevokeIdempotent(users: map<UserId, User>, token: string)
    ensures Revoke(Revoke(users, token), token) == Revoke(users, token)
  {
    RevokeUnheld(Revoke(users, token), token);
  }

  /** What a successful login sends back for user `id`. */
  function LoginSuccess(id: UserId, u: User): Response
  {
    Response(OK, LoggedIn(AccessTokenFor(id), RefreshTokenFor(id), id, u.name, u.email, "logged in successfully"))
  }

  /**
   * How login ends once `User.findOne({ email })` has picked user `id`: a
   * wrong password leaves everything as it was; the right one stores the
   * refresh token signed for `id` (overwriting whatever was stored) and
   * changes nothing else.
   */
  ghost predicate LoginOutcome(before: map<UserId, User>, after: map<UserId, User>, id: UserId, password: string, r: Response)
    requires id in before
  {
    if Matches(password, before[id].password) then
      && after == before[id := before[id].(refreshToken := Some(RefreshTokenFor(id)))]
      && r == LoginSuccess(id, before[id])
    else
      after == before && r == Response(UNAUTHORIZED, Message("Invalid credentials"))
  }

  /**
   * `PUT /user/:id`'s `$set` merge, for the name and e-mail fields: those
   * present replace the stored ones. Other body keys are not modelled.
   */
  datatype Patch = Patch(name: Option<string>, email: Option<string>)

  function ApplyPatch(u: User, p: Patch): (u': User)
    ensures u'.password == u.password && u'.refreshToken == u.refreshToken
    ensures p.name.Some? ==> u'.name == p.name.value
    ensures p.name.None? ==> u'.name == u.name
    ensures p.email.Some? ==> u'.email == p.email.value
    ensures p.email.None? ==> u'.email == u.email
    ensures p.name.None? && p.email.None? ==> u' == u
  {
    u.(name := if p.name.Some? then p.name.value else u.name,
       email := if p.email.Some? then p.email.value else u.email)
  }

  class UserStore {
    var users: map<UserId, User>

    ghost predicate Valid()
      reads this
    {
      TokensBound(users)
    }

    constructor ()
      ensures Valid() && users == map[]
    {
      users := map[];
    }

    /** `POST /user/register`. */
    method RegisterUser(errors: seq<FieldError>, name: string, email: string, password: string,
                        newId: UserId, salt: string) returns (r: Response)
      requires Valid()
      requires newId !in users
      modifies this
      ensures Valid()
      ensures errors != [] ==> r == Response(BAD_REQUEST, Errors(errors)) && users == old(users)
      ensures errors == [] && EmailTaken(old(users), email) ==>
        r == Response(CONFLICT, Error("User already exists")) && users == old(users)
      ensures errors == [] && !EmailTaken(old(users), email) ==>
        && r == Response(CREATED, Message("User created successfully"))
        && users == old(users)[newId := User(name, email, Hash(password, salt), None)]
      ensures EmailsUnique(old(users)) ==> EmailsUnique(users)
    {
      if errors != [] {
        return Response(BAD_REQUEST, Errors(errors));
      }
      if EmailTaken(users, email) {
        return Response(CONFLICT, Error("User already exists"));
      }
      users := users[newId := User(name, email, Hash(password, salt), None)];
      r := Response(CREATED, Message("User created successfully"));
    }

    /** `POST /user/login`. */
    method LoginUser(errors: seq<FieldError>, email: string, password: string) returns (r: Response)
      requires Valid()
      modifies this
      ensures Valid()
      ensures errors != [] ==> r == Response(BAD_REQUEST, Errors(errors)) && users == old(users)
      ensures errors == [] && !EmailTaken(old(users), email) ==>
        r == Response(UNAUTHORIZED, Error("Invalid credentials")) && users == old(users)
      ensures errors == [] && EmailTaken(old(users), email) ==>
        exists id :: id in old(users) && old(users)[id].email == email && LoginOutcome(old(users), users, id, password, r)
    {
      if errors != [] {
        return Response(BAD_REQUEST, Errors(errors));
      }
      if !EmailTaken(users, email) {
        return Response(UNAUTHORIZED, Error("Invalid credentials"));
      }
      var id :| id in users && users[id].email == email;
      var user := users[id];
      if !Matches(password, user.password) {
        r := Response(UNAUTHORIZED, Message("Invalid credentials"));
        assert LoginOutcome(old(users), users, id, password, r);
        return;
      }
      var accessToken := AccessTokenFor(id);
      var refreshToken := RefreshTokenFor(id);
      users := users[id := user.(refreshToken := Some(refreshToken))];
      r := Response(OK, LoggedIn(accessToken, refreshToken, id, user.name, user.email, "logged in successfully"));
      assert LoginOutcome(old(users), users, id, password, r);
    }

    /**
     * `GET /user/refresh-token?refreshToken=token`. `reissued` is the payload
     * the new access token is signed over; the refresh token is not rotated
     * and the table is only read.
     */
    method GetRefreshToken(token: string, reissued: Claims) returns (r: Response)
      ensures token == "" ==> r == Response(UNAUTHORIZED, Error("Invalid refresh token"))
      ensures token != "" && !HeldByAny(users, token) ==> r == Response(FORBIDDEN, Error("Invalid refresh token"))
      ensures token != "" && HeldByAny(users, token) && Verify(token, RefreshKey).None? ==>
        r == Response(FORBIDDEN, Error("Invalid refresh token"))
      ensures token != "" && HeldByAny(users, token) && Verify(token, RefreshKey).Some? ==>
        r.status == OK && r.body.AccessToken? && Verify(r.body.accessToken, AccessKey) == Some(reissued)
      ensures Valid() ==> (r.status == OK <==> token != "" && HeldByAny(users, token))
      ensures Valid() ==> (r.status == FORBIDDEN <==> token != "" && !HeldByAny(users, token))
    {
      if token == "" {
        return Response(UNAUTHORIZED, Error("Invalid refresh token"));
      }
      if !HeldByAny(users, token) {
        return Response(FORBIDDEN, Error("Invalid refresh token"));
      }
      ghost var holder :| Holds(users, holder, token);
      if Valid() {
        HeldTokenVerifies(users, holder, token);
      }
      var decoded := Verify(token, RefreshKey);
      if decoded.None? {
        return Response(FORBIDDEN, Error("Invalid refresh token"));
      }
      var accessToken := Sign(AccessKey, reissued);
      r := Response(OK, AccessToken(accessToken));
    }

    /** `POST /user/logout` with `refreshToken` in the body. */
    method LogoutUser(token: string) returns (r: Response)
      requires Valid()
      modifies this
      ensures Valid()
      ensures token == "" ==> r == Response(UNAUTHORIZED, Error("Invalid refresh token")) && users == old(users)
      ensures token != "" ==> r == Response(OK, Message("Logout successful")) && users == Revoke(old(users), token)
    {
      if token == "" {
        return Response(UNAUTHORIZED, Error("Invalid refresh token"));
      }
      if HeldByAny(users, token) {
        var id :| Holds(users, id, token);
        forall other | Holds(users, other, token) ensures other == id {
          HolderUnique(users, other, id, token);
        }
        users := users[id := users[id].(refreshToken := None)];
        forall k | k in old(users) ensures users[k] == Revoke(old(users), token)[k] {
          if k != id {
            assert !Holds(old(users), k, token);
          }
        }
        assert users == Revoke(old(users), token);
      } else {
        RevokeUnheld(users, token);
      }
      r := Response(OK, Message("Logout successful"));
    }

    /**
     * `POST /user/reset-password`, by the user the access token names. The
     * new password's format is checked first, then that the user exists,
     * then the old password; each failure is a 400.
     */
    method ResetPassword(userId: UserId, oldPassword: string, newPassword: string, salt: string)
      returns (r: Response)
      requires Valid()
      modifies this
      ensures Valid()
      ensures !Password.RegexTest(newPassword) ==>
        r == Response(BAD_REQUEST, Error("Invalid new password format")) && users == old(users)
      ensures Password.RegexTest(newPassword) && userId !in old(users) ==>
        r == Response(BAD_REQUEST, Message("user not found")) && users == old(users)
      ensures Password.RegexTest(newPassword) && userId in old(users) && !Matches(oldPassword, old(users)[userId].password) ==>
        r == Response(BAD_REQUEST, Message("incorrect password")) && users == old(users)
      ensures Password.RegexTest(newPassword) && userId in old(users) && Matches(oldPassword, old(users)[userId].password) ==>
        && r == Response(OK, Message("password updated successfully"))
        && users == old(users)[userId := old(users)[userId].(password := Hash(newPassword, salt))]
    {
      if !Password.RegexTest(newPassword) {
        return Response(BAD_REQUEST, Error("Invalid new password format"));
      }
      if userId !in users {
        return Response(BAD_REQUEST, Message("user not found"));
      }
      var user := users[userId];
      if !Matches(oldPassword, user.password) {
        return Response(BAD_REQUEST, Message("incorrect password"));
      }
      var hashed := Hash(newPassword, salt);
      users := users[userId := user.(password := hashed)];
      r := Response(OK, Message("password updated successfully"));
    }

    /** `PUT /user/:id`: merge the patch into the stored user. */
    method UpdateUserById(id: UserId, patch: Patch) returns (r: Response)
      requires Valid()
      modifies this
      ensures Valid()
      ensures id !in old(users) ==> r == Response(NOT_FOUND, Error("User not found")) && users == old(users)
      ensures id in old(users) ==>
        && users == old(users)[id := ApplyPatch(old(users)[id], patch)]
        && r == Response(OK, UserWithMessage("User updated successfully", users[id]))
    {
      if id !in users {
        return Response(NOT_FOUND, Error("User not found"));
      }
      var updated := ApplyPatch(users[id], patch);
      users := users[id := updated];
      r := Response(OK, UserWithMessage("User updated successfully", updated));
    }

    /** `DELETE /user/:id`. */
    method DeleteUserById(id: UserId) returns (r: Response)
      requires Valid()
      modifies this
      ensures Valid()
      ensures id !in old(users) ==> r == Response(NOT_FOUND, Error("User not found")) && users == old(users)
      ensures id in old(users) ==>
        && users == old(users) - {id}
        && r == Response(OK, UserWithMessage("User deleted successfully", old(users)[id]))
    {
      if id !in users {
        return Response(NOT_FOUND, Error("User not found"));
      }
      var deleted := users[id];
      users := users - {id};
      r := Response(OK, UserWithMessage("User deleted successfully", deleted));
    }

    /** `GET /user/:id`. */
    method GetUserById(id: UserId) returns (r: Response)
      ensures id !in users ==> r == Response(NOT_FOUND, Error("User not found"))
      ensures id in users ==> r == Response(OK, UserOnly(users[id]))
    {
      if id !in users {
        return Response(NOT_FOUND, Error("User not found"));
      }
      r := Response(OK, UserOnly(users[id]));
    }

    /** `GET /user/all`: every user, no paging. */
    method GetAllUsers() returns (r: Response)
      ensures r.status == OK && r.body.UserList? && r.body.users == users
    {
      r := Response(OK, UserList(users));
    }
  }
}
