# Blog backend: sessions, credentials and author-only posts, in Dafny

This project models the decision logic of a small Express/Mongoose blog
backend (mounted at `/api/v1`): the user controller's account and session
handlers, the password-complexity rule of reset-password, the author-only
blog-post handlers, the `isUserAuthorized` middleware, and the two routers'
route tables, guards and length rules.

Every collection is an in-memory table: `UserController.UserStore` holds
`users: map<UserId, User>` and `BlogController.BlogStore` holds
`posts: map<PostId, Post>`. Each handler is a method of its store. It runs
the source's checks in the source's order and gives one status code per
branch. Its contract states the response and the whole new table for each
branch.

The main results:

- **Refresh-token invariant.** `UserStore.Valid()` says that every stored
  refresh token is the refresh token login signs for that same user. Every
  handler of the model keeps it, with update-by-id modelled as writing only the
  name and e-mail. From it follow `HolderUnique` (at most one user holds a
  token) and the exact status codes of refresh: 403 if and only if nobody holds
  the token. In the model, refresh's verification-failure branch is never
  reached. In the source it is: update-by-id's `$set` can store any
  `refreshToken` from the request body (see "## Left out").
- **Logout.** Logout equals `Revoke`, which clears the token from whoever holds
  it. `Revoke` is idempotent, so a second logout is a no-op success.
- **Token kinds.** `Tokens` proves that verifying with a secret accepts exactly
  the tokens signed with that secret. So the middleware, which tries only the
  access secret, refuses every refresh token.
- **Password rule.** `Password.RegexTest`'s contract makes the regular expression
  equal to the plain-words policy.
- **Author-only posts.** Every mutating blog method (and the blog router's
  `Serve`) ensures `OthersUntouched`: a post the requester did not write is
  still there, unchanged. Authors never change.
- **Routing.** `Routing.Resolve` is Express's first-match dispatch. The lemmas
  show that `GET /user/all` is never read as an id and which routes are
  guarded. The routers' `Serve` methods show that a guarded route answers the
  middleware's 401 before any validator or handler sees the body. Every other
  matched request is answered as the routers' `Handled` predicates describe:
  the route's validation result, the `:id` segment and the token's user reach
  the handler, and the handler's answer and new table follow.
- **Validation.** `Validator` models `check(field)` as express-validator applies
  it. Every instance of the field is validated: the body's value and its values
  in the cookies, headers, route parameters and query string. A rule passes only
  when every instance passes. So `POST /blog/blog-posts?title=x` gets 400 however
  good the body's title is. `isLength` counts code points, leaving out the
  variation selectors U+FE0E and U+FE0F.

Inputs the source gets from libraries, the database or the clock are
parameters: the fresh ObjectId, bcrypt's salt, `Date.now()`, the
validator's `isEmail`, and the payload re-signed at refresh.

## Model

| member | source | states |
|---|---|---|
| `Records.Hash` | src/api/v1/controller/user.js:212-213 | the salted digest records the salt it was made with, for the compare |
| `Records.Matches` | src/api/v1/controller/user.js:49 | a password matches a digest exactly when hashing it again under the digest's own salt gives that digest |
| `Records.MatchesOnlyItsPassword` | src/api/v1/controller/user.js:205-213 | a digest is matched by the password it was made from and by no other |
| `Tokens.Sign` | src/api/v1/controller/user.js:55-64 | verifying a signed token with the secret that signed it returns its payload |
| `Tokens.Verify` | src/api/v1/controller/user.js:93 | a token that verifies with a secret is that secret's tag followed by the payload returned |
| `Tokens.VerifyExactlySigned` | src/api/v1/middleware/auth.middleware.js:7 | verification with a secret yields payload `c` if and only if the token is that secret's signature over `c` |
| `Tokens.KeysSeparate` | src/api/v1/controller/user.js:57-64 | a token signed with the access secret never verifies under the refresh secret, and the other way round |
| `Tokens.SignInjective` | src/api/v1/controller/user.js:64 | equal tokens come from the same secret and the same payload |
| `Password.RegexTest` | src/api/v1/controller/user.js:192-196 | the regular expression, read with JavaScript's semantics, accepts exactly the strings of length at least 8 over `[A-Za-z0-9@$!%*?&]` that contain a lower-case letter, an upper-case letter, a digit and one of `@$!%*?&` |
| `Password.AcceptsExample` | src/api/v1/controller/user.js:192-193 | `Abcdef1!` is accepted |
| `Password.RejectsExample` | src/api/v1/controller/user.js:192-193 | `abcdefgh` is rejected |
| `Password.RejectsShort` | src/api/v1/controller/user.js:192-193 | a 7-character string with all four classes is rejected |
| `Auth.AuthHeader` | src/api/v1/middleware/auth.middleware.js:4-5 | the header is `authorization` when that is non-empty and `Authorization` otherwise; it is empty exactly when both are |
| `Auth.IndexOf` | src/api/v1/middleware/auth.middleware.js:6 | the result is the first position where the pattern occurs, or none when it occurs nowhere |
| `Auth.BearerToken` | src/api/v1/middleware/auth.middleware.js:6 | a header without `"Bearer "` is kept as it is; otherwise putting `"Bearer "` back at its first occurrence restores the header |
| `Auth.StripsBearerPrefix` | src/api/v1/middleware/auth.middleware.js:6 | for the header `"Bearer " + t` the verified token is `t`, whatever `t` contains |
| `Auth.KeepsHeaderWithoutBearer` | src/api/v1/middleware/auth.middleware.js:6 | a header that does not contain `"Bearer "` is verified as it is |
| `Auth.StripsInnerBearer` | src/api/v1/middleware/auth.middleware.js:6 | the first `"Bearer "` is removed even when it is not at the front |
| `Auth.Authenticate` | src/api/v1/middleware/auth.middleware.js:3-16 | a missing header is answered 401 "Unauthorized: Missing Headers"; otherwise the request passes exactly when the stripped token verifies with the access secret, and it passes as the payload that token was signed over; every refusal is a 401 |
| `Auth.AcceptsAccessToken` | src/api/v1/middleware/auth.middleware.js:6-14 | `"Bearer "` plus an access token lets the request through as the token's user |
| `Auth.RejectsRefreshToken` | src/api/v1/middleware/auth.middleware.js:7 | a refresh token is refused with 401 however it is presented |
| `Auth.Requester` | src/api/v1/middleware/auth.middleware.js:7-12 | the user id attached to `req.user` when the middleware passes is the one the presented access token was signed over |
| `Auth.IsUserAuthorized` | src/api/v1/middleware/auth.middleware.js:3-16 | on refusal: sends the 401, does not call `next`, leaves `req.user` alone; on success: sends nothing, sets `req.user` to the decoded payload, calls `next` exactly once |
| `UserController.HolderUnique` | src/api/v1/controller/user.js:64-66 | under the store invariant no two users hold the same refresh token |
| `UserController.HeldTokenVerifies` | src/api/v1/controller/user.js:90-94 | under the store invariant a stored refresh token verifies with the refresh secret and names its holder |
| `UserController.Revoke` | src/api/v1/controller/user.js:118-120 | after logout's write the same users remain, whoever held the token stores `null`, nobody holds it any more, and every other user is unchanged |
| `UserController.RevokeUnheld` | src/api/v1/controller/user.js:118-122 | logging out with a token nobody holds changes nothing |
| `UserController.RevokeIdempotent` | src/api/v1/controller/user.js:112-127 | logging out twice with one token leaves the same table as logging out once |
| `UserController.ApplyPatch` | src/api/v1/controller/user.js:133-137 | each field the patch carries replaces the stored one and each field it lacks is kept; the password digest and the refresh token are never touched; an empty patch changes nothing |
| `UserController.UserStore.RegisterUser` | src/api/v1/controller/user.js:7-34 | validation errors give 400 before any lookup; an e-mail already present gives 409; in both cases the table is unchanged; otherwise 201 and exactly one user is added, with a hashed password and no refresh token; e-mail uniqueness and the refresh-token invariant are preserved |
| `UserController.UserStore.LoginUser` | src/api/v1/controller/user.js:36-82 | validation errors give 400; an unknown e-mail gives 401 `{error}`; the user found by e-mail with a wrong password gives 401 `{message}`; all three leave every user unchanged; the right password gives 200 with the access and refresh tokens and the profile, stores the refresh token signed for that user (overwriting whatever was stored) and changes no one else |
| `UserController.UserStore.GetRefreshToken` | src/api/v1/controller/user.js:84-110 | an empty token gives 401; a token nobody stores gives 403; a stored token that fails verification gives 403; otherwise 200 with a new access token; the table is only read; under the invariant, 200 happens exactly when someone holds the token and 403 exactly when nobody does |
| `UserController.UserStore.LogoutUser` | src/api/v1/controller/user.js:112-127 | an empty token gives 401 and changes nothing; any other token gives 200 "Logout successful" and the table becomes `Revoke(old table, token)` |
| `UserController.UserStore.ResetPassword` | src/api/v1/controller/user.js:187-225 | checks run in order: a new password that fails the regex gives 400 whatever the user or old password; then a missing user gives 400; then a wrong old password gives 400; each leaves the table unchanged; otherwise 200 and only that user's digest is replaced by a hash of the new password |
| `UserController.UserStore.UpdateUserById` | src/api/v1/controller/user.js:129-150 | an absent id gives 404 and no change; otherwise that user becomes the merge of the patch, nothing else changes, and the updated user is returned with 200 |
| `UserController.UserStore.DeleteUserById` | src/api/v1/controller/user.js:152-168 | an absent id gives 404 and no change; otherwise exactly that user is removed and returned with 200 |
| `UserController.UserStore.GetUserById` | src/api/v1/controller/user.js:170-185 | an absent id gives 404; otherwise the stored user is returned with 200 |
| `UserController.UserStore.GetAllUsers` | src/api/v1/controller/user.js:227-235 | 200 with every stored user, no paging |
| `BlogController.Edited` | src/api/v1/controller/blog.js:76-78 | an edit replaces title, content and update time and keeps the author and creation time |
| `BlogController.OwnEditKeepsOthers` | src/api/v1/controller/blog.js:70-79 | an edit or removal of one's own post leaves every post of another author untouched and changes no author |
| `BlogController.BlogStore.GetAllBlogPosts` | src/api/v1/controller/blog.js:4-12 | 200 with every stored post, no paging |
| `BlogController.BlogStore.GetBlogPostById` | src/api/v1/controller/blog.js:15-29 | an absent id gives 404; otherwise the stored post is returned with 200 |
| `BlogController.BlogStore.CreateBlogPost` | src/api/v1/controller/blog.js:32-52 | validation errors give 400 and add nothing; otherwise 201 and exactly one post is added, whose author is the requester |
| `BlogController.BlogStore.UpdateBlogPost` | src/api/v1/controller/blog.js:55-86 | validation comes first (400 even for a missing or foreign post), then existence (404), then authorship (403), each leaving the table unchanged; an author's update changes title, content and update time of that post only; posts of other authors are never touched |
| `BlogController.BlogStore.DeleteBlogPost` | src/api/v1/controller/blog.js:89-111 | existence is checked first (404), then authorship (403), each leaving the table unchanged; the author's delete removes exactly that post; posts of other authors are never touched |
| `Routing.Resolve` | src/api/v1/router/user.js:71-79 | a route is found exactly when some registered route matches, and the route found is the first one that matches |
| `UserRouter.GuardedExactly` | src/api/v1/router/user.js:57-100 | a user route carries `isUserAuthorized` exactly when it is reset-password, `PUT /:id`, `DELETE /:id` or logout |
| `UserRouter.AllIsNotAnId` | src/api/v1/router/user.js:71-79 | `GET /all` reaches the list handler |
| `UserRouter.OtherSegmentsAreIds` | src/api/v1/router/user.js:57-79 | every other non-empty segment on `GET` (except `refresh-token`) reaches the read-by-id handler with that segment as id |
| `UserRouter.IdHandlerNeverGetsAll` | src/api/v1/router/user.js:71-79 | the read-by-id handler never receives `all` or `refresh-token` as an id |
| `Validator.Instances` | src/api/v1/router/user.js:25 | `check(field)` validates the body's value when it has one, then the field's values in the other locations; when no location has the field it validates one empty value, so there is always at least one instance |
| `Validator.LengthCount` | src/api/v1/router/user.js:26 | the length `isLength` compares is at most the number of code points, and equals it exactly when the string has no variation selector U+FE0E or U+FE0F |
| `Validator.MinLength` | src/api/v1/router/user.js:25-27 | `isLength({ min }).withMessage(msg)` yields no error exactly when every instance counts at least `min`; the message is reported exactly when some instance counts fewer; it is the only message, at most one per instance |
| `Validator.EmailCheck` | src/api/v1/router/user.js:28 | `isEmail().withMessage(msg)` yields no error exactly when the library's test accepts every instance; the message is reported exactly when it refuses one; it is the only message, at most one per instance |
| `Validator.FailingInstanceFails` | src/api/v1/router/blog.js:28-30 | a too-short value of the field in any other location fails the rule, whatever the body's value is |
| `UserRouter.RegisterErrors` | src/api/v1/router/user.js:22-34 | registration passes validation exactly when every instance of the name counts at least 3, every instance of the e-mail is valid and every instance of the password counts at least 6; each rule's message is reported exactly when one of its field's instances fails |
| `UserRouter.LoginErrors` | src/api/v1/router/user.js:41-50 | login passes validation exactly when every instance of the e-mail is valid and every instance of the password counts at least 6; each rule's message is reported exactly when one of its field's instances fails |
| `UserRouter.BodyPatch` | src/api/v1/controller/user.js:132-136 | the merge `$set` applies carries the body's name and e-mail, each exactly when the body has it |
| `UserRouter.RegisterRulesGate` | src/api/v1/router/user.js:22-34 | a request handed to registration gets 400 exactly when one of the route's rules fails on some instance, in the body or elsewhere; a short name, a short password or a bad e-mail in any location each puts its own message in the answer and writes nothing |
| `UserRouter.LoginRulesGate` | src/api/v1/router/user.js:41-50 | a request handed to login gets 400 exactly when one of the route's rules fails on some instance; a short password or a bad e-mail in any location each puts its own message in the answer and writes nothing |
| `UserRouter.RegisterRoute` | src/api/v1/router/user.js:22-23 | `POST /register` reaches the registration route |
| `UserRouter.Handle` | src/api/v1/router/user.js:22-100 | each handler runs with its route's inputs: the register and login route's validation result, the `:id` segment, the query or body token, and on reset-password the token's user; its answer and the new table are those the controller gives for them (`Handled`); the store invariant is kept |
| `UserRouter.Serve` | src/api/v1/router/user.js:22-100 | an unmatched request falls through untouched; a guarded route with a refused token answers the middleware's 401 and changes nothing; any other matched request is answered by its handler as `Handled` states, with the token's user as requester; the store invariant is kept |
| `BlogRouter.GuardedExactly` | src/api/v1/router/blog.js:12-63 | a blog route carries `isUserAuthorized` exactly when it is not a `GET` |
| `BlogRouter.PostErrors` | src/api/v1/router/blog.js:28-33 | create and update pass validation exactly when every instance of the title counts at least 3 and every instance of the content at least 10; each rule's message is reported exactly when one of its field's instances fails |
| `BlogRouter.PostRulesGate` | src/api/v1/router/blog.js:24-54 | a create or update handed on by the router gets 400 exactly when one of the rules fails on some instance; a short title or short content in any location each puts its own message in the answer and writes nothing |
| `BlogRouter.DeleteIgnoresBody` | src/api/v1/router/blog.js:59-63 | delete has no rules: its answer and the table it leaves do not depend on the title or content sent, in the body or in any other location |
| `BlogRouter.CreateRoute` | src/api/v1/router/blog.js:24-25 | `POST /blog-posts` reaches the create route |
| `BlogRouter.UpdateRoute` | src/api/v1/router/blog.js:42-43 | `PUT /blog-posts/:id` reaches the update route for every id segment |
| `BlogRouter.Handle` | src/api/v1/router/blog.js:12-63 | each handler runs with its route's inputs: create and update with the route's validation result, delete with none, the `:id` segment, and the token's user as requester; its answer and the new table are those the controller gives for them (`Handled`); a mutating handler changes only the requester's own posts and never an author |
| `BlogRouter.Serve` | src/api/v1/router/blog.js:12-63 | an unmatched request falls through; a guarded route with a refused token answers 401 whatever the body and changes nothing; any other matched request is answered by its handler as `Handled` states, with the token's user as requester; a refused token never changes any post; an accepted one can change only the token user's own posts |
| `Scenarios.RegisterTwice` | src/api/v1/controller/user.js:15-29 | two registrations with one e-mail: the first gives 201, the second 409, and exactly one user is added |
| `Scenarios.LogoutTwice` | src/api/v1/controller/user.js:112-127 | two logouts with one token both give 200 and together act as one |
| `Scenarios.ServeShortName` | src/api/v1/router/user.js:22-34 | `POST /user/register` with a two-letter name, through the router, gets 400 naming the name rule and writes nothing |
| `Scenarios.ServeAuthorUpdate` | src/api/v1/router/blog.js:42-54 | an author's `PUT /blog/blog-posts/:id` with an access token and a title and content that pass the rules, through the router, gets 200 and edits exactly that post |
| `Scenarios.ServeQueryTitle` | src/api/v1/router/blog.js:24-35 | `POST /blog/blog-posts?title=x` with a valid body and an access token, through the router, gets 400 naming the title rule and saves nothing |
| `Scenarios.EndToEnd` | src/api/v1/controller/blog.js:55-111 | register, login, pass the middleware with the access token, create, update as author, update as another user, delete, read: 201, 200, passed, 201, 200, 403, 200, 404 |

## Left out

- Auth.AuthHeader: Node lower-cases header names, so `req.headers.Authorization` is always undefined for a request that arrives over HTTP. The model keeps the fallback field so that the middleware's `||` can be stated. The middleware never reads a non-empty value from it.
- Express wiring, helmet, cors, morgan, the rate limiter, JSON parsing and `listen` (index.js) are library setup and I/O.
- bcrypt is modelled symbolically: a digest records its salt and the secret it was computed from, and a password matches exactly its own digest. Salt generation is a parameter. Real bcrypt compares only the first 72 bytes of a password, so `Records.MatchesOnlyItsPassword` ("and by no other") is stronger than bcrypt. No other proof uses that direction. The pre-save hook that hashes the password at registration belongs to the user schema, which is not part of this model. The model stores the hash directly.
- JWT layout, HMAC and expiry (`"20m"`, `ACCESS_TOKEN_EXPIRY`) are not modelled. A signed token is the secret's literal, a dot and the user id. This keeps the properties the handlers depend on: verification is exact and the two secrets never verify each other's tokens. It does not model unforgeability, the `iat` claim, or the expiry of access tokens.
- UserController.UserStore.LoginUser: without `iat`, every login of one user signs the same refresh token. In the source, jsonwebtoken adds the issue time, so logins in different seconds give different tokens. So the model does not capture two things. A re-login does not make an earlier refresh token stale, and a token cleared by logout is accepted again after that user's next login. In the source, refresh answers 403 to such a token.
- UserController.UserStore.GetRefreshToken: the payload of the new access token is a parameter. The source builds it from `user._id` of the decoded refresh payload, which carries only `userId`. The contract promises only that an access token over that payload is returned.
- `isEmail` is a parameter of the validation functions, because its definition is validator-library behaviour.
- Validator.LengthCount follows the `isLength` of current validator.js releases, which leaves out U+FE0E and U+FE0F. The library's version is not pinned among the files modelled. Dafny strings cannot hold a lone surrogate, so such an input has no counterpart in the model.
- Validator.Instances: a request's values are strings. The body's `""` stands for an absent field, so an explicit `""` in the body is read as absent; the rule fails on it either way when no other location has the field. A value that is an array is not split into its elements, and the wildcard and nested forms of `check` are not modelled. The other locations (cookies, headers, route parameters, query) come in as one map `others`, already in the library's order.
- UserController.UserStore.LogoutUser: request values are modelled as strings. `express.json()` also delivers objects, so `{"refreshToken": {"$ne": null}}` reaches `findOne` as a query operator. It then matches any user that has a token, and logout clears that user's token. The model does not capture this.
- UserController.UserStore.GetRefreshToken: the same operator injection applies. The model does not capture it either. There `jwt.verify` rejects the non-string value, and the answer is 403.
- BlogController.BlogStore.DeleteBlogPost: the model takes `blogPost.remove()` to delete the document. From Mongoose 7 on, documents have no `remove` method. The call then throws, and the answer is 500 with nothing deleted. The Mongoose version is not pinned among the files modelled.
- UserController.UserStore.UpdateUserById: the `$set` merge of arbitrary body fields is modelled for `name` and `email` only. `UserRouter.BodyPatch` reads a `""` in the body as absent, so `{"name": ""}` keeps the stored name, where `$set` would store `""`. A body that writes `password`, `refreshToken` or other keys is not modelled. How the unseen schema's indexes and hooks treat such writes is not part of this model either.
- UserController.ApplyPatch: because `Patch` cannot name `refreshToken`, the model keeps the refresh-token invariant in every state, and the source does not. An authorized `PUT /user/:id` with `{"refreshToken": "garbage"}` stores that string. Refresh with it then finds the user and fails verification (403 at the source's `jwt.verify` branch), a branch the model never reaches. Two users can also be given one token; `HolderUnique` then fails, and logout clears only the one `findOne` returns, where `Revoke` clears both.
- E-mail uniqueness is not a store invariant. Registration preserves it, but the update handler performs no check. So login's `findOne({ email })` is modelled as picking some user with that e-mail. Which document the database would return first is not modelled.
- Mongoose cast errors and database failures are not modelled. These are the `catch` branches: 400 in get/delete by id, reset-password and get-all users; 500 in the others. An absent body field is modelled as `""`. Every check the handlers make treats an absent field and `""` alike. The exception is reset-password's old-password compare: with an absent field it throws, and the answer is still 400 but with another body.
- `populate("author", "username")` on the blog reads is not modelled; posts are returned as stored.
- The schema defaults of the post timestamps are not part of this model: create sets both timestamps to the `now` parameter.
- Express's case-insensitive path matching, URL decoding and trailing-slash tolerance are not modelled; path segments are compared exactly.
- Requests that fall through both routers (including `GET /`) are outside this model; `Serve` returns `None` for them.
- async interleavings, the last-write-wins race between concurrent logins, and console logging are left out: the model handles one request at a time.
- The order of documents in list responses is not modelled: lists are returned as maps.
- The user-profile update and delete performs no ownership check: any authenticated caller may change or delete any user. The model reproduces this as written.
