/**
 * Call sequences whose outcomes follow from the handlers' and routers'
 * contracts alone.
 */
module Scenarios {
  import opened Records
  import opened Http
  import opened Tokens
  import opened Auth
  import opened UserController
  import opened BlogController
  import Routing
  import UserRouter
  import BlogRouter
  import opened Validator

  /** Registering two accounts with one e-mail: the first is created, the second gets 409 and adds nobody. */
  method RegisterTwice(store: UserStore, name: string, email: string, password: string,
                       id1: UserId, id2: UserId, salt: string) returns (first: Response, second: Response)
    requires store.Valid() && id1 != id2 && id1 !in store.users && id2 !in store.users
    requires !EmailTaken(store.users, email)
    modifies store
    ensures first.status == CREATED && second.status == CONFLICT
    ensures store.users == old(store.users)[id1 := User(name, email, Hash(password, salt), None)]
  {
    first := store.RegisterUser([], name, email, password, id1, salt);
    assert store.users[id1].email == email;
    second := store.RegisterUser([], name, email, password, id2, salt);
  }

  /** Logging out twice with one token: both succeed, and the second changes nothing. */
  method LogoutTwice(store: UserStore, token: string) returns (first: Response, second: Response)
    requires store.Valid() && token != ""
    modifies store
    ensures first == second == Response(OK, Message("Logout successful"))
    ensures store.users == Revoke(old(store.users), token)
  {
    first := store.LogoutUser(token);
    second := store.LogoutUser(token);
    RevokeIdempotent(old(store.users), token);
  }

  /**
   * Register, log in, pass the middleware with the access token
   * (`passed`), create a post as the identity it attaches,
   * update it as its author (200) and as somebody else (403), delete it as
   * its author (200), then read it (404).
   */
  method EndToEnd() returns (passed: bool, statuses: seq<nat>)
    ensures passed
    ensures statuses == [CREATED, OK, CREATED, OK, FORBIDDEN, OK, NOT_FOUND]
  {
    var users := new UserStore();
    var posts := new BlogStore();
    var r1 := users.RegisterUser([], "Alice", "alice@example.com", "s3cret!", "u1", "salt");
    assert !EmailTaken(map[], "alice@example.com");
    assert users.users.Keys == {"u1"};
    var r2 := users.LoginUser([], "alice@example.com", "s3cret!");
    var access := r2.body.accessToken;

    var ctx := new Auth.Request(Headers(BEARER + access, ""));
    AcceptsAccessToken(ctx.headers, Claims("u1"));
    var denied, nextCalls := IsUserAuthorized(ctx);
    passed := nextCalls == 1;
    var alice := if ctx.user.Some? then ctx.user.value.userId else "";

    var r4 := posts.CreateBlogPost([], "Hello", "First post!", alice, "p1", 1);
    var r5 := posts.UpdateBlogPost([], "p1", "Hello again", "Edited post!", alice, 2);
    var r6 := posts.UpdateBlogPost([], "p1", "Mine now", "Not my post!", "u2", 3);
    var r7 := posts.DeleteBlogPost("p1", alice);
    var r8 := posts.GetBlogPostById("p1");
    statuses := [r1.status, r2.status, r4.status, r5.status, r6.status, r7.status, r8.status];
  }

  /** `POST /user/register` with a two-letter name, through the router: 400 naming the name rule, nothing written. */
  method ServeShortName(store: UserStore, env: UserRouter.Env, email: string, password: string)
    returns (r: Option<Response>)
    requires store.Valid() && env.freshId !in store.users
    modifies store
    ensures r.Some? && r.value.status == BAD_REQUEST && r.value.body.Errors?
    ensures FieldError("name", UserRouter.NAME_MSG) in r.value.body.errors
    ensures store.users == old(store.users)
  {
    var req := UserRouter.Request(POST, ["register"], Headers("", ""),
                                  UserRouter.Body("ab", email, password, "", "", ""), "", map[]);
    UserRouter.RegisterRoute();
    r := UserRouter.Serve(store, req, env);
    assert UserRouter.Checked(req, "name", "ab")[0] == "ab" && LengthCount("ab") < 3;
    UserRouter.RegisterRulesGate(old(store.users), store.users, req, env, Requester(req.headers), r.value);
  }

  /**
   * An author's `PUT /blog/blog-posts/:id` with an access token and a title
   * and content that pass the rules, through the router: 200, and that post
   * is edited.
   */
  method ServeAuthorUpdate(store: BlogStore, env: BlogRouter.Env, author: UserId, id: PostId,
                           title: string, content: string) returns (r: Option<Response>)
    requires env.freshId !in store.posts && Routing.SegMatches(Routing.Param, id)
    requires id in store.posts && store.posts[id].author == author
    requires LengthCount(title) >= 3 && LengthCount(content) >= 10
    modifies store
    ensures r == Some(Response(OK, Message("Blog post updated successfully")))
    ensures store.posts == old(store.posts)[id := Edited(old(store.posts)[id], title, content, env.now)]
  {
    var headers := Headers(BEARER + AccessTokenFor(author), "");
    AcceptsAccessToken(headers, Claims(author));
    var req := BlogRouter.Request(PUT, ["blog-posts", id], headers, title, content, map[]);
    BlogRouter.UpdateRoute(id);
    r := BlogRouter.Serve(store, req, env);
  }

  /**
   * `POST /blog/blog-posts?title=x` with a valid body and an access token,
   * through the router: the query's title fails its rule, so the answer is
   * 400 with the title message and no post is saved.
   */
  method ServeQueryTitle(store: BlogStore, env: BlogRouter.Env, author: UserId) returns (r: Option<Response>)
    requires env.freshId !in store.posts
    modifies store
    ensures r.Some? && r.value.status == BAD_REQUEST && r.value.body.Errors?
    ensures FieldError("title", BlogRouter.TITLE_MSG) in r.value.body.errors
    ensures store.posts == old(store.posts)
  {
    var headers := Headers(BEARER + AccessTokenFor(author), "");
    AcceptsAccessToken(headers, Claims(author));
    var req := BlogRouter.Request(POST, ["blog-posts"], headers, "Hello", "First post!", map["title" := ["x"]]);
    BlogRouter.CreateRoute();
    r := BlogRouter.Serve(store, req, env);
    FailingInstanceFails("title", "Hello", ["x"], 0, 3, BlogRouter.TITLE_MSG);
    BlogRouter.PostRulesGate(BlogRouter.CreateBlogPost, old(store.posts), store.posts, req, env, Requester(headers), r.value);
  }
}
