/**
 * The blog router, mounted at `/api/v1/blog`: five routes under
 * `/blog-posts`, the guard on the three that change posts, and the title
 * and content length rules on create and update. On those two the guard is
 * registered before the rules, so authorization is decided first.
 */
module BlogRouter {
  import opened Records
  import opened Http
  import opened Tokens
  import opened Routing
  import opened Auth
  import opened Validator
  import BlogController

  datatype Handler = GetAllBlogPosts | GetBlogPostById | CreateBlogPost | UpdateBlogPost | DeleteBlogPost

  /** The routes in the order the router registers them. */
  const Routes: seq<Route<Handler>> := [
    Route(GET, [Lit("blog-posts")], false, GetAllBlogPosts),
    Route(GET, [Lit("blog-posts"), Param], false, GetBlogPostById),
    Route(POST, [Lit("blog-posts")], true, CreateBlogPost),
    Route(PUT, [Lit("blog-posts"), Param], true, UpdateBlogPost),
    Route(DELETE, [Lit("blog-posts"), Param], true, DeleteBlogPost)
  ]

  /** Create, update and delete carry `isUserAuthorized`; the two reads do not. */
  lemma GuardedExactly(verb: Verb, path: seq<string>)
    requires Resolve(Routes, verb, path).Some?
    ensures Resolve(Routes, verb, path).value.guarded <==> verb != GET
  {
    var r := Resolve(Routes, verb, path).value;
    var i :| 0 <= i < |Routes| && Routes[i] == r && RouteMatches(r, verb, path);
    assert i < 5;
  }

  const TITLE_MSG := "Title must be at least 3 characters"
  const CONTENT_MSG := "Content must be at least 10 characters"

  /**
   * The rules create and update share, over the instances `check` finds: every
   * title of 3 characters or more, every content of 10 or more.
   */
  function PostErrors(titles: seq<string>, contents: seq<string>): (errs: seq<FieldError>)
    ensures errs == [] <==>
      && (forall i :: 0 <= i < |titles| ==> LengthCount(titles[i]) >= 3)
      && (forall i :: 0 <= i < |contents| ==> LengthCount(contents[i]) >= 10)
    ensures FieldError("title", TITLE_MSG) in errs <==> exists i :: 0 <= i < |titles| && LengthCount(titles[i]) < 3
    ensures FieldError("content", CONTENT_MSG) in errs <==> exists i :: 0 <= i < |contents| && LengthCount(contents[i]) < 10
  {
    MinLength("title", titles, 3, TITLE_MSG) + MinLength("content", contents, 10, CONTENT_MSG)
  }

  /**
   * A request to the blog router. `title` and `content` are the body's, ""
   * when absent; `others` holds, for a field name, its values in the cookies,
   * headers, route parameters and query string, in that order.
   */
  datatype Request = Request(verb: Verb, path: seq<string>, headers: Headers, title: string, content: string,
                             others: map<string, seq<string>>)

  /** What the create and update rules report for the request. */
  function PostResult(req: Request): seq<FieldError>
  {
    PostErrors(Instances(req.title, Elsewhere(req.others, "title")), Instances(req.content, Elsewhere(req.others, "content")))
  }

  /** What the database and the clock supply while a request runs. */
  datatype Env = Env(freshId: PostId, now: int)

  /**
   * What handler `h` answers, and what it leaves in the post table, once the
   * router hands it the request: create and update get the route's
   * validation result, delete gets none, and the guarded three act as
   * `requester`, the user the token names.
   */
  ghost predicate Handled(h: Handler, before: map<PostId, Post>, after: map<PostId, Post>,
                          req: Request, env: Env, requester: UserId, r: Response)
  {
    var id := IdSegment(req.path);
    var errs := PostResult(req);
    match h
    case GetAllBlogPosts =>
      r == Response(OK, PostList(before)) && after == before
    case GetBlogPostById =>
      && after == before
      && r == (if id in before then Response(OK, PostOnly(before[id])) else Response(NOT_FOUND, Message("Blog post not found")))
    case CreateBlogPost =>
      if errs != [] then r == Response(BAD_REQUEST, Errors(errs)) && after == before
      else
        && r == Response(CREATED, Message("Blog post created successfully"))
        && after == before[env.freshId := Post(req.title, req.content, requester, env.now, env.now)]
    case UpdateBlogPost =>
      if errs != [] then r == Response(BAD_REQUEST, Errors(errs)) && after == before
      else if id !in before then r == Response(NOT_FOUND, Message("Blog post not found")) && after == before
      else if before[id].author != requester then
        r == Response(FORBIDDEN, Message("You are not authorized to update this blog post")) && after == before
      else
        && r == Response(OK, Message("Blog post updated successfully"))
        && after == before[id := BlogController.Edited(before[id], req.title, req.content, env.now)]
    case DeleteBlogPost =>
      if id !in before then r == Response(NOT_FOUND, Message("Blog post not found")) && after == before
      else if before[id].author != requester then
        r == Response(FORBIDDEN, Message("You are not authorized to delete this blog post")) && after == before
      else r == Response(OK, Message("Blog post deleted successfully")) && after == before - {id}
  }

  /**
   * Create and update: 400 exactly when a rule fails, each failing rule's
   * message in the answer, and nothing written.
   */
  lemma PostRulesGate(h: Handler, before: map<PostId, Post>, after: map<PostId, Post>,
                      req: Request, env: Env, requester: UserId, r: Response)
    requires h == CreateBlogPost || h == UpdateBlogPost
    requires Handled(h, before, after, req, env, requester, r)
    ensures r.status == BAD_REQUEST <==> PostResult(req) != []
    ensures var vs := Instances(req.title, Elsewhere(req.others, "title"));
      (exists i :: 0 <= i < |vs| && LengthCount(vs[i]) < 3) ==>
        r.body.Errors? && FieldError("title", TITLE_MSG) in r.body.errors && after == before
    ensures var vs := Instances(req.content, Elsewhere(req.others, "content"));
      (exists i :: 0 <= i < |vs| && LengthCount(vs[i]) < 10) ==>
        r.body.Errors? && FieldError("content", CONTENT_MSG) in r.body.errors && after == before
  {
  }

  /**
   * Delete applies no rules: what it answers and leaves does not depend on the
   * title or content sent, in the body or anywhere else.
   */
  lemma DeleteIgnoresBody(before: map<PostId, Post>, after: map<PostId, Post>, req: Request, env: Env,
                          requester: UserId, r: Response, title: string, content: string, others: map<string, seq<string>>)
    ensures Handled(DeleteBlogPost, before, after, req, env, requester, r)
        <==> Handled(DeleteBlogPost, before, after, req.(title := title, content := content, others := others), env, requester, r)
  {
  }

  /** `POST /blog/blog-posts` is the create route. */
  lemma CreateRoute()
    ensures Resolve(Routes, POST, ["blog-posts"]) == Some(Routes[2])
  {
    ResolvesTo(Routes, POST, ["blog-posts"], 2);
  }

  /** `PUT /blog/blog-posts/:id` is the update route. */
  lemma UpdateRoute(id: PostId)
    requires SegMatches(Param, id)
    ensures Resolve(Routes, PUT, ["blog-posts", id]) == Some(Routes[3])
  {
    ResolvesTo(Routes, PUT, ["blog-posts", id], 3);
  }

  /** Express calling handler `h` with the request, as user `requester` on a guarded route. */
  method Handle(store: BlogController.BlogStore, h: Handler, req: Request, env: Env, requester: UserId)
    returns (resp: Response)
    requires env.freshId !in store.posts
    modifies store
    ensures Handled(h, old(store.posts), store.posts, req, env, requester, resp)
    ensures h != GetAllBlogPosts && h != GetBlogPostById ==>
      BlogController.OthersUntouched(old(store.posts), store.posts, requester)
      && BlogController.AuthorsKept(old(store.posts), store.posts)
  {
    var id := IdSegment(req.path);
    match h {
      case GetAllBlogPosts =>
        resp := store.GetAllBlogPosts();
      case GetBlogPostById =>
        resp := store.GetBlogPostById(id);
      case CreateBlogPost =>
        resp := store.CreateBlogPost(PostResult(req), req.title, req.content, requester, env.freshId, env.now);
      case UpdateBlogPost =>
        resp := store.UpdateBlogPost(PostResult(req), id, req.title, req.content, requester, env.now);
      case DeleteBlogPost =>
        resp := store.DeleteBlogPost(id, requester);
    }
  }

  /**
   * One request through the blog router. `None` means no route matched. A
   * guarded route answers the middleware's 401 whatever the body holds; any
   * other matched request is answered by its handler as `Handled` describes,
   * a guarded one as the user the token names.
   */
  method Serve(store: BlogController.BlogStore, req: Request, env: Env) returns (r: Option<Response>)
    requires env.freshId !in store.posts
    modifies store
    ensures Resolve(Routes, req.verb, req.path).None? ==> r.None? && store.posts == old(store.posts)
    ensures Resolve(Routes, req.verb, req.path).Some? && Resolve(Routes, req.verb, req.path).value.guarded
            && Authenticate(req.headers).Reject? ==>
              r == Some(Authenticate(req.headers).response) && store.posts == old(store.posts)
    ensures Resolve(Routes, req.verb, req.path).Some?
            && (Resolve(Routes, req.verb, req.path).value.guarded ==> Authenticate(req.headers).Proceed?) ==>
              && r.Some?
              && Handled(Resolve(Routes, req.verb, req.path).value.handler, old(store.posts), store.posts,
                         req, env, Requester(req.headers), r.value)
    ensures Authenticate(req.headers).Proceed? ==>
              BlogController.OthersUntouched(old(store.posts), store.posts, Requester(req.headers))
    ensures Authenticate(req.headers).Reject? ==> store.posts == old(store.posts)
  {
    var route := Resolve(Routes, req.verb, req.path);
    if route.None? {
      return None;
    }
    var requester := Requester(req.headers);
    if route.value.guarded {
      var ctx := new Auth.Request(req.headers);
      var denied, nextCalls := IsUserAuthorized(ctx);
      if nextCalls == 0 {
        return denied;
      }
      requester := ctx.user.value.userId;
    }
    var resp := Handle(store, route.value.handler, req, env, requester);
    r := Some(resp);
  }
}
