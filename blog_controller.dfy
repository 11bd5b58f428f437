/**
 * The blog-post controller: list, read, create, and the author-only update
 * and delete, over the post collection.
 *
 * `requester` is the `userId` of the payload the middleware attached to the
 * request; `now` is the clock reading `Date.now()` returns; `newId` is the
 * ObjectId the database gives a new post.
 */
module BlogController {
  import opened Records
  import opened Http

  /**
   * The author-only policy as a frame: every post whose author is not the
   * requester is still there, unchanged.
   */
  ghost predicate OthersUntouched(before: map<PostId, Post>, after: map<PostId, Post>, requester: UserId)
  {
    forall id :: id in before && before[id].author != requester ==> id in after && after[id] == before[id]
  }

  /** No post that survives changes its author. */
  ghost predicate AuthorsKept(before: map<PostId, Post>, after: map<PostId, Post>)
  {
    forall id :: id in before && id in after ==> after[id].author == before[id].author
  }

  /** The post after an update by its author: title, content and update time replaced. */
  function Edited(p: Post, title: string, content: string, now: int): (q: Post)
    ensures q.author == p.author && q.createdAt == p.createdAt
    ensures q.title == title && q.content == content && q.updatedAt == now
  {
    p.(title := title, content := content, updatedAt := now)
  }

  /** A single edit or removal by `requester` of one of its own posts leaves everyone else's alone. */
  lemma OwnEditKeepsOthers(posts: map<PostId, Post>, id: PostId, requester: UserId, title: string, content: string, now: int)
    requires id in posts && posts[id].author == requester
    ensures OthersUntouched(posts, posts[id := Edited(posts[id], title, content, now)], requester)
    ensures OthersUntouched(posts, posts - {id}, requester)
    ensures AuthorsKept(posts, posts[id := Edited(posts[id], title, content, now)])
  {
  }

  class BlogStore {
    var posts: map<PostId, Post>

    constructor ()
      ensures posts == map[]
    {
      posts := map[];
    }

    /** `GET /blog/blog-posts`: every post, no paging. */
    method GetAllBlogPosts() returns (r: Response)
      ensures r.status == OK && r.body.PostList? && r.body.posts == posts
    {
      r := Response(OK, PostList(posts));
    }

    /** `GET /blog/blog-posts/:id`. */
    method GetBlogPostById(id: PostId) returns (r: Response)
      ensures id !in posts ==> r == Response(NOT_FOUND, Message("Blog post not found"))
      ensures id in posts ==> r == Response(OK, PostOnly(posts[id]))
    {
      if id !in posts {
        return Response(NOT_FOUND, Message("Blog post not found"));
      }
      r := Response(OK, PostOnly(posts[id]));
    }

    /** `POST /blog/blog-posts`: the new post's author is the requester. */
    method CreateBlogPost(errors: seq<FieldError>, title: string, content: string, requester: UserId,
                          newId: PostId, now: int) returns (r: Response)
      requires newId !in posts
      modifies this
      ensures errors != [] ==> r == Response(BAD_REQUEST, Errors(errors)) && posts == old(posts)
      ensures errors == [] ==>
        && r == Response(CREATED, Message("Blog post created successfully"))
        && posts == old(posts)[newId := Post(title, content, requester, now, now)]
      ensures OthersUntouched(old(posts), posts, requester) && AuthorsKept(old(posts), posts)
    {
      if errors != [] {
        return Response(BAD_REQUEST, Errors(errors));
      }
      posts := posts[newId := Post(title, content, requester, now, now)];
      r := Response(CREATED, Message("Blog post created successfully"));
    }

    /**
     * `PUT /blog/blog-posts/:id`: the body's validation result is checked
     * first, then that the post exists, then that the requester wrote it.
     */
    method UpdateBlogPost(errors: seq<FieldError>, id: PostId, title: string, content: string,
                          requester: UserId, now: int) returns (r: Response)
      modifies this
      ensures errors != [] ==> r == Response(BAD_REQUEST, Errors(errors)) && posts == old(posts)
      ensures errors == [] && id !in old(posts) ==>
        r == Response(NOT_FOUND, Message("Blog post not found")) && posts == old(posts)
      ensures errors == [] && id in old(posts) && old(posts)[id].author != requester ==>
        r == Response(FORBIDDEN, Message("You are not authorized to update this blog post")) && posts == old(posts)
      ensures errors == [] && id in old(posts) && old(posts)[id].author == requester ==>
        && r == Response(OK, Message("Blog post updated successfully"))
        && posts == old(posts)[id := Edited(old(posts)[id], title, content, now)]
      ensures OthersUntouched(old(posts), posts, requester) && AuthorsKept(old(posts), posts)
    {
      if errors != [] {
        return Response(BAD_REQUEST, Errors(errors));
      }
      if id !in posts {
        return Response(NOT_FOUND, Message("Blog post not found"));
      }
      var post := posts[id];
      if post.author != requester {
        return Response(FORBIDDEN, Message("You are not authorized to update this blog post"));
      }
      OwnEditKeepsOthers(posts, id, requester, title, content, now);
      post := post.(title := title, content := content, updatedAt := now);
      posts := posts[id := post];
      r := Response(OK, Message("Blog post updated successfully"));
    }

    /** `DELETE /blog/blog-posts/:id`: existence is checked before authorship. */
    method DeleteBlogPost(id: PostId, requester: UserId) returns (r: Response)
      modifies this
      ensures id !in old(posts) ==> r == Response(NOT_FOUND, Message("Blog post not found")) && posts == old(posts)
      ensures id in old(posts) && old(posts)[id].author != requester ==>
        r == Response(FORBIDDEN, Message("You are not authorized to delete this blog post")) && posts == old(posts)
      ensures id in old(posts) && old(posts)[id].author == requester ==>
        r == Response(OK, Message("Blog post deleted successfully")) && posts == old(posts) - {id}
      ensures OthersUntouched(old(posts), posts, requester) && AuthorsKept(old(posts), posts)
    {
      if id !in posts {
        return Response(NOT_FOUND, Message("Blog post not found"));
      }
      if posts[id].author != requester {
        return Response(FORBIDDEN, Message("You are not authorized to delete this blog post"));
      }
      posts := posts - {id};
      r := Response(OK, Message("Blog post deleted successfully"));
    }
  }
}
