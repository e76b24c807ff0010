/** `PostService`: each service method as a transition from one store to the
    next, returning the new store and the response, or the exception the
    method throws. A failed call changes nothing: every write in the source
    comes after the last check that can throw.

    Values that come from outside the store are parameters: the id the
    database assigns to a new document (fresh by `requires`), the `slugify`
    library as an opaque function, and the random suffix of a new slug. */
module PostService {
  import opened Http
  import opened Store
  import opened Seqs

  /** The request body of a create or update: every field may be absent. */
  datatype PostInput = PostInput(title: Option<string>, content: Option<string>, categories: Option<seq<string>>)

  datatype CommentResponse = CommentResponse(post: Post, comment: string)

  /** `getSlug`: the slugified title, a dash, and a random suffix. */
  function GetSlug(slugify: string -> string, title: string, suffix: string): (slug: string)
    ensures |slug| > |slugify(title)|
    ensures slug[..|slugify(title)|] == slugify(title) && slug[|slugify(title)|] == '-'
    ensures slug[|slugify(title)| + 1..] == suffix
  {
    slugify(title) + "-" + suffix
  }

  /** `slugify` rejects a title that is not a string by throwing. */
  const SlugifyFailure := Error(ServerError, "slugify: string argument expected")

  /* ----------------------------------------------------------------------
   * Post CRUD
   * -------------------------------------------------------------------- */

  /** `createPost`: a new post with zeroed counters, owned by `author`. */
  function CreatePost(db: Db, author: UserId, input: PostInput, id: PostId,
                      slugify: string -> string, suffix: string): (r: Result<Step<Db, PostView>>)
    requires id !in db.posts
    ensures r.Err? <==> input.title.None?
    ensures r.Err? ==> r.error == SlugifyFailure
    ensures r.Ok? ==>
      var db' := r.value.db;
      && id in db'.posts
      && db'.posts == db.posts[id := db'.posts[id]]
      && db'.users == db.users && db'.comments == db.comments && db'.replies == db.replies
    ensures r.Ok? ==>
      var p := r.value.db.posts[id];
      && p.likes == 0 && p.dislikes == 0 && p.views == 0
      && p.authorId == author
      && p.title == input.title.value
      && p.content == input.content
      && p.categories == (if input.categories.Some? then input.categories.value else [])
      && p.slug == slugify(input.title.value) + "-" + suffix
      && r.value.out == PostView(p, CommentsFor(db, p.slug))
  {
    if input.title.None? then Err(SlugifyFailure)
    else
      var post := Post(
        slug := GetSlug(slugify, input.title.value, suffix),
        title := input.title.value,
        content := input.content,
        categories := if input.categories.Some? then input.categories.value else [],
        likes := 0, dislikes := 0, views := 0,
        authorId := author);
      var db' := db.(posts := db.posts[id := post]);
      Ok(Step(db', BuildPostView(db', post)))
  }

  /** `getSinglePostBySlug` as written: a read counts as a view only when the
      post already has one, so a post whose counter is 0 keeps it at 0. */
  function GetSinglePostBySlug(db: Db, slug: string, caller: UserId): (r: Result<Step<Db, PostView>>)
    ensures r.Err? <==> FindPostBySlug(db, slug).None?
    ensures r.Err? ==> r.error == Error(NotFound, "Post not found")
    ensures r.Ok? ==> FindPostBySlug(db, slug).value in r.value.db.posts
    ensures r.Ok? ==>
      var id := FindPostBySlug(db, slug).value;
      var p := db.posts[id];
      var p' := r.value.db.posts[id];
      && r.value.db == db.(posts := db.posts[id := p'])
      && p' == p.(views := p'.views)
      && (p.views == 0 ==> p'.views == 0)
      && (caller == p.authorId ==> p'.views == p.views)
      && (p.views != 0 && caller != p.authorId ==> p'.views == p.views + 1)
      && r.value.out == PostView(p', CommentsFor(db, slug))
  {
    match FindPostBySlug(db, slug)
    case None => Err(Error(NotFound, "Post not found"))
    case Some(id) =>
      var p := db.posts[id];
      var views := if p.views == 0 then 0 else if caller != p.authorId then p.views + 1 else p.views;
      var p' := p.(views := views);
      var db' := db.(posts := db.posts[id := p']);
      Ok(Step(db', BuildPostView(db', p')))
  }

  /** The read counter as evidently intended: every read by someone other
      than the author counts, whatever the counter holds. */
  function GetSinglePostCountingViews(db: Db, slug: string, caller: UserId): (r: Result<Step<Db, PostView>>)
    ensures r.Err? <==> FindPostBySlug(db, slug).None?
    ensures r.Err? ==> r.error == Error(NotFound, "Post not found")
    ensures r.Ok? ==> FindPostBySlug(db, slug).value in r.value.db.posts
    ensures r.Ok? ==>
      var id := FindPostBySlug(db, slug).value;
      var p := db.posts[id];
      var p' := r.value.db.posts[id];
      && r.value.db == db.(posts := db.posts[id := p'])
      && p' == p.(views := p'.views)
      && p'.views == (if caller == p.authorId then p.views else p.views + 1)
      && r.value.out == PostView(p', CommentsFor(db, slug))
  {
    match FindPostBySlug(db, slug)
    case None => Err(Error(NotFound, "Post not found"))
    case Some(id) =>
      var p := db.posts[id];
      var p' := p.(views := if caller != p.authorId then p.views + 1 else p.views);
      var db' := db.(posts := db.posts[id := p']);
      Ok(Step(db', BuildPostView(db', p')))
  }

  /** `updatePost`: only the author may edit (401 otherwise); the fields
      present in the body overwrite the stored ones and the slug is always
      generated afresh from the new title. */
  function UpdatePost(db: Db, slug: string, patch: PostInput, caller: UserId,
                      slugify: string -> string, suffix: string): (r: Result<Step<Db, PostView>>)
    ensures FindPostBySlug(db, slug).None? ==> r == Err(Error(NotFound, "Post does not exist"))
    ensures FindPostBySlug(db, slug).Some? ==>
      var p := db.posts[FindPostBySlug(db, slug).value];
      && (p.authorId != caller ==> r == Err(Error(Unauthorized, "You are not an author")))
      && (p.authorId == caller && patch.title.None? ==> r == Err(SlugifyFailure))
      && (p.authorId == caller && patch.title.Some? ==> r.Ok?)
    ensures r.Ok? ==> FindPostBySlug(db, slug).value in r.value.db.posts
    ensures r.Ok? ==>
      var id := FindPostBySlug(db, slug).value;
      var p := db.posts[id];
      var p' := r.value.db.posts[id];
      && r.value.db == db.(posts := db.posts[id := p'])
      && p'.slug == slugify(patch.title.value) + "-" + suffix
      && p'.title == patch.title.value
      && p'.content == (if patch.content.Some? then patch.content else p.content)
      && p'.categories == (if patch.categories.Some? then patch.categories.value else p.categories)
      && p'.likes == p.likes && p'.dislikes == p.dislikes && p'.views == p.views
      && p'.authorId == p.authorId
      && r.value.out == PostView(p', CommentsFor(db, p'.slug))
  {
    var id :- FindBySlug(db, slug);
    var p := db.posts[id];
    if p.authorId != caller then Err(Error(Unauthorized, "You are not an author"))
    else if patch.title.None? then Err(SlugifyFailure)
    else
      var p' := p.(
        title := patch.title.value,
        content := if patch.content.Some? then patch.content else p.content,
        categories := if patch.categories.Some? then patch.categories.value else p.categories,
        slug := GetSlug(slugify, patch.title.value, suffix));
      var db' := db.(posts := db.posts[id := p']);
      Ok(Step(db', BuildPostView(db', p')))
  }

  /** The posts carrying `slug`. */
  function PostsWithSlug(db: Db, slug: string): set<PostId>
  {
    set k | k in db.posts && db.posts[k].slug == slug
  }

  /** `deletePost`: only the author may delete, but a non-author gets the same
      404 status as a missing post. `delete({ slug })` removes every post
      with that slug; nothing that refers to the post is touched. The `nat`
      result stands for the `deletedCount` of the `DeleteResult` returned. */
  function DeletePost(db: Db, caller: UserId, slug: string): (r: Result<Step<Db, nat>>)
    ensures FindPostBySlug(db, slug).None? ==> r == Err(Error(NotFound, "Post does not exist"))
    ensures FindPostBySlug(db, slug).Some? ==>
      var p := db.posts[FindPostBySlug(db, slug).value];
      && (p.authorId != caller ==> r == Err(Error(NotFound, "You are not an author")))
      && (p.authorId == caller ==> r.Ok?)
    ensures r.Ok? ==>
      var db' := r.value.db;
      && (forall k :: k in db'.posts <==> k in db.posts && db.posts[k].slug != slug)
      && (forall k :: k in db'.posts ==> db'.posts[k] == db.posts[k])
      && db'.users == db.users && db'.comments == db.comments && db'.replies == db.replies
      && 1 <= r.value.out == |db.posts| - |db'.posts|
  {
    var id :- FindBySlug(db, slug);
    if db.posts[id].authorId != caller then Err(Error(NotFound, "You are not an author"))
    else
      var gone := PostsWithSlug(db, slug);
      var posts' := map k | k in db.posts && k !in gone :: db.posts[k];
      assert id in gone;
      assert posts'.Keys == db.posts.Keys - gone;
      Ok(Step(db.(posts := posts'), |gone|))
  }

  /* ----------------------------------------------------------------------
   * Likes and dislikes
   * -------------------------------------------------------------------- */

  /** The look-ups `likePost` and `dislikePost` share: the post by slug, then
      the caller by id, each a 404 when missing. */
  function PostAndCaller(db: Db, caller: UserId, slug: string): (r: Result<PostId>)
    ensures r.Ok? <==> FindPostBySlug(db, slug).Some? && caller in db.users
    ensures r.Ok? ==> r.value == FindPostBySlug(db, slug).value
    ensures FindPostBySlug(db, slug).None? ==> r == Err(Error(NotFound, "Post does not exist"))
    ensures FindPostBySlug(db, slug).Some? && caller !in db.users ==> r == Err(Error(NotFound, "User not found"))
  {
    var id :- FindBySlug(db, slug);
    if caller !in db.users then Err(Error(NotFound, "User not found")) else Ok(id)
  }

  /** `likePost`: an idempotent toggle-on. The first like appends the post to
      the caller's favourites and adds one to `likes`; a repeated like changes
      nothing. The caller's dislikes and the post's `dislikes` are never read. */
  function LikePost(db: Db, caller: UserId, slug: string): (r: Result<Step<Db, PostView>>)
    ensures r.Err? <==> PostAndCaller(db, caller, slug).Err?
    ensures r.Err? ==> r.error == PostAndCaller(db, caller, slug).error
    ensures r.Ok? ==>
      var id := FindPostBySlug(db, slug).value;
      var u := db.users[caller];
      var p := db.posts[id];
      var db' := r.value.db;
      && (id in u.favourites ==> db' == db)
      && (id !in u.favourites ==>
            && db'.users == db.users[caller := u.(favourites := u.favourites + [id])]
            && db'.posts == db.posts[id := p.(likes := p.likes + 1)])
      && db'.comments == db.comments && db'.replies == db.replies
      && r.value.out == PostView(db'.posts[id], CommentsFor(db, slug))
  {
    var id :- PostAndCaller(db, caller, slug);
    var u := db.users[caller];
    var p := db.posts[id];
    if id in u.favourites then Ok(Step(db, BuildPostView(db, p)))
    else
      var p' := p.(likes := p.likes + 1);
      var db' := db.(users := db.users[caller := u.(favourites := u.favourites + [id])],
                     posts := db.posts[id := p']);
      Ok(Step(db', BuildPostView(db', p')))
  }

  /** `dislikePost`: if the caller liked the post, that like (its first entry
      in favourites) is withdrawn and `likes` drops by one; if the caller has
      not yet disliked the post, it is appended to their dislikes and
      `dislikes` grows by one. */
  function DislikePost(db: Db, caller: UserId, slug: string): (r: Result<Step<Db, PostView>>)
    ensures r.Err? <==> PostAndCaller(db, caller, slug).Err?
    ensures r.Err? ==> r.error == PostAndCaller(db, caller, slug).error
    ensures r.Ok? ==>
      var id := FindPostBySlug(db, slug).value;
      var u := db.users[caller];
      var p := db.posts[id];
      var db' := r.value.db;
      && caller in db'.users && id in db'.posts
      && db'.users == db.users[caller := db'.users[caller]]
      && db'.posts == db.posts[id := db'.posts[id]]
      && db'.comments == db.comments && db'.replies == db.replies
      && var u' := db'.users[caller];
      && var p' := db'.posts[id];
      && u' == u.(favourites := u'.favourites, dislikes := u'.dislikes)
      && p' == p.(likes := p'.likes, dislikes := p'.dislikes)
      && (id in u.favourites ==>
            && u'.favourites == RemoveAt(u.favourites, IndexOf(u.favourites, id).value)
            && p'.likes == p.likes - 1)
      && (id !in u.favourites ==> u'.favourites == u.favourites && p'.likes == p.likes)
      && (id !in u.dislikes ==> u'.dislikes == u.dislikes + [id] && p'.dislikes == p.dislikes + 1)
      && (id in u.dislikes ==> u'.dislikes == u.dislikes && p'.dislikes == p.dislikes)
      && r.value.out == PostView(p', CommentsFor(db, slug))
  {
    var id :- PostAndCaller(db, caller, slug);
    var u := db.users[caller];
    var p := db.posts[id];
    var liked := IndexOf(u.favourites, id);
    var favourites := if liked.Some? then RemoveAt(u.favourites, liked.value) else u.favourites;
    var likes := if liked.Some? then p.likes - 1 else p.likes;
    var disliked := IndexOf(u.dislikes, id);
    var dislikes := if disliked.None? then u.dislikes + [id] else u.dislikes;
    var dislikeCount := if disliked.None? then p.dislikes + 1 else p.dislikes;
    var p' := p.(likes := likes, dislikes := dislikeCount);
    var db' := db.(users := db.users[caller := u.(favourites := favourites, dislikes := dislikes)],
                   posts := db.posts[id := p']);
    Ok(Step(db', BuildPostView(db', p')))
  }

  /* ----------------------------------------------------------------------
   * Comments
   * -------------------------------------------------------------------- */

  /** The write half of `commentPost`, given what the look-up for an earlier
      comment returned: a found comment has its text overwritten in place,
      otherwise exactly one comment with no replies is created. */
  function SaveComment(db: Db, caller: UserId, slug: string, text: string,
                       existing: Option<CommentId>, newId: CommentId): (r: Step<Db, CommentResponse>)
    requires FindPostBySlug(db, slug).Some?
    requires existing.Some? ==> existing.value in db.comments
    requires newId !in db.comments
    ensures existing.Some? ==>
      var c := db.comments[existing.value];
      r.db == db.(comments := db.comments[existing.value := c.(text := text)])
    ensures existing.None? ==>
      r.db == db.(comments := db.comments[newId := Comment(slug, caller, text, [])])
    ensures r.out == CommentResponse(db.posts[FindPostBySlug(db, slug).value], text)
  {
    var post := db.posts[FindPostBySlug(db, slug).value];
    match existing
    case Some(cid) =>
      var c := db.comments[cid];
      Step(db.(comments := db.comments[cid := c.(text := text)]), CommentResponse(post, text))
    case None =>
      Step(db.(comments := db.comments[newId := Comment(post.slug, caller, text, [])]),
           CommentResponse(post, text))
  }

  /** `commentPost` as written. The look-up for an earlier comment filters on
      a `commenterId` field, but a comment document carries its author under
      `userId`; no stored comment has a `commenterId`, so the look-up never
      finds one and every call inserts a new comment. */
  function CommentPostAsWritten(db: Db, caller: UserId, slug: string, text: string,
                                newId: CommentId): (r: Result<Step<Db, CommentResponse>>)
    requires newId !in db.comments
    ensures r.Err? <==> FindPostBySlug(db, slug).None?
    ensures r.Err? ==> r.error == Error(NotFound, "Post does not exist")
    ensures r.Ok? ==> r.value.db == db.(comments := db.comments[newId := Comment(slug, caller, text, [])])
    ensures r.Ok? ==> r.value.out == CommentResponse(db.posts[FindPostBySlug(db, slug).value], text)
  {
    var _ :- FindBySlug(db, slug);
    Ok(SaveComment(db, caller, slug, text, None, newId))
  }

  /** The caller's earlier comment on the post, looked up by the field the
      comment is stored under. */
  function FindOwnComment(db: Db, slug: string, caller: UserId): (r: Option<CommentId>)
    ensures r.Some? ==>
      r.value in db.comments && db.comments[r.value].postSlug == slug && db.comments[r.value].userId == caller
    ensures r.None? <==> forall c :: c in db.comments ==>
      !(db.comments[c].postSlug == slug && db.comments[c].userId == caller)
  {
    LeastKeyWhere(db.comments, (c: Comment) => c.postSlug == slug && c.userId == caller)
  }

  /** `commentPost` as evidently intended: one comment per (post, user);
      commenting again edits it. */
  function CommentPost(db: Db, caller: UserId, slug: string, text: string,
                       newId: CommentId): (r: Result<Step<Db, CommentResponse>>)
    requires newId !in db.comments
    ensures r.Err? <==> FindPostBySlug(db, slug).None?
    ensures r.Err? ==> r.error == Error(NotFound, "Post does not exist")
    ensures r.Ok? && FindOwnComment(db, slug, caller).Some? ==>
      var cid := FindOwnComment(db, slug, caller).value;
      r.value.db == db.(comments := db.comments[cid := db.comments[cid].(text := text)])
    ensures r.Ok? && FindOwnComment(db, slug, caller).None? ==>
      r.value.db == db.(comments := db.comments[newId := Comment(slug, caller, text, [])])
    ensures r.Ok? ==> r.value.out == CommentResponse(db.posts[FindPostBySlug(db, slug).value], text)
  {
    var _ :- FindBySlug(db, slug);
    Ok(SaveComment(db, caller, slug, text, FindOwnComment(db, slug, caller), newId))
  }

  /** `uncommentPost`: deletes a comment row by id, with no ownership check
      and without touching the comment's replies. The comment need not
      belong to the post named in the request. */
  function UncommentPost(db: Db, caller: UserId, slug: string, commentId: CommentId): (r: Result<Step<Db, PostView>>)
    ensures FindPostBySlug(db, slug).None? ==> r == Err(Error(NotFound, "Post does not exist"))
    ensures FindPostBySlug(db, slug).Some? && commentId !in db.comments ==>
      r == Err(Error(NotFound, "Comment not found"))
    ensures r.Ok? <==> FindPostBySlug(db, slug).Some? && commentId in db.comments
    ensures r.Ok? ==>
      && r.value.db == db.(comments := db.comments - {commentId})
      && r.value.out.post == db.posts[FindPostBySlug(db, slug).value]
      && r.value.out == PostView(db.posts[FindPostBySlug(db, slug).value], CommentsFor(r.value.db, slug))
      && commentId !in r.value.out.comments
  {
    var id :- FindBySlug(db, slug);
    if commentId !in db.comments then Err(Error(NotFound, "Comment not found"))
    else
      var db' := db.(comments := db.comments - {commentId});
      Ok(Step(db', BuildPostView(db', db.posts[id])))
  }

  /* ----------------------------------------------------------------------
   * Replies
   * -------------------------------------------------------------------- */

  /** `addReply`: stores the reply and appends its id to the comment's list. */
  function AddReply(db: Db, commentId: CommentId, caller: UserId, text: string,
                    newId: ReplyId): (r: Result<Step<Db, Reply>>)
    requires newId !in db.replies
    ensures r.Err? <==> commentId !in db.comments
    ensures r.Err? ==> r.error == Error(NotFound, "Comment does not exist")
    ensures r.Ok? ==>
      var c := db.comments[commentId];
      var db' := r.value.db;
      && r.value.out == Reply(commentId, caller, text)
      && db'.replies == db.replies[newId := r.value.out]
      && commentId in db'.comments
      && db'.comments == db.comments[commentId := c.(replies := db'.comments[commentId].replies)]
      && db'.comments[commentId].replies == c.replies + [newId]
      && db'.users == db.users && db'.posts == db.posts
  {
    var c :- FindCommentById(db, commentId);
    var reply := Reply(commentId, caller, text);
    Ok(Step(db.(replies := db.replies[newId := reply],
                comments := db.comments[commentId := c.(replies := c.replies + [newId])]),
            reply))
  }

  /** The index look-up of `deleteReply` as written. The callback has a block
      body with no `return`: it evaluates `reply.toString() === replyId`,
      discards the answer and yields `undefined`, which `findIndex` reads as
      false, whatever the element. */
  function ReplyIndexAsWritten(replies: seq<ReplyId>, replyId: ReplyId): (r: Option<nat>)
    ensures r.None?
  {
    FindIndex(replies, (reply: ReplyId) => false)
  }

  /** The common shape of `deleteReply`, given the index look-up it uses:
      404 for an unknown comment, then for an unknown reply; the reply row is
      deleted and, when the look-up found the id, that entry is spliced out
      of the comment's list. The `nat` result stands for the `deletedCount`
      of the `DeleteResult` returned, which is 1. */
  function DeleteReplyWith(db: Db, commentId: CommentId, replyId: ReplyId, index: Option<nat>): (r: Result<Step<Db, nat>>)
    requires commentId in db.comments && index.Some? ==> index.value < |db.comments[commentId].replies|
    ensures commentId !in db.comments ==> r == Err(Error(NotFound, "Comment does not exist"))
    ensures commentId in db.comments && replyId !in db.replies ==> r == Err(Error(NotFound, "Reply does not exist"))
    ensures r.Ok? <==> commentId in db.comments && replyId in db.replies
    ensures r.Ok? ==>
      var c := db.comments[commentId];
      && r.value.out == 1
      && r.value.db.replies == db.replies - {replyId}
      && r.value.db.users == db.users && r.value.db.posts == db.posts
      && (index.None? ==> r.value.db.comments == db.comments)
      && (index.Some? ==> r.value.db.comments == db.comments[commentId := c.(replies := RemoveAt(c.replies, index.value))])
  {
    var c :- FindCommentById(db, commentId);
    var _ :- FindReplyById(db, replyId);
    var comments' := if index.Some? then db.comments[commentId := c.(replies := RemoveAt(c.replies, index.value))]
                     else db.comments;
    Ok(Step(db.(comments := comments', replies := db.replies - {replyId}), 1))
  }

  /** `deleteReply` as written: the reply row goes, but its id stays in the
      comment's list. */
  function DeleteReplyAsWritten(db: Db, commentId: CommentId, caller: UserId, replyId: ReplyId): (r: Result<Step<Db, nat>>)
    ensures r.Ok? <==> commentId in db.comments && replyId in db.replies
    ensures r.Err? ==> r.error.status == NotFound
    ensures r.Ok? ==> r.value.db == db.(replies := db.replies - {replyId})
    ensures r.Ok? ==> r.value.out == 1
  {
    var index := if commentId in db.comments then ReplyIndexAsWritten(db.comments[commentId].replies, replyId) else None;
    DeleteReplyWith(db, commentId, replyId, index)
  }

  /** `deleteReply` as evidently intended: the first entry equal to the reply
      id is spliced out of the comment's list. */
  function DeleteReply(db: Db, commentId: CommentId, caller: UserId, replyId: ReplyId): (r: Result<Step<Db, nat>>)
    ensures r.Ok? <==> commentId in db.comments && replyId in db.replies
    ensures r.Err? ==> r.error.status == NotFound
    ensures r.Ok? ==>
      var c := db.comments[commentId];
      && r.value.out == 1
      && r.value.db.replies == db.replies - {replyId}
      && r.value.db.users == db.users && r.value.db.posts == db.posts
      && (replyId !in c.replies ==> r.value.db.comments == db.comments)
      && (replyId in c.replies ==>
            r.value.db.comments == db.comments[commentId := c.(replies := RemoveAt(c.replies, IndexOf(c.replies, replyId).value))])
  {
    var index := if commentId in db.comments then IndexOf(db.comments[commentId].replies, replyId) else None;
    DeleteReplyWith(db, commentId, replyId, index)
  }
}
