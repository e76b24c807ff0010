/** The four document collections the services read and write, as immutable
    maps from object id to record, and the lookups the services run on them.

    An object id is modelled as a natural number. Ids are handed out in
    creation order, so "the first document that matches" a `findOne` on a
    field other than the id is the matching document with the least id. */
module Store {
  import opened Http

  type UserId = nat
  type PostId = nat
  type CommentId = nat
  type ReplyId = nat

  /** A user document. `favourites` and `dislikes` hold the ids of the posts
      the user has liked and disliked, in the order they were added; the
      source keeps the post documents there and compares them only by id. A list
      the document does not carry yet is the empty list here. */
  datatype User = User(
    username: string,
    email: string,
    password: string,
    bio: string,
    profilePic: string,
    favourites: seq<PostId>,
    dislikes: seq<PostId>)

  datatype Post = Post(
    slug: string,
    title: string,
    content: Option<string>,
    categories: seq<string>,
    likes: int,
    dislikes: int,
    views: int,
    authorId: UserId)

  /** A comment belongs to a post through the post's slug, not its id. */
  datatype Comment = Comment(postSlug: string, userId: UserId, text: string, replies: seq<ReplyId>)

  datatype Reply = Reply(commentId: CommentId, userId: UserId, text: string)

  datatype Db = Db(
    users: map<UserId, User>,
    posts: map<PostId, Post>,
    comments: map<CommentId, Comment>,
    replies: map<ReplyId, Reply>)

  /** What a post endpoint answers: the post and every comment filed under its slug. */
  datatype PostView = PostView(post: Post, comments: map<CommentId, Comment>)

  /** Every non-empty set of naturals has a least element; this returns it. */
  lemma {:induction false} LeastElement(s: set<nat>) returns (k: nat)
    requires s != {}
    ensures k in s
    ensures forall j :: j in s ==> k <= j
    decreases |s|
  {
    var x :| x in s;
    if s == {x} {
      k := x;
    } else {
      var rest := LeastElement(s - {x});
      k := if x < rest then x else rest;
      forall j | j in s
        ensures k <= j
      {
        if j != x {
          assert j in s - {x};
        }
      }
    }
  }

  lemma LeastExists(s: set<nat>)
    requires s != {}
    ensures exists k :: k in s && forall j :: j in s ==> k <= j
  {
    var k := LeastElement(s);
  }

  /** The id of the first document (the one with the least id) satisfying `p`. */
  function LeastKeyWhere<V>(m: map<nat, V>, p: V -> bool): (r: Option<nat>)
    ensures r.Some? ==> r.value in m && p(m[r.value])
    ensures r.Some? ==> forall k :: k in m && p(m[k]) ==> r.value <= k
    ensures r.None? <==> forall k :: k in m ==> !p(m[k])
  {
    var hits := set k | k in m && p(m[k]);
    assert forall k :: k in m && p(m[k]) ==> k in hits;
    if hits == {} then None
    else
      LeastExists(hits);
      var k :| k in hits && forall j :: j in hits ==> k <= j;
      Some(k)
  }

  /** `postRepository.findOne({ where: { slug } })`. */
  function FindPostBySlug(db: Db, slug: string): (r: Option<PostId>)
    ensures r.Some? ==> r.value in db.posts && db.posts[r.value].slug == slug
    ensures r.Some? ==> forall k :: k in db.posts && db.posts[k].slug == slug ==> r.value <= k
    ensures r.None? <==> forall k :: k in db.posts ==> db.posts[k].slug != slug
  {
    LeastKeyWhere(db.posts, (p: Post) => p.slug == slug)
  }

  /** `userRepository.findOne({ where: { username } })`. */
  function FindUserByUsername(users: map<UserId, User>, name: string): (r: Option<UserId>)
    ensures r.Some? ==> r.value in users && users[r.value].username == name
    ensures r.Some? ==> forall k :: k in users && users[k].username == name ==> r.value <= k
    ensures r.None? <==> forall k :: k in users ==> users[k].username != name
  {
    LeastKeyWhere(users, (u: User) => u.username == name)
  }

  /** `userRepository.findOne({ where: { email } })`. */
  function FindUserByEmail(users: map<UserId, User>, email: string): (r: Option<UserId>)
    ensures r.Some? ==> r.value in users && users[r.value].email == email
    ensures r.Some? ==> forall k :: k in users && users[k].email == email ==> r.value <= k
    ensures r.None? <==> forall k :: k in users ==> users[k].email != email
  {
    LeastKeyWhere(users, (u: User) => u.email == email)
  }

  /** `PostService.findBySlug`: the same lookup, throwing 404 on a miss. */
  function FindBySlug(db: Db, slug: string): (r: Result<PostId>)
    ensures r.Ok? <==> FindPostBySlug(db, slug).Some?
    ensures r.Ok? ==> r.value == FindPostBySlug(db, slug).value
    ensures r.Ok? ==> r.value in db.posts && db.posts[r.value].slug == slug
    ensures r.Err? ==> r.error == Error(NotFound, "Post does not exist")
  {
    match FindPostBySlug(db, slug)
    case Some(id) => Ok(id)
    case None => Err(Error(NotFound, "Post does not exist"))
  }

  /** `PostService.findCommentById`. */
  function FindCommentById(db: Db, id: CommentId): (r: Result<Comment>)
    ensures r.Ok? <==> id in db.comments
    ensures r.Ok? ==> r.value == db.comments[id]
    ensures r.Err? ==> r.error == Error(NotFound, "Comment does not exist")
  {
    if id in db.comments then Ok(db.comments[id]) else Err(Error(NotFound, "Comment does not exist"))
  }

  /** `PostService.findReplyById`. */
  function FindReplyById(db: Db, id: ReplyId): (r: Result<Reply>)
    ensures r.Ok? <==> id in db.replies
    ensures r.Ok? ==> r.value == db.replies[id]
    ensures r.Err? ==> r.error == Error(NotFound, "Reply does not exist")
  {
    if id in db.replies then Ok(db.replies[id]) else Err(Error(NotFound, "Reply does not exist"))
  }

  /** `PostService.getCommentByPostSlug`: the comments filed under a slug. */
  function CommentsFor(db: Db, slug: string): (cs: map<CommentId, Comment>)
    ensures forall c :: c in cs <==> c in db.comments && db.comments[c].postSlug == slug
    ensures forall c :: c in cs ==> cs[c] == db.comments[c]
  {
    map c | c in db.comments && db.comments[c].postSlug == slug :: db.comments[c]
  }

  /** `PostService.buildPostResponse`: the post as given, with every comment
      filed under its slug. */
  function BuildPostView(db: Db, post: Post): (v: PostView)
    ensures v.post == post
    ensures forall c :: c in v.comments <==> c in db.comments && db.comments[c].postSlug == post.slug
    ensures forall c :: c in v.comments ==> v.comments[c] == db.comments[c]
  {
    PostView(post, CommentsFor(db, post.slug))
  }
}
