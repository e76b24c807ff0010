/** Properties of the post service that relate several calls, or that hold
    of every store the service can reach. */
module PostProperties {
  import opened Http
  import opened Store
  import opened Seqs
  import opened PostService

  /* ----------------------------------------------------------------------
   * Denormalised counters
   * -------------------------------------------------------------------- */

  /** The users whose favourites hold the post. */
  function Likers(users: map<UserId, User>, id: PostId): set<UserId>
  {
    set u | u in users && id in users[u].favourites
  }

  /** The users whose dislikes hold the post. */
  function Dislikers(users: map<UserId, User>, id: PostId): set<UserId>
  {
    set u | u in users && id in users[u].dislikes
  }

  /** The store-wide invariant the counters are meant to keep: no user lists
      a post twice, and each post's `likes` and `dislikes` count the users
      listing it. */
  predicate CountersAgree(db: Db)
  {
    && (forall u :: u in db.users ==> NoDuplicates(db.users[u].favourites) && NoDuplicates(db.users[u].dislikes))
    && (forall id :: id in db.posts ==>
          db.posts[id].likes == |Likers(db.users, id)| && db.posts[id].dislikes == |Dislikers(db.users, id)|)
  }

  function Ind(b: bool): int
  {
    if b then 1 else 0
  }

  /** Rewriting one user changes the number of users who like `id` by the
      change in that user's own membership. */
  lemma LikersAfterWrite(users: map<UserId, User>, c: UserId, v: User, id: PostId)
    requires c in users
    ensures |Likers(users[c := v], id)| == |Likers(users, id)| - Ind(id in users[c].favourites) + Ind(id in v.favourites)
  {
    var rest := Likers(users, id) - {c};
    assert Likers(users[c := v], id) == rest + (if id in v.favourites then {c} else {});
    assert Likers(users, id) == rest + (if id in users[c].favourites then {c} else {});
  }

  /** The same for the users who dislike `id`. */
  lemma DislikersAfterWrite(users: map<UserId, User>, c: UserId, v: User, id: PostId)
    requires c in users
    ensures |Dislikers(users[c := v], id)| == |Dislikers(users, id)| - Ind(id in users[c].dislikes) + Ind(id in v.dislikes)
  {
    var rest := Dislikers(users, id) - {c};
    assert Dislikers(users[c := v], id) == rest + (if id in v.dislikes then {c} else {});
    assert Dislikers(users, id) == rest + (if id in users[c].dislikes then {c} else {});
  }

  /** The shape of every like and dislike: one user and one post are
      rewritten, the user's lists change only at `id`, and the post's counters
      move with the user's membership. Such a write keeps the counters right. */
  lemma MatchedWriteKeepsCounters(db: Db, c: UserId, v: User, id: PostId, p': Post)
    requires CountersAgree(db)
    requires c in db.users && id in db.posts
    requires NoDuplicates(v.favourites) && NoDuplicates(v.dislikes)
    requires forall k :: k != id ==> (k in v.favourites <==> k in db.users[c].favourites)
    requires forall k :: k != id ==> (k in v.dislikes <==> k in db.users[c].dislikes)
    requires p'.likes == db.posts[id].likes - Ind(id in db.users[c].favourites) + Ind(id in v.favourites)
    requires p'.dislikes == db.posts[id].dislikes - Ind(id in db.users[c].dislikes) + Ind(id in v.dislikes)
    ensures CountersAgree(db.(users := db.users[c := v], posts := db.posts[id := p']))
  {
    var db' := db.(users := db.users[c := v], posts := db.posts[id := p']);
    forall k | k in db'.posts
      ensures db'.posts[k].likes == |Likers(db'.users, k)| && db'.posts[k].dislikes == |Dislikers(db'.users, k)|
    {
      LikersAfterWrite(db.users, c, v, k);
      DislikersAfterWrite(db.users, c, v, k);
    }
  }

  lemma LikeKeepsCounters(db: Db, caller: UserId, slug: string)
    requires CountersAgree(db)
    requires LikePost(db, caller, slug).Ok?
    ensures CountersAgree(LikePost(db, caller, slug).value.db)
  {
    var id := FindPostBySlug(db, slug).value;
    var u := db.users[caller];
    if id !in u.favourites {
      var v := u.(favourites := u.favourites + [id]);
      AppendFreshKeepsDistinct(u.favourites, id);
      MatchedWriteKeepsCounters(db, caller, v, id, db.posts[id].(likes := db.posts[id].likes + 1));
    }
  }

  lemma DislikeKeepsCounters(db: Db, caller: UserId, slug: string)
    requires CountersAgree(db)
    requires DislikePost(db, caller, slug).Ok?
    ensures CountersAgree(DislikePost(db, caller, slug).value.db)
  {
    var id := FindPostBySlug(db, slug).value;
    var u := db.users[caller];
    var db' := DislikePost(db, caller, slug).value.db;
    var v := db'.users[caller];
    if id in u.favourites {
      RemoveFirstFromDistinct(u.favourites, id);
    }
    if id !in u.dislikes {
      AppendFreshKeepsDistinct(u.dislikes, id);
    }
    assert db' == db.(users := db.users[caller := v], posts := db.posts[id := db'.posts[id]]);
    MatchedWriteKeepsCounters(db, caller, v, id, db'.posts[id]);
  }

  /** A new post starts with counters 0, which agree with the users as long
      as no user already lists the id the database hands out. */
  lemma CreateKeepsCounters(db: Db, author: UserId, input: PostInput, id: PostId,
                            slugify: string -> string, suffix: string)
    requires id !in db.posts
    requires CountersAgree(db)
    requires forall u :: u in db.users ==> id !in db.users[u].favourites && id !in db.users[u].dislikes
    requires CreatePost(db, author, input, id, slugify, suffix).Ok?
    ensures CountersAgree(CreatePost(db, author, input, id, slugify, suffix).value.db)
  {
    assert Likers(db.users, id) == {};
    assert Dislikers(db.users, id) == {};
  }

  /** Editing a post keeps its counters and touches no user. */
  lemma UpdateKeepsCounters(db: Db, slug: string, patch: PostInput, caller: UserId,
                            slugify: string -> string, suffix: string)
    requires CountersAgree(db)
    requires UpdatePost(db, slug, patch, caller, slugify, suffix).Ok?
    ensures CountersAgree(UpdatePost(db, slug, patch, caller, slugify, suffix).value.db)
  {
  }

  /** Deleting posts leaves the counters of the remaining posts right, even
      though users keep listing the deleted ids. */
  lemma DeleteKeepsCounters(db: Db, caller: UserId, slug: string)
    requires CountersAgree(db)
    requires DeletePost(db, caller, slug).Ok?
    ensures CountersAgree(DeletePost(db, caller, slug).value.db)
  {
  }

  /** Reading a post moves only its view counter. */
  lemma ReadKeepsCounters(db: Db, slug: string, caller: UserId)
    requires CountersAgree(db)
    requires GetSinglePostBySlug(db, slug, caller).Ok?
    ensures CountersAgree(GetSinglePostBySlug(db, slug, caller).value.db)
  {
  }

  /* ----------------------------------------------------------------------
   * Sequences of likes and dislikes
   * -------------------------------------------------------------------- */

  /** A write that keeps every post's slug keeps every slug look-up. */
  lemma SameSlugsSameLookup(db: Db, db': Db, slug: string)
    requires db'.posts.Keys == db.posts.Keys
    requires forall k :: k in db.posts ==> db'.posts[k].slug == db.posts[k].slug
    ensures FindPostBySlug(db', slug) == FindPostBySlug(db, slug)
  {
    var a, b := FindPostBySlug(db, slug), FindPostBySlug(db', slug);
    if a.Some? {
      assert b.Some?;
      assert a.value <= b.value && b.value <= a.value;
    } else {
      assert b.None?;
    }
  }

  /** Liking twice is liking once: the second call changes nothing. */
  lemma LikeIsIdempotent(db: Db, caller: UserId, slug: string)
    requires LikePost(db, caller, slug).Ok?
    ensures var db1 := LikePost(db, caller, slug).value.db;
      LikePost(db1, caller, slug).Ok? && LikePost(db1, caller, slug).value.db == db1
  {
    var db1 := LikePost(db, caller, slug).value.db;
    SameSlugsSameLookup(db, db1, slug);
    var id := FindPostBySlug(db, slug).value;
    assert id in db1.users[caller].favourites;
  }

  /** Two likes in a row raise `likes` by exactly one in all, or by nothing if
      the caller already liked the post. */
  lemma LikeTwiceCountsOnce(db: Db, caller: UserId, slug: string)
    requires LikePost(db, caller, slug).Ok?
    ensures var id := FindPostBySlug(db, slug).value;
      var db1 := LikePost(db, caller, slug).value.db;
      var db2 := LikePost(db1, caller, slug).value.db;
      LikePost(db1, caller, slug).Ok?
      && db2.posts[id].likes == db.posts[id].likes + Ind(id !in db.users[caller].favourites)
  {
    LikeIsIdempotent(db, caller, slug);
  }

  /** Disliking twice is disliking once, for a caller whose favourites list
      no post twice. */
  lemma DislikeIsIdempotent(db: Db, caller: UserId, slug: string)
    requires DislikePost(db, caller, slug).Ok?
    requires NoDuplicates(db.users[caller].favourites)
    ensures var db1 := DislikePost(db, caller, slug).value.db;
      DislikePost(db1, caller, slug).Ok? && DislikePost(db1, caller, slug).value.db == db1
  {
    var db1 := DislikePost(db, caller, slug).value.db;
    SameSlugsSameLookup(db, db1, slug);
    var id := FindPostBySlug(db, slug).value;
    var u := db.users[caller];
    if id in u.favourites {
      RemoveFirstFromDistinct(u.favourites, id);
    }
    assert id !in db1.users[caller].favourites;
    assert id in db1.users[caller].dislikes;
  }

  /** A like followed by a dislike from a caller who had neither liked nor
      disliked the post leaves `likes` and the favourites where they were,
      and records one dislike. */
  lemma LikeThenDislike(db: Db, caller: UserId, slug: string)
    requires LikePost(db, caller, slug).Ok?
    requires FindPostBySlug(db, slug).value !in db.users[caller].favourites
    requires FindPostBySlug(db, slug).value !in db.users[caller].dislikes
    ensures var id := FindPostBySlug(db, slug).value;
      var db1 := LikePost(db, caller, slug).value.db;
      && DislikePost(db1, caller, slug).Ok?
      && var db2 := DislikePost(db1, caller, slug).value.db;
      && db2.posts[id].likes == db.posts[id].likes
      && db2.posts[id].dislikes == db.posts[id].dislikes + 1
      && db2.users[caller].favourites == db.users[caller].favourites
      && db2.users[caller].dislikes == db.users[caller].dislikes + [id]
  {
    var id := FindPostBySlug(db, slug).value;
    var db1 := LikePost(db, caller, slug).value.db;
    SameSlugsSameLookup(db, db1, slug);
    var fav := db.users[caller].favourites;
    assert db1.users[caller].favourites == fav + [id];
    assert IndexOf(fav + [id], id) == Some(|fav|) by {
      assert (fav + [id])[|fav|] == id;
      assert (fav + [id])[..|fav|] == fav;
    }
    assert RemoveAt(fav + [id], |fav|) == fav;
  }

  /** Like never looks at the caller's dislikes: after a dislike and then a
      like, the caller lists the post both as liked and as disliked. */
  lemma DislikeThenLikeHoldsBoth(db: Db, caller: UserId, slug: string)
    requires DislikePost(db, caller, slug).Ok?
    ensures var id := FindPostBySlug(db, slug).value;
      var db1 := DislikePost(db, caller, slug).value.db;
      && LikePost(db1, caller, slug).Ok?
      && var db2 := LikePost(db1, caller, slug).value.db;
      && id in db2.users[caller].favourites
      && id in db2.users[caller].dislikes
  {
    var db1 := DislikePost(db, caller, slug).value.db;
    SameSlugsSameLookup(db, db1, slug);
  }

  /** The counter change of a like equals the change in the caller's
      membership, counted with multiplicity. */
  lemma LikeMovesCounterWithMembership(db: Db, caller: UserId, slug: string)
    requires LikePost(db, caller, slug).Ok?
    ensures var id := FindPostBySlug(db, slug).value;
      var db1 := LikePost(db, caller, slug).value.db;
      db1.posts[id].likes - db.posts[id].likes
        == multiset(db1.users[caller].favourites)[id] as int - multiset(db.users[caller].favourites)[id] as int
      && db1.posts[id].dislikes == db.posts[id].dislikes
      && db1.users[caller].dislikes == db.users[caller].dislikes
  {
  }

  /** The counter changes of a dislike equal the changes in the caller's
      two lists, counted with multiplicity. */
  lemma DislikeMovesCountersWithMembership(db: Db, caller: UserId, slug: string)
    requires DislikePost(db, caller, slug).Ok?
    ensures var id := FindPostBySlug(db, slug).value;
      var db1 := DislikePost(db, caller, slug).value.db;
      && db1.posts[id].likes - db.posts[id].likes
        == multiset(db1.users[caller].favourites)[id] as int - multiset(db.users[caller].favourites)[id] as int
      && db1.posts[id].dislikes - db.posts[id].dislikes
        == multiset(db1.users[caller].dislikes)[id] as int - multiset(db.users[caller].dislikes)[id] as int
  {
    var id := FindPostBySlug(db, slug).value;
    var u := db.users[caller];
    if id in u.favourites {
      var i := IndexOf(u.favourites, id).value;
      assert u.favourites[i] == id;
    }
  }

  /* ----------------------------------------------------------------------
   * Slugs
   * -------------------------------------------------------------------- */

  /** Two posts with the same title get different slugs exactly when their
      random suffixes differ. */
  lemma SameTitleSlugsDifferBySuffix(slugify: string -> string, title: string, s1: string, s2: string)
    ensures GetSlug(slugify, title, s1) == GetSlug(slugify, title, s2) <==> s1 == s2
  {
  }

  /* ----------------------------------------------------------------------
   * Views
   * -------------------------------------------------------------------- */

  /** A run of reads of one slug, by the given callers in turn. */
  function ReadAll(db: Db, slug: string, callers: seq<UserId>): Db
    decreases |callers|
  {
    if callers == [] then db
    else match GetSinglePostBySlug(db, slug, callers[0])
      case Err(_) => db
      case Ok(step) => ReadAll(step.db, slug, callers[1..])
  }

  /** The same run of reads with the read counter as evidently intended. */
  function ReadAllCounting(db: Db, slug: string, callers: seq<UserId>): Db
    decreases |callers|
  {
    if callers == [] then db
    else match GetSinglePostCountingViews(db, slug, callers[0])
      case Err(_) => db
      case Ok(step) => ReadAllCounting(step.db, slug, callers[1..])
  }

  /** As written, a post whose view counter is 0 keeps it at 0 through any
      run of reads by anyone. */
  lemma {:induction false} ZeroViewsStayZero(db: Db, slug: string, callers: seq<UserId>, id: PostId)
    requires id in db.posts && db.posts[id].views == 0
    ensures id in ReadAll(db, slug, callers).posts
    ensures ReadAll(db, slug, callers).posts[id].views == 0
    decreases |callers|
  {
    if callers != [] {
      var r := GetSinglePostBySlug(db, slug, callers[0]);
      if r.Ok? {
        ZeroViewsStayZero(r.value.db, slug, callers[1..], id);
      }
    }
  }

  /** So a post just created is never seen to be read. */
  lemma FreshPostViewsNeverGrow(db: Db, author: UserId, input: PostInput, id: PostId,
                                slugify: string -> string, suffix: string, callers: seq<UserId>)
    requires id !in db.posts
    requires CreatePost(db, author, input, id, slugify, suffix).Ok?
    ensures var db1 := CreatePost(db, author, input, id, slugify, suffix).value.db;
      id in ReadAll(db1, SlugOf(db1, id), callers).posts
      && ReadAll(db1, SlugOf(db1, id), callers).posts[id].views == 0
  {
    var db1 := CreatePost(db, author, input, id, slugify, suffix).value.db;
    ZeroViewsStayZero(db1, SlugOf(db1, id), callers, id);
  }

  function SlugOf(db: Db, id: PostId): string
    requires id in db.posts
  {
    db.posts[id].slug
  }

  /** With the intended counter, every read by someone other than the author
      of the post found by the slug counts once. */
  lemma {:induction false} CountedReadsAddUp(db: Db, slug: string, callers: seq<UserId>)
    requires FindPostBySlug(db, slug).Some?
    requires forall i :: 0 <= i < |callers| ==> callers[i] != db.posts[FindPostBySlug(db, slug).value].authorId
    ensures var id := FindPostBySlug(db, slug).value;
      id in ReadAllCounting(db, slug, callers).posts
      && ReadAllCounting(db, slug, callers).posts[id].views == db.posts[id].views + |callers|
    decreases |callers|
  {
    if callers != [] {
      var id := FindPostBySlug(db, slug).value;
      var db1 := GetSinglePostCountingViews(db, slug, callers[0]).value.db;
      SameSlugsSameLookup(db, db1, slug);
      CountedReadsAddUp(db1, slug, callers[1..]);
    }
  }

  /* ----------------------------------------------------------------------
   * Comments
   * -------------------------------------------------------------------- */

  /** The comments one user has on one post. */
  function OwnComments(db: Db, slug: string, u: UserId): set<CommentId>
  {
    set c | c in db.comments && db.comments[c].postSlug == slug && db.comments[c].userId == u
  }

  /** The one-comment-per-(post, user) policy the upsert is meant to keep. */
  predicate OneCommentEach(db: Db)
  {
    forall c, d :: c in db.comments && d in db.comments && c != d ==>
      !(db.comments[c].postSlug == db.comments[d].postSlug && db.comments[c].userId == db.comments[d].userId)
  }

  /** As written, commenting twice on the same post files two comments. */
  lemma AsWrittenSecondCommentAddsRow(db: Db, u: UserId, slug: string, a: string, b: string,
                                      id1: CommentId, id2: CommentId)
    requires id1 !in db.comments && id2 !in db.comments && id1 != id2
    requires OwnComments(db, slug, u) == {}
    requires FindPostBySlug(db, slug).Some?
    ensures var db1 := CommentPostAsWritten(db, u, slug, a, id1).value.db;
      && CommentPostAsWritten(db1, u, slug, b, id2).Ok?
      && var db2 := CommentPostAsWritten(db1, u, slug, b, id2).value.db;
      && OwnComments(db2, slug, u) == {id1, id2}
      && db2.comments[id1].text == a && db2.comments[id2].text == b
      && !OneCommentEach(db2)
  {
    var db1 := CommentPostAsWritten(db, u, slug, a, id1).value.db;
    assert db1.posts == db.posts;
    var db2 := CommentPostAsWritten(db1, u, slug, b, id2).value.db;
    assert OwnComments(db2, slug, u) == OwnComments(db, slug, u) + {id1, id2};
  }

  /** With the intended look-up, commenting twice leaves one comment holding
      the second text. */
  lemma SecondCommentEdits(db: Db, u: UserId, slug: string, a: string, b: string,
                           id1: CommentId, id2: CommentId)
    requires id1 !in db.comments && id2 !in db.comments && id1 != id2
    requires OwnComments(db, slug, u) == {}
    requires FindPostBySlug(db, slug).Some?
    ensures var db1 := CommentPost(db, u, slug, a, id1).value.db;
      && CommentPost(db1, u, slug, b, id2).Ok?
      && var db2 := CommentPost(db1, u, slug, b, id2).value.db;
      && OwnComments(db2, slug, u) == {id1}
      && db2.comments[id1].text == b
  {
    assert FindOwnComment(db, slug, u).None?;
    var db1 := CommentPost(db, u, slug, a, id1).value.db;
    assert OwnComments(db1, slug, u) == {id1};
    assert FindOwnComment(db1, slug, u) == Some(id1) by {
      assert db1.comments[id1].postSlug == slug && db1.comments[id1].userId == u;
      var f := FindOwnComment(db1, slug, u);
      assert f.Some?;
      assert f.value in OwnComments(db1, slug, u);
    }
    var db2 := CommentPost(db1, u, slug, b, id2).value.db;
    assert OwnComments(db2, slug, u) == {id1};
  }

  /** With the intended look-up, commenting keeps one comment per (post, user). */
  lemma CommentPostKeepsOneCommentEach(db: Db, u: UserId, slug: string, text: string, id: CommentId)
    requires id !in db.comments
    requires OneCommentEach(db)
    requires CommentPost(db, u, slug, text, id).Ok?
    ensures OneCommentEach(CommentPost(db, u, slug, text, id).value.db)
  {
    var db1 := CommentPost(db, u, slug, text, id).value.db;
    if FindOwnComment(db, slug, u).None? {
      forall c, d | c in db1.comments && d in db1.comments && c != d
        ensures !(db1.comments[c].postSlug == db1.comments[d].postSlug && db1.comments[c].userId == db1.comments[d].userId)
      {
        if c == id {
          assert d in db.comments;
        } else if d == id {
          assert c in db.comments;
        }
      }
    }
  }

  /** A first comment, deleted again by the id it was stored under, leaves
      the store as it was. */
  lemma CommentThenUncommentRestores(db: Db, u: UserId, slug: string, text: string, id: CommentId)
    requires id !in db.comments
    requires FindPostBySlug(db, slug).Some?
    requires FindOwnComment(db, slug, u).None?
    ensures var db1 := CommentPost(db, u, slug, text, id).value.db;
      && UncommentPost(db1, u, slug, id).Ok?
      && UncommentPost(db1, u, slug, id).value.db == db
  {
    var db1 := CommentPost(db, u, slug, text, id).value.db;
    assert db1.posts == db.posts;
    assert db1.comments - {id} == db.comments;
  }

  /* ----------------------------------------------------------------------
   * Replies
   * -------------------------------------------------------------------- */

  /** As written, deleting a reply just added removes its row but leaves its
      id in the comment's list, where it no longer names a reply. */
  lemma AsWrittenDeletedReplyLingers(db: Db, cid: CommentId, u: UserId, text: string, rid: ReplyId)
    requires rid !in db.replies
    requires AddReply(db, cid, u, text, rid).Ok?
    ensures var db1 := AddReply(db, cid, u, text, rid).value.db;
      && DeleteReplyAsWritten(db1, cid, u, rid).Ok?
      && var db2 := DeleteReplyAsWritten(db1, cid, u, rid).value.db;
      && db2.comments[cid].replies == db.comments[cid].replies + [rid]
      && rid in db2.comments[cid].replies
      && rid !in db2.replies
  {
  }

  /** With the intended index look-up, adding and then deleting a reply gives
      the comment back its former list and the reply store its former rows. */
  lemma AddThenDeleteReplyRestores(db: Db, cid: CommentId, u: UserId, text: string, rid: ReplyId)
    requires rid !in db.replies
    requires AddReply(db, cid, u, text, rid).Ok?
    requires rid !in db.comments[cid].replies
    ensures var db1 := AddReply(db, cid, u, text, rid).value.db;
      && DeleteReply(db1, cid, u, rid).Ok?
      && DeleteReply(db1, cid, u, rid).value.db == db
  {
    var db1 := AddReply(db, cid, u, text, rid).value.db;
    var rs := db.comments[cid].replies;
    assert db1.comments[cid].replies == rs + [rid];
    assert IndexOf(rs + [rid], rid) == Some(|rs|) by {
      assert (rs + [rid])[|rs|] == rid;
      assert (rs + [rid])[..|rs|] == rs;
    }
    assert RemoveAt(rs + [rid], |rs|) == rs;
    var db2 := DeleteReply(db1, cid, u, rid).value.db;
    assert db2.replies == db.replies;
    assert db2.comments == db.comments;
  }
}
