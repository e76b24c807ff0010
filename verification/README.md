# Blog backend: post interactions and authentication gate, in Dafny

A Dafny model of the core of a NestJS/MongoDB blogging backend:

- `PostService`. Creating, reading, editing and deleting posts, liking and
  disliking them, commenting, and replying to comments.
- `AuthMiddleware`. Resolves the `Authorization` header of every request to
  an optional user.
- `AuthGuard`. Admits a request only when a user was resolved.
- `UserService`. Registration, login, profile update, and the claims of a
  session token.

The four MongoDB collections (users, posts, comments, replies) are immutable
maps from object id to document. Object ids are natural numbers, issued in
creation order. A `findOne` on any field other than the id returns the
matching document with the least id, i.e. the first one inserted. Each
service method is a pure function from a store to
`Result<Step<store, response>>`. The `Err` side carries the status and
message the method throws: 404, 401, 422, 400, or 500 for a plain JavaScript
exception. A failing call writes nothing, because in the source every write
comes after the last check that can throw.

Files, one module each:

| file | module | models |
|---|---|---|
| `http.dfy` | `Http` | statuses, errors, `Result`, `Option` |
| `store.dfy` | `Store` | entities, the store, and the repository look-ups |
| `seqs.dfy` | `Seqs` | `findIndex`, `splice` and `push` on id lists |
| `post_service.dfy` | `PostService` | every `PostService` method |
| `post_listing.dfy` | `PostListing` | the aggregation pipeline built by `findAll` |
| `post_properties.dfy` | `PostProperties` | counter invariant, call sequences, findings |
| `auth.dfy` | `Auth` | middleware, guard, bearer-token extraction |
| `user_service.dfy` | `UserService` | registration, login, update, token claims |
| `session.dfy` | `Session` | an issued token coming back through the middleware |

Everything outside the store is a parameter:
- the id the database gives a new document (fresh, by `requires`);
- the `slugify` library, as an opaque function;
- the random slug suffix;
- bcrypt's `hash` and `compare`;
- JWT signing and verification.

The model follows the code as written:
- A non-author editing a post gets 401 "You are not an author"; one deleting it gets 404 with the same message.
- Duplicate registration is 422.
- A login with an unknown email is 422 and one with a wrong password is 400.
- Liking never removes a dislike.
- The listing carries no `liked` flag; the code that would add one is commented out.
- Nothing cascades on delete.
- Deleting a comment or a reply checks no ownership.

Two representation choices are the model's own:
- The source stores whole post documents in a user's favourites and dislikes (`user.favourites.push(post)`, post.service.ts:181, 229). It compares them only by `_id.toString()` (post.service.ts:177, 216, 220). The model keeps the post ids, in the same order. A comment's replies are id lists in the source too (post.service.ts:314).
- The `DeleteResult` that `deletePost` and `deleteReply` return is modelled by its `deletedCount` alone.

## Model

| member | source | states |
|---|---|---|
| `Store.FindPostBySlug` | src/post/post.service.ts:387-393 | finds a post carrying the slug, the first such, or reports that none carries it |
| `Store.FindBySlug` | src/post/post.service.ts:379-385 | the same look-up, failing 404 "Post does not exist" exactly when no post has the slug |
| `Store.FindCommentById` | src/post/post.service.ts:366-377 | the stored comment, or 404 "Comment does not exist" exactly when the id is unknown |
| `Store.FindReplyById` | src/post/post.service.ts:353-364 | the stored reply, or 404 "Reply does not exist" exactly when the id is unknown |
| `Store.BuildPostView` | src/post/post.service.ts:410-413 | the response holds the post as given and exactly the stored comments filed under its slug |
| `Store.CommentsFor` | src/post/post.service.ts:343-352 | exactly the stored comments whose `postSlug` is the slug, unchanged |
| `Store.FindUserByUsername` | src/post/post.service.ts:42-44 | the first user with that username, or none exactly when nobody has it |
| `Store.FindUserByEmail` | src/user/user.service.ts:48-60 | the first user with that email, or none exactly when nobody has it |
| `Seqs.FindIndex` | src/post/post.service.ts:215-217 | `findIndex` with a callback: the first position the callback accepts, and none exactly when it accepts no element |
| `Seqs.IndexOf` | src/post/post.service.ts:215-221 | `findIndex`: the first position holding the element, and none exactly when it is absent |
| `Seqs.RemoveAt` | src/post/post.service.ts:224 | `splice(i, 1)`: one element shorter, order kept, the multiset loses exactly that element |
| `Seqs.RemoveFirstFromDistinct` | src/post/post.service.ts:215-225 | on a list without duplicates, removing the first match drops that id and keeps every other id |
| `PostService.GetSlug` | src/post/post.service.ts:395-401 | a slug is the slugified title, then a dash, then the random suffix |
| `PostService.CreatePost` | src/post/post.service.ts:84-102 | adds only the new post: likes, dislikes and views are 0; categories default to []; author set; slug is slugify(title)-suffix; a missing title throws in slugify |
| `PostService.GetSinglePostBySlug` | src/post/post.service.ts:136-154 | 404 for an unknown slug. Otherwise only `views` changes: never when the caller id equals `authorId`, +1 for others only when non-zero, and 0 stays 0 |
| `PostService.GetSinglePostCountingViews` | src/post/post.service.ts:144-150 | corrected counter: +1 for every read by a non-author, unchanged for the author |
| `PostService.UpdatePost` | src/post/post.service.ts:104-123 | 404 for an unknown slug, then 401 for a non-author. Present fields overwrite; the slug is always regenerated; counters and author are kept; only that post changes |
| `PostService.DeletePost` | src/post/post.service.ts:125-134 | 404 for an unknown slug and also for a non-author. Removes exactly the posts with that slug (at least one); users, comments and replies are untouched |
| `PostService.PostAndCaller` | src/post/post.service.ts:160-170 | like/dislike look-ups: 404 "Post does not exist" first, then 404 "User not found" |
| `PostService.LikePost` | src/post/post.service.ts:159-189 | already liked: the store is unchanged. Otherwise the post id is appended to the caller's favourites and `likes` +1. Dislikes, other users, other posts, comments and replies are unchanged |
| `PostService.DislikePost` | src/post/post.service.ts:195-237 | a liked post loses its first favourites entry and `likes` -1. A post not yet disliked is appended to dislikes and `dislikes` +1. Nothing else changes |
| `PostService.SaveComment` | src/post/post.service.ts:257-277 | upsert: a found comment gets only its text overwritten; otherwise exactly one comment is created, with empty replies |
| `PostService.CommentPostAsWritten` | src/post/post.service.ts:243-277 | 404 for an unknown slug. Otherwise always inserts a new comment, because the look-up filters on a field no comment carries; the response is the post and the text |
| `PostService.FindOwnComment` | src/post/post.service.ts:250-255 | the caller's comment on the slug, looked up on the field comments are stored under |
| `PostService.CommentPost` | src/post/post.service.ts:243-277 | corrected upsert: edits the caller's existing comment on the post, else creates one; the response is the post and the text |
| `PostService.UncommentPost` | src/post/post.service.ts:279-299 | 404 for an unknown slug, then for an unknown comment. Deletes only that comment row, with no ownership check. The response is the post with every comment still filed under the slug, so it omits the deleted one |
| `PostService.AddReply` | src/post/post.service.ts:305-318 | 404 for an unknown comment. Stores the reply and appends exactly its id to the comment's list, keeping earlier entries |
| `PostService.ReplyIndexAsWritten` | src/post/post.service.ts:328-330 | the index look-up as written never finds an entry, whatever the list and the reply id |
| `PostService.DeleteReplyWith` | src/post/post.service.ts:320-338 | 404 for an unknown comment, then for an unknown reply. Deletes the reply row; splices the list only when the index look-up matched |
| `PostService.DeleteReplyAsWritten` | src/post/post.service.ts:325-337 | deletes the reply row and leaves every comment unchanged: the `findIndex` callback returns nothing |
| `PostService.DeleteReply` | src/post/post.service.ts:325-337 | corrected: also removes the first entry for the reply id from the comment's list |
| `PostListing.FindAllPipeline` | src/post/post.service.ts:28-71 | the stage kinds come in a fixed order (category, author, sort, limit, skip), each at most once, and the sort is always there |
| `PostListing.CategoryStageIffGiven` | src/post/post.service.ts:30-39 | a category filter is present exactly when a non-empty category is given, and carries it |
| `PostListing.AuthorStageIffKnown` | src/post/post.service.ts:41-52 | an author filter is present exactly when the named author exists; it matches that user's id |
| `PostListing.PagingStagesIffGiven` | src/post/post.service.ts:61-71 | a limit or skip stage is present exactly when that parameter is given, and carries its text |
| `PostProperties.LikersAfterWrite` | src/post/post.service.ts:180-186 | rewriting one user changes the number of likers by that user's own change in membership |
| `PostProperties.DislikersAfterWrite` | src/post/post.service.ts:223-234 | the same for dislikers |
| `PostProperties.MatchedWriteKeepsCounters` | src/post/post.service.ts:180-186 | a write whose counter changes match the one user's changes keeps every post's counters equal to its number of likers and dislikers |
| `PostProperties.LikeKeepsCounters` | src/post/post.service.ts:176-186 | like keeps `likes`/`dislikes` equal to the number of users listing the post, and keeps lists free of duplicates |
| `PostProperties.DislikeKeepsCounters` | src/post/post.service.ts:215-234 | dislike keeps the same counter invariant |
| `PostProperties.CreateKeepsCounters` | src/post/post.service.ts:95-100 | a new post with zeroed counters keeps the counter invariant, provided no user already lists its id |
| `PostProperties.UpdateKeepsCounters` | src/post/post.service.ts:119-121 | editing a post keeps the counter invariant |
| `PostProperties.DeleteKeepsCounters` | src/post/post.service.ts:133 | deleting posts keeps the invariant for the posts that remain, even with dangling ids left in users' lists |
| `PostProperties.ReadKeepsCounters` | src/post/post.service.ts:144-151 | reading a post keeps the counter invariant |
| `PostProperties.SameSlugsSameLookup` | src/post/post.service.ts:387-393 | a write that keeps every slug keeps the slug look-up |
| `PostProperties.LikeIsIdempotent` | src/post/post.service.ts:176-183 | a second like leaves the store as the first left it |
| `PostProperties.LikeTwiceCountsOnce` | src/post/post.service.ts:176-183 | two likes raise `likes` by exactly one, or by none if already liked |
| `PostProperties.DislikeIsIdempotent` | src/post/post.service.ts:215-231 | when favourites has no duplicates, a second dislike leaves the store as the first left it |
| `PostProperties.LikeThenDislike` | src/post/post.service.ts:176-231 | like then dislike: `likes` and favourites return to where they were; `dislikes` +1; the post is appended to dislikes |
| `PostProperties.DislikeThenLikeHoldsBoth` | src/post/post.service.ts:159-189 | after dislike then like, the caller lists the post both as liked and as disliked |
| `PostProperties.LikeMovesCounterWithMembership` | src/post/post.service.ts:180-183 | the change in `likes` equals the change in the post's count in favourites; dislikes are untouched |
| `PostProperties.DislikeMovesCountersWithMembership` | src/post/post.service.ts:223-231 | the changes in `likes` and `dislikes` equal the changes in the post's counts in the two lists |
| `PostProperties.SameTitleSlugsDifferBySuffix` | src/post/post.service.ts:395-401 | two slugs for the same title are equal exactly when their random suffixes are |
| `PostProperties.ZeroViewsStayZero` | src/post/post.service.ts:144-150 | as written, a post with 0 views keeps 0 through any run of reads |
| `PostProperties.FreshPostViewsNeverGrow` | src/post/post.service.ts:97-99 | a newly created post's views stay 0 whoever reads it |
| `PostProperties.CountedReadsAddUp` | src/post/post.service.ts:144-150 | with the corrected counter, n reads by non-authors add exactly n |
| `PostProperties.AsWrittenSecondCommentAddsRow` | src/post/post.service.ts:250-267 | as written, two comments by one user on one post leave two rows, breaking one-comment-per-user |
| `PostProperties.SecondCommentEdits` | src/post/post.service.ts:250-271 | corrected: after two comments there is one row for that user and post, holding the second text |
| `PostProperties.CommentPostKeepsOneCommentEach` | src/post/post.service.ts:250-271 | corrected commenting keeps at most one comment per (post, user) |
| `PostProperties.CommentThenUncommentRestores` | src/post/post.service.ts:257-296 | a first comment, deleted again by the id it was stored under, gives back the original store |
| `PostProperties.AsWrittenDeletedReplyLingers` | src/post/post.service.ts:328-337 | as written, add then delete leaves the reply id in the comment's list while its row is gone |
| `PostProperties.AddThenDeleteReplyRestores` | src/post/post.service.ts:305-337 | corrected: add then delete gives back the original store |
| `Auth.BearerToken` | src/user/middleware/auth.middleware.ts:24 | `split(' ')[1]`: absent exactly when there is no space. Otherwise it is the maximal run without spaces after the first space |
| `Auth.FindById` | src/user/user.service.ts:90-96 | the user with that id, or none exactly when it is gone |
| `Auth.Resolve` | src/user/middleware/auth.middleware.ts:24-38 | a present header resolves to a user exactly when its token verifies to an object whose `id` names an existing user, and then to that user; a header without a token resolves to nobody |
| `Auth.Use` | src/user/middleware/auth.middleware.ts:13-39 | `next` is called once, with no error, on every path. A missing or empty header gives no user. A user is set exactly when the token verifies to an object with a well-formed `id` of an existing user |
| `Auth.CanActivate` | src/user/guards/auth.guard.ts:11-19 | true exactly when a user is present. Otherwise it throws 401 "Not Authorized"; it never returns false |
| `Auth.SchemeAndTokenSplit` | src/user/middleware/auth.middleware.ts:24 | `<scheme> <token>` with no spaces inside yields the token |
| `Auth.UpToSpaceOfPrefix` | src/user/middleware/auth.middleware.ts:24 | splitting stops at the first space |
| `Auth.BareTokenIsAnonymous` | src/user/middleware/auth.middleware.ts:24-38 | a header without a space resolves to no user, and `next` is still called once |
| `Auth.GuardAfterMiddleware` | src/user/guards/auth.guard.ts:15-18 | behind the middleware, the guard admits exactly the requests with a resolved user and refuses the rest with 401 |
| `UserService.CreateUser` | src/user/user.service.ts:20-45 | a taken email gives 422, even when the username is also taken. Otherwise a taken username gives 422. On success exactly one user is added, with the given fields and the hashed password. Favourites and dislikes are absent in the source and empty lists in the model |
| `UserService.LoginUser` | src/user/user.service.ts:47-79 | unknown email: 422. Wrong password: 400, same message. Success: that user's selected fields, without a password |
| `UserService.UpdateUser` | src/user/user.service.ts:81-88 | present fields overwrite and only that user changes; an unknown id throws |
| `UserService.CreateUserKeepsCredentialsUnique` | src/user/user.service.ts:21-44 | registration keeps emails and usernames unique |
| `UserService.UpdateUserCanDuplicateEmail` | src/user/user.service.ts:85-87 | profile update can give two users the same email |
| `UserService.UpdateUserIsIdempotent` | src/user/user.service.ts:85-87 | the same update applied twice equals applying it once |
| `UserService.RegisterThenLogin` | src/user/user.service.ts:20-78 | a user who just registered logs in with the same email and password and gets the new account |
| `UserService.GenerateJwtSignsIdentityOnly` | src/user/user.service.ts:98-104 | no user field other than id, email and username reaches the token: two users who agree on those get the same token, whatever their password, profile or lists |
| `Session.IssuedTokenResolves` | src/user/user.service.ts:98-104 | a Bearer header carrying a token signed from {id, email, username} resolves to the user stored now under that id, or to none |
| `Session.IssuedTokenPassesGuard` | src/user/guards/auth.guard.ts:15-18 | such a request passes the guard exactly while that user exists |

## Left out

- HTTP controllers, module wiring and bootstrap. Decorators that extract the caller's id are left out too; `src/user/decorators/user.decorator.ts` is not part of this model. Caller ids are compared as plain values.
- What the database does with the `findAll` pipeline: regex matching, sorting, and `$limit`/`$skip` on query text. Only the stage list is modelled.
- The `findAll` response (`buildPostsResponse`) and the unused `currentUserId` parameter of `findAll`.
- The random slug suffix. It comes from `Math.random` and is a parameter here. Float-to-base-36 conversion is not modelled, and `slugify` is opaque.
- bcrypt hashing and comparing, and JWT signing, verification and the 30-minute expiry. These are oracles. Two properties are assumed of them, each as a lemma's `requires`: a signed token verifies to the id it was signed with (`Session.VerifiesSigned`), and bcrypt accepts a password against its own digest (`UserService.RegisterThenLogin`). `Session.VerifiesSigned` also assumes that signer and verifier share one secret. The source registers the JWT module twice. `UserService` signs with `JWTSECRET` imported from `config` (src/user/user.module.ts:5, 13). The middleware verifies with `configService.get('JWTSECRET')` (src/app.module.ts:24-28). If those two values differ, every token fails verification and every request passes as anonymous.
- Concurrency. The user and post saves in like/dislike, and the comment and reply saves, are not atomic in the source. Each call is one atomic step here.
- Timestamps, `console.log`, the author object embedded in a post, and the `User` relation arrays other than favourites. `dislikes` is not declared on the user entity; it is an undeclared field the services read and write.
- A database failure thrown by any repository call.
- The `unique: true` options on the username and email columns of the user entity and on the slug column of the post entity. `synchronize` is off in the ORM configuration, so no index is built. No database constraint is modelled: uniqueness of credentials comes only from the checks in `createUser`, and two posts may share a slug, which is why `deletePost` can remove several and the slug look-up picks the least id.
- Bodies with unexpected fields. `Object.assign` copies whatever the request body holds. Create/update bodies are modelled as title, content and categories. Registration and profile updates are modelled as username, email, bio and profile picture, with the password at registration. The `firstName` and `lastName` columns of the user entity (src/user/entities/user.entity.ts:23-27) are not modelled.
- PostService.UpdatePost, PostService.CreatePost: neither models a body that is missing altogether. That makes `updatePostDto.title` or `createPostDto.title` throw before `getSlug` runs. Only an absent title is modelled; it gives the same 500.
- PostService.DeletePost: the source compares the embedded `post.author._id` and this model compares `authorId`. Both hold the creator's id in every store the model reaches.
- PostService.DislikePost: a user created by `createUser` (user.service.ts:42-44) has no `favourites` or `dislikes` field. `dislikePost` defaults only `dislikes` (post.service.ts:211-213) and then calls `user.favourites.findIndex` (post.service.ts:215). For a user who has never liked a post, that throws a TypeError, answered with 500. The model starts both lists empty, so that call succeeds here.
- PostService.GetSinglePostBySlug: assumes the caller id equals `authorId` exactly when the caller wrote the post. Line 147 compares with `!==` and no `.toString()`, unlike lines 115 and 130. If the caller id arrives as an ObjectId while `authorId` is the string stored at line 96, the author's own reads would also count whenever views are non-zero. As written, views never leave 0, so nothing observable changes.
- Malformed ids in the request path. `new ObjectId(commentId)` (post.service.ts:288, 369) and `new ObjectId(replyId)` (post.service.ts:356) throw on text that is not an object id, and the request gets 500 before any 404 check runs. Ids are natural numbers here, so that path cannot be expressed. The 404 rows of `Store.FindCommentById`, `Store.FindReplyById`, `PostService.UncommentPost`, `PostService.AddReply` and `PostService.DeleteReplyWith` apply to well-formed ids only. The same holds for the caller id in `likePost`/`dislikePost` (post.service.ts:166, 205).
- Auth.Use: `verify` is modelled only on present tokens. A missing token (`undefined`) is treated as verification throwing, as the token library does.

## Findings

| source | as written | input that shows it | evidently intended | confidence | as-written member | corrected member |
|---|---|---|---|---|---|---|
| src/post/post.service.ts:144-150 | views are incremented only when already non-zero | any read of a newly created post (views 0) by a non-author | each non-author read adds one | high, not executed | `PostService.GetSinglePostBySlug`, `PostProperties.FreshPostViewsNeverGrow` | `PostService.GetSinglePostCountingViews`, `PostProperties.CountedReadsAddUp` |
| src/post/post.service.ts:250-263 | the earlier-comment look-up filters on `commenterId`, but comments store `userId`, so it never matches | user u comments "a" then "b" on one post | one comment per (post, user), edited in place | medium, not executed | `PostService.CommentPostAsWritten`, `PostProperties.AsWrittenSecondCommentAddsRow` | `PostService.CommentPost`, `PostProperties.SecondCommentEdits` |
| src/post/post.service.ts:328-330 | the `findIndex` callback has a block body with no `return`, so no entry ever matches | add a reply, then delete it | the reply id leaves the comment's list | high, not executed | `PostService.DeleteReplyAsWritten`, `PostProperties.AsWrittenDeletedReplyLingers` | `PostService.DeleteReply`, `PostProperties.AddThenDeleteReplyRestores` |
