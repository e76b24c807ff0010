/** `PostService.findAll` as the aggregation pipeline it builds. What the
    database does with the pipeline (regular-expression matching, sorting,
    paging) is not modelled; the stage list is. */
module PostListing {
  import opened Http
  import opened Store

  /** The query string of `GET /posts`; every parameter arrives as text. */
  datatype PostsQuery = PostsQuery(
    category: Option<string>,
    author: Option<string>,
    limit: Option<string>,
    offset: Option<string>)

  datatype Stage =
    | MatchCategory(pattern: string)     // categories match the pattern, ignoring case
    | MatchAuthor(authorId: UserId)
    | SortNewestThenMostLiked            // createdAt descending, then likes descending
    | Limit(count: string)
    | Skip(count: string)

  /** JavaScript truthiness of an optional query parameter. */
  predicate Given(p: Option<string>)
  {
    p.Some? && p.value != ""
  }

  /** The rank of a stage kind in the fixed order the pipeline is built in. */
  function Rank(s: Stage): nat
  {
    match s
    case MatchCategory(_) => 0
    case MatchAuthor(_) => 1
    case SortNewestThenMostLiked => 2
    case Limit(_) => 3
    case Skip(_) => 4
  }

  /** The pipeline `findAll` hands to the database: filters, then the sort,
      then paging, each stage kind at most once and in that order. */
  function FindAllPipeline(users: map<UserId, User>, q: PostsQuery): (p: seq<Stage>)
    ensures forall i, j :: 0 <= i < j < |p| ==> Rank(p[i]) < Rank(p[j])
    ensures SortNewestThenMostLiked in p
  {
    var byCategory := if Given(q.category) then [MatchCategory(q.category.value)] else [];
    var author := if Given(q.author) then FindUserByUsername(users, q.author.value) else None;
    var byAuthor := if author.Some? then [MatchAuthor(author.value)] else [];
    var limit := if Given(q.limit) then [Limit(q.limit.value)] else [];
    var skip := if Given(q.offset) then [Skip(q.offset.value)] else [];
    byCategory + byAuthor + [SortNewestThenMostLiked] + limit + skip
  }

  /** A category filter is added exactly when a category is given, and it
      carries that category as its pattern. */
  lemma CategoryStageIffGiven(users: map<UserId, User>, q: PostsQuery, s: Stage)
    requires s.MatchCategory?
    ensures s in FindAllPipeline(users, q) <==> Given(q.category) && s.pattern == q.category.value
  {
  }

  /** An author filter is added only when a user with that name exists; an
      unknown author filters nothing. */
  lemma AuthorStageIffKnown(users: map<UserId, User>, q: PostsQuery, s: Stage)
    requires s.MatchAuthor?
    ensures s in FindAllPipeline(users, q) <==>
      Given(q.author) && FindUserByUsername(users, q.author.value) == Some(s.authorId)
  {
  }

  /** Paging stages appear exactly for the paging parameters given, with the
      limit before the skip. */
  lemma PagingStagesIffGiven(users: map<UserId, User>, q: PostsQuery, s: Stage)
    requires s.Limit? || s.Skip?
    ensures s.Limit? ==> (s in FindAllPipeline(users, q) <==> Given(q.limit) && s.count == q.limit.value)
    ensures s.Skip? ==> (s in FindAllPipeline(users, q) <==> Given(q.offset) && s.count == q.offset.value)
  {
  }
}
