/** The authentication gate: `AuthMiddleware.use`, which resolves the
    `Authorization` header of every request to an optional user, and
    `AuthGuard.canActivate`, which admits a request only when a user was
    resolved.

    Token verification is an oracle: `verify` stands for `jwtService.verify`
    and answers, for a token, whether verification threw (bad signature,
    expired, malformed) or what payload it decoded. */
module Auth {
  import opened Http
  import opened Store

  /** What `req.user` holds once resolved: the user document and its id. */
  datatype Principal = Principal(id: UserId, user: User)

  /** The `id` property of a decoded payload, as `new ObjectId(decoded.id)`
      sees it: text naming an object id, or a value the constructor rejects
      by throwing. */
  datatype IdClaim = ObjectIdText(id: UserId) | MalformedId

  /** A decoded token payload: either not an object, or an object that may or
      may not carry an `id` property. */
  datatype Payload = NotAnObject | Claims(id: Option<IdClaim>)

  datatype Verification = Throws | Decoded(payload: Payload)

  /** One call of the middleware's `next`, with the error passed, if any. */
  datatype NextCall = NextCall(error: Option<Error>)

  /** What the middleware leaves behind: `req.user` and the calls of `next`. */
  datatype Passed = Passed(user: Option<Principal>, nexts: seq<NextCall>)

  /** The text before the first space (all of it when there is none). */
  function UpToSpace(s: string): (r: string)
    ensures ' ' !in r
    ensures |r| <= |s| && r == s[..|r|]
    ensures |r| < |s| ==> s[|r|] == ' '
  {
    if s == [] || s[0] == ' ' then []
    else [s[0]] + UpToSpace(s[1..])
  }

  /** `header.split(' ')[1]`: the text between the first space and the next
      one (or the end); `undefined` when the header holds no space. */
  function BearerToken(header: string): (t: Option<string>)
    ensures t.None? <==> ' ' !in header
    ensures t.Some? ==>
      var i := |UpToSpace(header)|;
      && i < |header| && header[i] == ' ' && ' ' !in header[..i]
      && ' ' !in t.value
      && i + 1 + |t.value| <= |header|
      && header[i + 1..i + 1 + |t.value|] == t.value
      && (i + 1 + |t.value| == |header| || header[i + 1 + |t.value|] == ' ')
  {
    var scheme := UpToSpace(header);
    if |scheme| == |header| then None
    else
      var rest := header[|scheme| + 1..];
      var t := UpToSpace(rest);
      assert rest[..|t|] == header[|scheme| + 1..|scheme| + 1 + |t|];
      Some(t)
  }

  /** `userService.findById`. */
  function FindById(users: map<UserId, User>, id: UserId): (r: Option<Principal>)
    ensures r.Some? <==> id in users
    ensures r.Some? ==> r.value == Principal(id, users[id])
  {
    if id in users then Some(Principal(id, users[id])) else None
  }

  /** The user a present, non-empty header resolves to. A missing token is
      rejected by `verify` as any bad token is; every failure inside the
      `try` block, including a malformed id, ends in no user. */
  function Resolve(users: map<UserId, User>, header: string, verify: string -> Verification): (r: Option<Principal>)
    ensures BearerToken(header).None? ==> r.None?
    ensures r.Some? ==>
      && BearerToken(header).Some?
      && verify(BearerToken(header).value) == Decoded(Claims(Some(ObjectIdText(r.value.id))))
      && r.value.id in users && r.value.user == users[r.value.id]
    ensures forall id ::
      (BearerToken(header).Some? && verify(BearerToken(header).value) == Decoded(Claims(Some(ObjectIdText(id)))) && id in users)
      ==> r == Some(Principal(id, users[id]))
  {
    match BearerToken(header)
    case None => None
    case Some(token) =>
      match verify(token)
      case Throws => None
      case Decoded(NotAnObject) => None
      case Decoded(Claims(None)) => None
      case Decoded(Claims(Some(MalformedId))) => None
      case Decoded(Claims(Some(ObjectIdText(id)))) => FindById(users, id)
  }

  /** `AuthMiddleware.use`. It never rejects a request: `next` is called
      exactly once and with no error on every path, and `req.user` is set to
      the user named by a verified token, or to nothing. */
  function Use(users: map<UserId, User>, header: Option<string>, verify: string -> Verification): (r: Passed)
    ensures r.nexts == [NextCall(None)]
    ensures header.None? || header == Some("") ==> r.user.None?
    ensures r.user.Some? <==>
      && header.Some? && BearerToken(header.value).Some?
      && verify(BearerToken(header.value).value).Decoded?
      && verify(BearerToken(header.value).value).payload.Claims?
      && verify(BearerToken(header.value).value).payload.id.Some?
      && verify(BearerToken(header.value).value).payload.id.value.ObjectIdText?
      && verify(BearerToken(header.value).value).payload.id.value.id in users
    ensures r.user.Some? ==>
      r.user.value == Principal(verify(BearerToken(header.value).value).payload.id.value.id,
                                users[verify(BearerToken(header.value).value).payload.id.value.id])
  {
    if header.None? || header.value == "" then Passed(None, [NextCall(None)])
    else Passed(Resolve(users, header.value, verify), [NextCall(None)])
  }

  /** `AuthGuard.canActivate`: admits exactly the requests with a resolved
      user, and rejects the others by throwing 401 rather than by answering
      false. It looks at nothing but `req.user`. */
  function CanActivate(user: Option<Principal>): (r: Result<bool>)
    ensures r.Ok? <==> user.Some?
    ensures r != Ok(false)
    ensures r.Err? ==> r.error == Error(Unauthorized, "Not Authorized")
  {
    if user.Some? then Ok(true) else Err(Error(Unauthorized, "Not Authorized"))
  }

  /** A header of the form `<scheme> <token>` (section 2.1 of RFC 6750 with
      the scheme `Bearer`) yields the token, provided neither part holds a
      space. */
  lemma SchemeAndTokenSplit(scheme: string, token: string)
    requires ' ' !in scheme && ' ' !in token
    ensures BearerToken(scheme + " " + token) == Some(token)
  {
    var h := scheme + " " + token;
    UpToSpaceOfPrefix(scheme, " " + token);
    assert h[|scheme| + 1..] == token;
    UpToSpaceOfPrefix(token, "");
    assert token + "" == token;
  }

  /** The text up to the first space of `a + b`, when `a` has no space and
      `b` is empty or starts with one, is `a`. */
  lemma {:induction false} UpToSpaceOfPrefix(a: string, b: string)
    requires ' ' !in a
    requires b == [] || b[0] == ' '
    ensures UpToSpace(a + b) == a
    decreases |a|
  {
    if a != [] {
      assert (a + b)[0] == a[0];
      assert (a + b)[1..] == a[1..] + b;
      UpToSpaceOfPrefix(a[1..], b);
    } else {
      assert a + b == b;
    }
  }

  /** A token that is sent with no scheme word (no space in the header) never
      reaches `verify`: the request passes as anonymous. */
  lemma BareTokenIsAnonymous(users: map<UserId, User>, token: string, verify: string -> Verification)
    requires ' ' !in token
    ensures Use(users, Some(token), verify).user.None?
    ensures Use(users, Some(token), verify).nexts == [NextCall(None)]
  {
  }

  /** Behind the guard, a request gets through exactly when its header carries
      a verified token naming a user that still exists; otherwise it is
      refused with 401. */
  lemma GuardAfterMiddleware(users: map<UserId, User>, header: Option<string>, verify: string -> Verification)
    ensures var r := CanActivate(Use(users, header, verify).user);
      && (r.Ok? <==> Use(users, header, verify).user.Some?)
      && (r.Err? ==> r.error.status == Unauthorized && Code(r.error.status) == 401)
  {
  }
}
