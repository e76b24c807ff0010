/** `UserService`: registration, login, profile update, and the claims a
    session token carries.

    bcrypt is an oracle pair: `hash` is what the entity's insert hook stores
    in place of the plain password, and `compare(plain, digest)` is bcrypt's
    check. Token signing is an opaque function `sign` of the payload. */
module UserService {
  import opened Http
  import opened Store

  /** The registration body. Profile fields left out take the column default. */
  datatype Registration = Registration(
    username: string,
    email: string,
    password: string,
    bio: Option<string>,
    profilePic: Option<string>)

  datatype LoginRequest = LoginRequest(email: string, password: string)

  /** What login hands back: the selected columns, with the password deleted. */
  datatype LoginView = LoginView(id: UserId, username: string, email: string, profilePic: string, bio: string)

  /** The profile update body: the fields present overwrite the stored ones. */
  datatype UserPatch = UserPatch(
    username: Option<string>,
    email: Option<string>,
    bio: Option<string>,
    profilePic: Option<string>)

  /** The claims `generateJwt` signs. */
  datatype JwtPayload = JwtPayload(id: UserId, email: string, username: string)

  function OrElse(o: Option<string>, d: string): string
  {
    if o.Some? then o.value else d
  }

  /** No two users share an email, and no two share a username. */
  predicate CredentialsUnique(users: map<UserId, User>)
  {
    forall a, b :: a in users && b in users && a != b ==>
      users[a].email != users[b].email && users[a].username != users[b].username
  }

  /** `createUser`: a taken email is refused first, then a taken username,
      both with 422; otherwise exactly one user is added, holding the hashed
      password. The favourites and dislikes the source leaves absent start
      empty here. */
  function CreateUser(users: map<UserId, User>, input: Registration, id: UserId,
                      hash: string -> string): (r: Result<Step<map<UserId, User>, User>>)
    requires id !in users
    ensures FindUserByEmail(users, input.email).Some? ==>
      r == Err(Error(Unprocessable, "Email has already been taken"))
    ensures FindUserByEmail(users, input.email).None? && FindUserByUsername(users, input.username).Some? ==>
      r == Err(Error(Unprocessable, "Username has already been taken"))
    ensures r.Ok? <==> FindUserByEmail(users, input.email).None? && FindUserByUsername(users, input.username).None?
    ensures r.Ok? ==>
      && r.value.db == users[id := r.value.out]
      && r.value.out.username == input.username
      && r.value.out.email == input.email
      && r.value.out.password == hash(input.password)
      && r.value.out.bio == OrElse(input.bio, "")
      && r.value.out.profilePic == OrElse(input.profilePic, "")
      && r.value.out.favourites == [] && r.value.out.dislikes == []
  {
    if FindUserByEmail(users, input.email).Some? then Err(Error(Unprocessable, "Email has already been taken"))
    else if FindUserByUsername(users, input.username).Some? then Err(Error(Unprocessable, "Username has already been taken"))
    else
      var user := User(input.username, input.email, hash(input.password),
                       OrElse(input.bio, ""), OrElse(input.profilePic, ""), [], []);
      Ok(Step(users[id := user], user))
  }

  /** `loginUser`: an unknown email is 422 and a wrong password is 400, with
      the same message; a match yields the user without its password. */
  function LoginUser(users: map<UserId, User>, input: LoginRequest,
                     compare: (string, string) -> bool): (r: Result<LoginView>)
    ensures FindUserByEmail(users, input.email).None? ==>
      r == Err(Error(Unprocessable, "Credentials are not valid"))
    ensures FindUserByEmail(users, input.email).Some? ==>
      var id := FindUserByEmail(users, input.email).value;
      && (!compare(input.password, users[id].password) ==> r == Err(Error(BadRequest, "Credentials are not valid")))
      && (compare(input.password, users[id].password) ==>
            r == Ok(LoginView(id, users[id].username, users[id].email, users[id].profilePic, users[id].bio)))
  {
    match FindUserByEmail(users, input.email)
    case None => Err(Error(Unprocessable, "Credentials are not valid"))
    case Some(id) =>
      var u := users[id];
      if !compare(input.password, u.password) then Err(Error(BadRequest, "Credentials are not valid"))
      else Ok(LoginView(id, u.username, u.email, u.profilePic, u.bio))
  }

  /** `updateUser`: the fields present overwrite the stored user, which is
      saved; nothing is checked for uniqueness. An unknown id makes
      `Object.assign` throw on the missing user. */
  function UpdateUser(users: map<UserId, User>, id: UserId, patch: UserPatch): (r: Result<Step<map<UserId, User>, User>>)
    ensures r.Err? <==> id !in users
    ensures r.Err? ==> r.error == Error(ServerError, "Cannot convert undefined or null to object")
    ensures r.Ok? ==>
      var u := users[id];
      && r.value.db == users[id := r.value.out]
      && r.value.out == u.(username := OrElse(patch.username, u.username),
                           email := OrElse(patch.email, u.email),
                           bio := OrElse(patch.bio, u.bio),
                           profilePic := OrElse(patch.profilePic, u.profilePic))
  {
    if id !in users then Err(Error(ServerError, "Cannot convert undefined or null to object"))
    else
      var u := users[id];
      var u' := u.(username := OrElse(patch.username, u.username),
                   email := OrElse(patch.email, u.email),
                   bio := OrElse(patch.bio, u.bio),
                   profilePic := OrElse(patch.profilePic, u.profilePic));
      Ok(Step(users[id := u'], u'))
  }

  /** `generateJwt`: the token signs the id, email and username, nothing more. */
  function GenerateJwt(sign: JwtPayload -> string, id: UserId, u: User): string
  {
    sign(JwtPayload(id, u.email, u.username))
  }

  /* ----------------------------------------------------------------------
   * Properties
   * -------------------------------------------------------------------- */

  /** The token carries the id, email and username and nothing else: two
      users that agree on those get the same token, whatever their password,
      profile or lists. */
  lemma GenerateJwtSignsIdentityOnly(sign: JwtPayload -> string, id: UserId, u: User, v: User)
    requires u.email == v.email && u.username == v.username
    ensures GenerateJwt(sign, id, u) == GenerateJwt(sign, id, v)
  {
  }

  /** Registration keeps emails and usernames unique. */
  lemma CreateUserKeepsCredentialsUnique(users: map<UserId, User>, input: Registration,
                                         id: UserId, hash: string -> string)
    requires id !in users
    requires CredentialsUnique(users)
    requires CreateUser(users, input, id, hash).Ok?
    ensures CredentialsUnique(CreateUser(users, input, id, hash).value.db)
  {
    var users' := CreateUser(users, input, id, hash).value.db;
    forall a, b | a in users' && b in users' && a != b
      ensures users'[a].email != users'[b].email && users'[a].username != users'[b].username
    {
      if a == id {
        assert users[b].email != input.email && users[b].username != input.username;
      } else if b == id {
        assert users[a].email != input.email && users[a].username != input.username;
      }
    }
  }

  /** Profile update does not: giving one user another's email leaves two
      users sharing it. */
  lemma UpdateUserCanDuplicateEmail(users: map<UserId, User>, a: UserId, b: UserId)
    requires a in users && b in users && a != b
    ensures var r := UpdateUser(users, a, UserPatch(None, Some(users[b].email), None, None));
      r.Ok? && !CredentialsUnique(r.value.db)
  {
    var users' := UpdateUser(users, a, UserPatch(None, Some(users[b].email), None, None)).value.db;
    assert users'[a].email == users'[b].email;
  }

  /** Applying the same profile update twice is applying it once. */
  lemma UpdateUserIsIdempotent(users: map<UserId, User>, id: UserId, patch: UserPatch)
    requires id in users
    ensures var users1 := UpdateUser(users, id, patch).value.db;
      UpdateUser(users1, id, patch).Ok? && UpdateUser(users1, id, patch).value.db == users1
  {
  }

  /** A user who has just registered can log in with the same email and
      password, provided bcrypt accepts a password against its own digest,
      and gets back the new account. */
  lemma RegisterThenLogin(users: map<UserId, User>, input: Registration, id: UserId,
                          hash: string -> string, compare: (string, string) -> bool)
    requires id !in users
    requires CreateUser(users, input, id, hash).Ok?
    requires compare(input.password, hash(input.password))
    ensures var users' := CreateUser(users, input, id, hash).value.db;
      LoginUser(users', LoginRequest(input.email, input.password), compare)
        == Ok(LoginView(id, input.username, input.email, OrElse(input.profilePic, ""), OrElse(input.bio, "")))
  {
    var users' := CreateUser(users, input, id, hash).value.db;
    assert users'[id].email == input.email;
    var found := FindUserByEmail(users', input.email);
    assert found == Some(id);
  }
}
