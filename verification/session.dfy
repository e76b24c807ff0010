/** How the token `generateJwt` issues at login comes back through the
    middleware on later requests. */
module Session {
  import opened Http
  import opened Store
  import opened Auth
  import opened UserService

  /** The one thing assumed of the token library: a token it signed, still
      within its lifetime, verifies to an object whose `id` is the id that
      was signed. */
  ghost predicate VerifiesSigned(sign: JwtPayload -> string, verify: string -> Verification)
  {
    forall p :: verify(sign(p)) == Decoded(Claims(Some(ObjectIdText(p.id))))
  }

  /** A request sent with `Authorization: Bearer <token>` for an issued token
      resolves to the user the token was issued for, as that user is stored
      now, or to nobody once that user is gone. */
  lemma IssuedTokenResolves(users: map<UserId, User>, id: UserId, u: User,
                            sign: JwtPayload -> string, verify: string -> Verification)
    requires VerifiesSigned(sign, verify)
    requires ' ' !in GenerateJwt(sign, id, u)
    ensures Use(users, Some("Bearer " + GenerateJwt(sign, id, u)), verify).user == FindById(users, id)
  {
    SchemeAndTokenSplit("Bearer", GenerateJwt(sign, id, u));
  }

  /** So the guard admits such a request exactly while the user exists. */
  lemma IssuedTokenPassesGuard(users: map<UserId, User>, id: UserId, u: User,
                               sign: JwtPayload -> string, verify: string -> Verification)
    requires VerifiesSigned(sign, verify)
    requires ' ' !in GenerateJwt(sign, id, u)
    ensures CanActivate(Use(users, Some("Bearer " + GenerateJwt(sign, id, u)), verify).user).Ok? <==> id in users
  {
    IssuedTokenResolves(users, id, u, sign, verify);
  }
}
