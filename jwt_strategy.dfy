/** The passport JWT strategy of the backend: turns the claims of an accepted token into the request user. */
module JwtStrategy {
  import opened Outcomes
  import opened Seqs
  import opened Entities

  const InvalidUserId := "Invalid user ID format"
  const UnauthorizedMessage := "Unauthorized"

  /**
   * `validate`: a `sub` that is not an ObjectId is a BadRequest before any lookup; no user with
   * that id is Unauthorized; otherwise the stored user's id, email and username.
   */
  function Validate(users: seq<User>, payload: TokenPayload, isObjectId: string -> bool): (r: Result<PublicUser>)
    ensures !isObjectId(payload.sub) ==> r == Failure(BadRequest(InvalidUserId))
    ensures isObjectId(payload.sub) && (forall u :: u in users ==> u.id != payload.sub) ==>
      r == Failure(Unauthorized(UnauthorizedMessage))
    ensures isObjectId(payload.sub) && (exists u :: u in users && u.id == payload.sub) ==> r.Success?
    ensures r.Success? ==>
      exists u :: u in users && u.id == payload.sub && r.value == PublicUser(u.id, u.email, u.username)
  {
    if !isObjectId(payload.sub) then Failure(BadRequest(InvalidUserId))
    else match Find(users, (u: User) => u.id == payload.sub)
      case None => Failure(Unauthorized(UnauthorizedMessage))
      case Some(user) => Success(Public(user))
  }

  /** Only `sub` matters: the email and username in the token are not what the result reports. */
  lemma ValidateUsesOnlySubject(users: seq<User>, p: TokenPayload, q: TokenPayload, isObjectId: string -> bool)
    requires p.sub == q.sub
    ensures Validate(users, p, isObjectId) == Validate(users, q, isObjectId)
  {
    FindCongruent(users, (u: User) => u.id == p.sub, (u: User) => u.id == q.sub);
  }
}
