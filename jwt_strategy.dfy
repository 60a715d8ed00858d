/** The JWT strategy's `validate`: a verified token's payload is resolved to the stored
    user, and only that user's id and email are attached to the request. */
module JwtStrategy {
  import opened Wrappers
  import opened HttpErrors
  import opened Users
  import opened Auth

  const USER_NOT_FOUND := "User not found"

  /** `validate`: the user whose id is the payload's subject, reduced to id and email as
      stored (the payload's email is not used); "User not found" when there is none. */
  function Validate(rows: seq<User>, payload: JwtPayload): (r: Result<PublicUser, HttpError>)
    ensures FindById(rows, payload.sub).None? <==> r.Failure?
    ensures r.Failure? ==> r.error == Unauthorized(USER_NOT_FOUND)
    ensures r.Success? ==> exists u :: u in rows && u.id == payload.sub && r.value == PublicUser(u.id, u.email)
  {
    match FindById(rows, payload.sub)
    case None => Failure(Unauthorized(USER_NOT_FOUND))
    case Some(user) => Success(Public(user))
  }

  /** The email claimed in the payload has no influence on the identity. */
  lemma ValidateIgnoresPayloadEmail(rows: seq<User>, payload: JwtPayload, email: string)
    ensures Validate(rows, payload) == Validate(rows, payload.(email := email))
  {
  }

  /** A token issued by `login` for a stored user resolves to exactly the identity the login
      response reported. */
  lemma {:induction false} LoginTokenResolvesToUser(rows: seq<User>, k: nat, sign: JwtPayload -> string)
    requires UniqueKeys(rows) && k < |rows|
    ensures Validate(rows, PayloadFor(rows[k])) == Success(Login(rows[k], sign).user)
  {
    FindByIdFindsRow(rows, k);
  }
}
