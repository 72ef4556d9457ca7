/** Token claims. Verifying a token's signature and expiry is left abstract: a
    verifier maps a token to the identity it carries, or to nothing when the token
    does not verify. */
module Auth {
  import opened Errors

  /** The claims a valid token carries. */
  datatype Identity = Identity(uid: string, isAdmin: bool)

  type Verifier = string -> Option<Identity>

  /** The claims of a token; a token that does not verify is an authentication error. */
  function Claims(verify: Verifier, token: string): (r: Result<Identity>)
    ensures r.Err? <==> verify(token).None?
    ensures r.Err? ==> r.error == Biz(AuthToken)
    ensures r.Ok? ==> Some(r.value) == verify(token)
  {
    match verify(token)
    case None => Err(Biz(AuthToken))
    case Some(id) => Ok(id)
  }
}
