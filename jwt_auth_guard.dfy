/** The JWT guard: public routes pass without a token; every other route goes to the JWT
    strategy, after a bounded preview of the header is logged; a failed authentication
    becomes "unauthorized" with the most specific message available. */
module JwtAuthGuard {
  import opened Wrappers
  import opened Strings
  import opened HttpErrors
  import opened Json

  const BEARER := "Bearer "
  const UNKNOWN_ERROR := "Unknown error"

  /** What `canActivate` does: let the request through at once, or hand it to the JWT
      strategy, logging the preview of the header when there is one. */
  datatype GuardStep = Allow | Authenticate(preview: Option<string>)

  /** The logged preview of an authorization header: for a bearer header the token's
      characters 7 to 26, otherwise the first 20 characters, then "...". */
  function TokenPreview(header: string): (p: string)
    ensures 3 <= |p| <= 23 && p[|p| - 3..] == "..."
    ensures StartsWith(header, BEARER) ==> p[..|p| - 3] == header[7..Min(27, |header|)]
    ensures !StartsWith(header, BEARER) ==> p[..|p| - 3] == header[..Min(20, |header|)]
  {
    var shown := if StartsWith(header, BEARER) then Substring(header, 7, 27) else Substring(header, 0, 20);
    assert shown == (if StartsWith(header, BEARER) then header[7..Min(27, |header|)] else header[..Min(20, |header|)]);
    shown + "..."
  }

  /** `canActivate`: a public handler or class is let through without looking at the
      header; otherwise the strategy decides, with or without a header. */
  function CanActivate(isPublic: bool, authorization: Option<string>): (g: GuardStep)
    ensures isPublic <==> g == Allow
    ensures !isPublic && (authorization.None? || authorization.value == "") ==> g == Authenticate(None)
    ensures !isPublic && authorization.Some? && authorization.value != "" ==>
      g == Authenticate(Some(TokenPreview(authorization.value)))
  {
    if isPublic then Allow
    else if authorization.None? || authorization.value == "" then Authenticate(None)
    else Authenticate(Some(TokenPreview(authorization.value)))
  }

  /** The message of a failed authentication: `err.message`, else `info.message`, else
      "Unknown error" (each only when truthy). */
  function FailureMessage(err: Json, info: Json): (m: Json)
    ensures Truthy(Get(err, "message")) ==> m == Get(err, "message")
    ensures !Truthy(Get(err, "message")) && Truthy(Get(info, "message")) ==> m == Get(info, "message")
    ensures !Truthy(Get(err, "message")) && !Truthy(Get(info, "message")) ==> m == JStr(UNKNOWN_ERROR)
    ensures Truthy(m)
  {
    Or(Or(Get(err, "message"), Get(info, "message")), JStr(UNKNOWN_ERROR))
  }

  /** `handleRequest`: an error, or no user, is "unauthorized" with `FailureMessage`;
      otherwise the user the strategy produced is returned unchanged. */
  function HandleRequest(err: Json, user: Json, info: Json): (r: Result<Json, HttpError>)
    ensures r.Failure? <==> Truthy(err) || !Truthy(user)
    ensures r.Failure? ==> r.error == Unauthorized(ToJsString(FailureMessage(err, info)))
    ensures r.Success? ==> r.value == user && Truthy(r.value)
  {
    if Truthy(err) || !Truthy(user) then Failure(Unauthorized(ToJsString(FailureMessage(err, info))))
    else Success(user)
  }

  /** A failure never carries an empty message. */
  lemma FailureMessageNotEmpty(err: Json, info: Json)
    requires Get(err, "message").JStr? || !Truthy(Get(err, "message"))
    requires Get(info, "message").JStr? || !Truthy(Get(info, "message"))
    ensures ToJsString(FailureMessage(err, info)) != ""
  {
  }
}
