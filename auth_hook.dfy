/** The front end's session state: the signed-in user and the loading flag, kept in step with
    the token and the user stored in the browser. */
module AuthHook {
  import opened Wrappers
  import opened Strings
  import opened Json
  import opened BrowserStorage
  import opened ApiClient

  const NO_RESPONSE := "No response received from server"
  const MISSING_TOKEN := "Invalid response from server: missing access_token"
  const TOKEN_TOO_SHORT := "Invalid token received from server: token is too short"
  const BAD_SIGNIN_FORMAT := "Invalid JWT token format received from server"
  const MISSING_USER := "Invalid response from server: missing user data"
  const BAD_SIGNUP_TOKEN := "Invalid token received from server"
  const BAD_SIGNUP_FORMAT := "Invalid JWT token format"

  /** The shortest token sign-in accepts. */
  const MIN_TOKEN_LENGTH := 10

  /** What a successful sign-in stores: the trimmed token and the user data. */
  datatype Session = Session(token: string, user: Json)

  /** The access token of a sign-in response: its own `access_token`, or, when that is falsy
      and the response has truthy `data`, the `access_token` inside `data`. */
  function AccessToken(response: Json): (t: Json)
    ensures Truthy(t) <==> Truthy(Get(response, "access_token")) || Truthy(Get(Get(response, "data"), "access_token"))
    ensures Truthy(Get(response, "access_token")) ==> t == Get(response, "access_token")
    ensures !Truthy(Get(response, "access_token")) && Truthy(Get(response, "data")) ==>
      t == Get(Get(response, "data"), "access_token")
    ensures !Truthy(Get(response, "access_token")) && !Truthy(Get(response, "data")) ==>
      t == Get(response, "access_token")
  {
    var direct := Get(response, "access_token");
    if !Truthy(direct) && Truthy(Get(response, "data")) then Get(Get(response, "data"), "access_token")
    else direct
  }

  /** The checks `signIn` makes of the server's answer, in order; the session it stores, or
      the error it throws. */
  function SignInCheck(response: Json): (r: Result<Session, Json>)
    ensures r.Success? ==> |r.value.token| >= MIN_TOKEN_LENGTH && HasThreeDotParts(r.value.token)
    ensures r.Success? ==> r.value.token == Trim(ToJsString(AccessToken(response)))
    ensures r.Success? ==> Truthy(r.value.user) && r.value.user == Or(Get(response, "user"), Get(Get(response, "data"), "user"))
    ensures !Truthy(response) ==> r == Failure(ErrorObject(NO_RESPONSE))
    ensures Truthy(response) && !Truthy(AccessToken(response)) ==> r == Failure(ErrorObject(MISSING_TOKEN))
    ensures Truthy(response) && Truthy(AccessToken(response)) && |Trim(ToJsString(AccessToken(response)))| < MIN_TOKEN_LENGTH ==>
      r == Failure(ErrorObject(TOKEN_TOO_SHORT))
    ensures Truthy(response) && Truthy(AccessToken(response)) && |Trim(ToJsString(AccessToken(response)))| >= MIN_TOKEN_LENGTH
            && !HasThreeDotParts(Trim(ToJsString(AccessToken(response)))) ==>
      r == Failure(ErrorObject(BAD_SIGNIN_FORMAT))
    ensures Truthy(response) && Truthy(AccessToken(response)) && |Trim(ToJsString(AccessToken(response)))| >= MIN_TOKEN_LENGTH
            && HasThreeDotParts(Trim(ToJsString(AccessToken(response))))
            && !Truthy(Or(Get(response, "user"), Get(Get(response, "data"), "user"))) ==>
      r == Failure(ErrorObject(MISSING_USER))
    ensures r.Success? <==>
      && Truthy(response) && Truthy(AccessToken(response))
      && |Trim(ToJsString(AccessToken(response)))| >= MIN_TOKEN_LENGTH
      && HasThreeDotParts(Trim(ToJsString(AccessToken(response))))
      && Truthy(Or(Get(response, "user"), Get(Get(response, "data"), "user")))
  {
    if !Truthy(response) then Failure(ErrorObject(NO_RESPONSE))
    else
      var accessToken := AccessToken(response);
      if !Truthy(accessToken) then Failure(ErrorObject(MISSING_TOKEN))
      else
        var token := Trim(ToJsString(accessToken));
        if token == "" || |token| < MIN_TOKEN_LENGTH then Failure(ErrorObject(TOKEN_TOO_SHORT))
        else if !HasThreeDotParts(token) then Failure(ErrorObject(BAD_SIGNIN_FORMAT))
        else
          var userData := Or(Get(response, "user"), Get(Get(response, "data"), "user"));
          if !Truthy(userData) then Failure(ErrorObject(MISSING_USER))
          else Success(Session(token, userData))
  }

  /** The checks `signUp` makes of the server's answer: a non-empty string token with three
      dot-separated parts once trimmed. */
  function SignUpCheck(response: Json): (r: Result<Session, Json>)
    ensures r.Success? <==> Get(response, "access_token").JStr? && Get(response, "access_token").s != ""
                             && HasThreeDotParts(Trim(Get(response, "access_token").s))
    ensures r.Success? ==> r.value == Session(Trim(Get(response, "access_token").s), Get(response, "user"))
    ensures !(Get(response, "access_token").JStr? && Get(response, "access_token").s != "") ==>
      r == Failure(ErrorObject(BAD_SIGNUP_TOKEN))
  {
    var accessToken := Get(response, "access_token");
    if !Truthy(accessToken) || !accessToken.JStr? then Failure(ErrorObject(BAD_SIGNUP_TOKEN))
    else
      var token := Trim(accessToken.s);
      if !HasThreeDotParts(token) then Failure(ErrorObject(BAD_SIGNUP_FORMAT))
      else Success(Session(token, Get(response, "user")))
  }

  /** A three-part token is never empty. */
  lemma ThreePartsNotEmpty(s: string)
    requires HasThreeDotParts(s)
    ensures s != ""
  {
  }

  /** The token a sign-in stores is one the request interceptor sends as it is: usable, and
      already trimmed. */
  lemma SignInStoresUsableToken(response: Json)
    requires SignInCheck(response).Success?
    ensures TokenUsable(SignInCheck(response).value.token)
    ensures Trim(SignInCheck(response).value.token) == SignInCheck(response).value.token
  {
    TrimIdempotent(ToJsString(AccessToken(response)));
  }

  /** So is the token a sign-up stores, although sign-up does not check its length. */
  lemma {:induction false} SignUpStoresUsableToken(response: Json)
    requires SignUpCheck(response).Success?
    ensures TokenUsable(SignUpCheck(response).value.token)
    ensures Trim(SignUpCheck(response).value.token) == SignUpCheck(response).value.token
  {
    var token := SignUpCheck(response).value.token;
    TrimIdempotent(Get(response, "access_token").s);
    ThreePartsNotEmpty(token);
  }

  /** "a.b.c" is already trimmed and has three parts. */
  lemma ShortTokenShape()
    ensures Trim("a.b.c") == "a.b.c" && HasThreeDotParts("a.b.c")
  {
    var token := "a.b.c";
    assert !IsSpace(token[0]) && !IsSpace(token[|token| - 1]);
    assert TrimStart(token) == token;
    assert TrimEnd(token) == token;
    assert Count("c", '.') == 0 by { assert "c"[1..] == ""; }
    assert Count(".c", '.') == 1 by { assert ".c"[1..] == "c"; }
    assert Count("b.c", '.') == 1 by { assert "b.c"[1..] == ".c"; }
    assert Count(".b.c", '.') == 2 by { assert ".b.c"[1..] == "b.c"; }
    assert Count(token, '.') == 2 by { assert token[1..] == ".b.c"; }
    ThreePartsIffTwoDots(token);
  }

  /** Sign-up accepts a token sign-in would refuse: five characters with two dots. */
  lemma SignUpAcceptsShortToken()
    ensures SignUpCheck(JObj(map["access_token" := JStr("a.b.c"), "user" := JObj(map[])])).Success?
    ensures SignInCheck(JObj(map["access_token" := JStr("a.b.c"), "user" := JObj(map[])])).Failure?
  {
    var response := JObj(map["access_token" := JStr("a.b.c"), "user" := JObj(map[])]);
    assert Get(response, "access_token") == JStr("a.b.c");
    ShortTokenShape();
    assert AccessToken(response) == JStr("a.b.c");
  }

  class AuthState {
    const storage: LocalStorage
    /** The signed-in user, `null` when there is none. */
    var user: Json
    var loading: bool

    /** The state before the stored session has been checked. */
    constructor (storage: LocalStorage)
      ensures this.storage == storage && user == JNull && loading
    {
      this.storage := storage;
      user := JNull;
      loading := true;
    }

    /** `isAuthenticated` */
    function IsAuthenticated(): (b: bool)
      reads this
      ensures b <==> Truthy(user)
    {
      Truthy(user)
    }

    /** `checkAuth`: with a stored token, the user the "me" request answers (`me`), or, when
        that request fails, the stored session is dropped; without one nothing is asked.
        Loading ends in every case. */
    method CheckAuth(me: Result<Json, Json>)
      modifies this, storage
      ensures !loading
      ensures !(TOKEN_KEY in old(storage.items) && old(storage.items)[TOKEN_KEY] != "") ==>
        user == old(user) && storage.items == old(storage.items)
      ensures TOKEN_KEY in old(storage.items) && old(storage.items)[TOKEN_KEY] != "" && me.Success? ==>
        user == me.value && storage.items == old(storage.items)
      ensures TOKEN_KEY in old(storage.items) && old(storage.items)[TOKEN_KEY] != "" && me.Failure? ==>
        user == old(user) && storage.items == old(storage.items) - {TOKEN_KEY, USER_KEY}
    {
      var token := storage.GetItem(TOKEN_KEY);
      if token.Some? && token.value != "" {
        match me
        case Success(userData) =>
          user := userData;
        case Failure(_) =>
          storage.ClearSession();
      }
      loading := false;
    }

    /** `signIn`: `answer` is how the sign-in request ended. A session passing every check is
        stored (the user as `stringify` writes it) and becomes the current user; on any error,
        the request's or a check's, the stored session and the user are dropped and the error
        is thrown again. */
    method SignIn(answer: Result<Json, Json>, stringify: Json -> string) returns (r: Result<Json, Json>)
      modifies this, storage
      ensures answer.Failure? ==>
        r == answer && user == JNull && storage.items == old(storage.items) - {TOKEN_KEY, USER_KEY}
      ensures answer.Success? && SignInCheck(answer.value).Failure? ==>
        && r == Failure(SignInCheck(answer.value).error)
        && user == JNull && storage.items == old(storage.items) - {TOKEN_KEY, USER_KEY}
      ensures answer.Success? && SignInCheck(answer.value).Success? ==>
        var session := SignInCheck(answer.value).value;
        && r == answer
        && user == session.user
        && storage.items == old(storage.items)[TOKEN_KEY := session.token][USER_KEY := stringify(session.user)]
      ensures r.Failure? ==> TOKEN_KEY !in storage.items && USER_KEY !in storage.items && !IsAuthenticated()
      ensures r.Success? ==> TokenUsable(storage.items[TOKEN_KEY]) && IsAuthenticated()
    {
      var checked := if answer.Success? then SignInCheck(answer.value) else Failure(answer.error);
      if checked.Failure? {
        storage.ClearSession();
        user := JNull;
        return Failure(checked.error);
      }
      SignInStoresUsableToken(answer.value);
      storage.SetItem(TOKEN_KEY, checked.value.token);
      storage.SetItem(USER_KEY, stringify(checked.value.user));
      user := checked.value.user;
      r := answer;
    }

    /** `signUp`: `answer` is how the sign-up request ended. A failed request is thrown on
        with nothing changed, and so is a token that fails the checks; otherwise the session
        is stored and its user becomes the current user. */
    method SignUp(answer: Result<Json, Json>, stringify: Json -> string) returns (r: Result<Json, Json>)
      modifies this, storage
      ensures answer.Failure? ==> r == answer && user == old(user) && storage.items == old(storage.items)
      ensures answer.Success? && SignUpCheck(answer.value).Failure? ==>
        r == Failure(SignUpCheck(answer.value).error) && user == old(user) && storage.items == old(storage.items)
      ensures answer.Success? && SignUpCheck(answer.value).Success? ==>
        var session := SignUpCheck(answer.value).value;
        && r == answer
        && user == session.user
        && storage.items == old(storage.items)[TOKEN_KEY := session.token][USER_KEY := stringify(session.user)]
      ensures r.Success? ==> TokenUsable(storage.items[TOKEN_KEY])
    {
      if answer.Failure? {
        return answer;
      }
      var checked := SignUpCheck(answer.value);
      if checked.Failure? {
        return Failure(checked.error);
      }
      SignUpStoresUsableToken(answer.value);
      storage.SetItem(TOKEN_KEY, checked.value.token);
      storage.SetItem(USER_KEY, stringify(checked.value.user));
      user := checked.value.user;
      r := answer;
    }

    /** `signOut`: the stored session and the user are dropped. */
    method SignOut()
      modifies this, storage
      ensures user == JNull && !IsAuthenticated()
      ensures storage.items == old(storage.items) - {TOKEN_KEY, USER_KEY}
    {
      storage.ClearSession();
      user := JNull;
    }
  }
}
