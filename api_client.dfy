/** The front end's HTTP client: it attaches the stored token to each request when the
    token has the shape of a JWT, drops a malformed stored session, and drops the session
    when the backend answers 401. */
module ApiClient {
  import opened Wrappers
  import opened Strings
  import opened Json
  import opened BrowserStorage

  /** The request headers; the rest of a request is not modelled. */
  datatype RequestConfig = RequestConfig(headers: map<string, string>)

  /** A token is sent when, trimmed, it is non-empty and has exactly three dot-separated
      parts. */
  predicate TokenUsable(token: string) {
    Trim(token) != "" && HasThreeDotParts(Trim(token))
  }

  /** A usable token is one with exactly two dots once trimmed. */
  lemma TokenUsableIffTwoDots(token: string)
    ensures TokenUsable(token) <==> Count(Trim(token), '.') == 2
  {
    ThreePartsIffTwoDots(Trim(token));
  }

  class HttpClient {
    const storage: LocalStorage

    constructor (storage: LocalStorage)
      ensures this.storage == storage
    {
      this.storage := storage;
    }

    /** The request interceptor. Outside a browser nothing happens. With no stored token (or
        an empty one) the request goes out as it is. A usable token is sent as
        "Bearer " + the trimmed token; any other stored token is dropped together with the
        stored user, and the request goes out without a token. */
    method OnRequest(config: RequestConfig, inBrowser: bool) returns (out: RequestConfig)
      modifies storage
      ensures !inBrowser || TOKEN_KEY !in old(storage.items) || old(storage.items)[TOKEN_KEY] == "" ==>
        out == config && storage.items == old(storage.items)
      ensures inBrowser && TOKEN_KEY in old(storage.items) && old(storage.items)[TOKEN_KEY] != "" ==>
        if TokenUsable(old(storage.items)[TOKEN_KEY]) then
          && out == RequestConfig(config.headers["Authorization" := "Bearer " + Trim(old(storage.items)[TOKEN_KEY])])
          && storage.items == old(storage.items)
        else
          out == config && storage.items == old(storage.items) - {TOKEN_KEY, USER_KEY}
      ensures inBrowser && TOKEN_KEY in storage.items && storage.items[TOKEN_KEY] != "" ==>
        TokenUsable(storage.items[TOKEN_KEY])
    {
      out := config;
      if inBrowser {
        var token := storage.GetItem(TOKEN_KEY);
        if token.Some? && token.value != "" {
          var cleanToken := Trim(token.value);
          if cleanToken != "" && HasThreeDotParts(cleanToken) {
            out := RequestConfig(config.headers["Authorization" := "Bearer " + cleanToken]);
          } else {
            storage.ClearSession();
          }
        }
      }
    }

    /** Successful responses are handed on unchanged. */
    function OnResponse(response: Json): (r: Json)
      ensures r == response
    {
      response
    }

    /** The error interceptor: a 401 drops the stored session (in a browser); the error is
        rejected again in every case. */
    method OnResponseError(error: Json, inBrowser: bool) returns (rejected: Json)
      modifies storage
      ensures rejected == error
      ensures inBrowser && Get(Get(error, "response"), "status") == JNum(401) ==>
        storage.items == old(storage.items) - {TOKEN_KEY, USER_KEY}
      ensures !(inBrowser && Get(Get(error, "response"), "status") == JNum(401)) ==>
        storage.items == old(storage.items)
    {
      if inBrowser && Get(Get(error, "response"), "status") == JNum(401) {
        storage.ClearSession();
      }
      rejected := error;
    }
  }
}
