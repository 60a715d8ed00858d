/** The front end's poster address rule: absolute URLs are used as they are, paths served
    by the backend are prefixed with the API's base URL. */
module ImageUrl {
  import opened Wrappers
  import opened Strings
  import MovieController

  /** The base URL when `NEXT_PUBLIC_API_URL` is not set. */
  const DEFAULT_API_BASE_URL := "http://localhost:3001"

  /** `API_BASE_URL`: the configured URL when set and non-empty, else the default. */
  function ApiBaseUrl(configured: Option<string>): (base: string)
    ensures configured.Some? && configured.value != "" ==> base == configured.value
    ensures configured.None? || configured.value == "" ==> base == DEFAULT_API_BASE_URL
  {
    if configured.Some? && configured.value != "" then configured.value else DEFAULT_API_BASE_URL
  }

  /** `getImageUrl`: no address for a missing or empty poster URL, the URL itself when it
      starts with "http", and the base URL followed by the URL otherwise. */
  function GetImageUrl(posterUrl: Option<string>, apiBaseUrl: string): (r: Option<string>)
    ensures posterUrl.None? || posterUrl.value == "" ==> r.None?
    ensures posterUrl.Some? && StartsWith(posterUrl.value, "http") ==> r == posterUrl
    ensures posterUrl.Some? && posterUrl.value != "" && !StartsWith(posterUrl.value, "http") ==>
      r == Some(apiBaseUrl + posterUrl.value)
  {
    if posterUrl.None? || posterUrl.value == "" then None
    else if StartsWith(posterUrl.value, "http") then posterUrl
    else Some(apiBaseUrl + posterUrl.value)
  }

  lemma StartsWithAppend(s: string, t: string, prefix: string)
    requires StartsWith(s, prefix)
    ensures StartsWith(s + t, prefix)
  {
    assert (s + t)[..|prefix|] == s[..|prefix|];
  }

  /** With a base URL that starts with "http" (as the default does), applying the rule to
      its own result changes nothing. */
  lemma GetImageUrlIdempotent(posterUrl: Option<string>, apiBaseUrl: string)
    requires StartsWith(apiBaseUrl, "http")
    ensures GetImageUrl(GetImageUrl(posterUrl, apiBaseUrl), apiBaseUrl) == GetImageUrl(posterUrl, apiBaseUrl)
  {
    if posterUrl.Some? && posterUrl.value != "" && !StartsWith(posterUrl.value, "http") {
      StartsWithAppend(apiBaseUrl, posterUrl.value, "http");
    }
  }

  lemma DefaultBaseIsHttp()
    ensures StartsWith(DEFAULT_API_BASE_URL, "http")
  {
  }

  /** A poster the backend stored for an upload is fetched from the API's base URL. */
  lemma {:induction false} UploadedPosterServedFromApi(filename: string, apiBaseUrl: string)
    ensures GetImageUrl(Some(MovieController.POSTER_PREFIX + filename), apiBaseUrl)
         == Some(apiBaseUrl + MovieController.POSTER_PREFIX + filename)
  {
    var path := MovieController.POSTER_PREFIX + filename;
    assert path[0] == '/';
    assert !StartsWith(path, "http");
    assert apiBaseUrl + path == apiBaseUrl + MovieController.POSTER_PREFIX + filename;
  }
}
