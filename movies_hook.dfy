/** The movie list state of the front end: the movies, the page description, the loading
    flag and the error, as one fetch leaves them. */
module MoviesHook {
  import opened Wrappers
  import opened Json
  import opened MoviesApi

  const DEFAULT_PAGE := 1
  const DEFAULT_LIMIT := 8
  const FETCH_FAILED := "Failed to fetch movies"

  /** How the list request ended: with the backend's body, or rejected with an error. */
  datatype RequestOutcome = Ok(body: Json) | Err(error: Json)

  /** The page description used before any answer and after a failure: the requested page
      and limit (defaults 1 and 8), nothing in it. */
  function ZeroMeta(query: Json): (m: Json)
    ensures Get(m, "page") == Or(Get(query, "page"), JNum(DEFAULT_PAGE))
    ensures Get(m, "limit") == Or(Get(query, "limit"), JNum(DEFAULT_LIMIT))
    ensures Get(m, "total") == JNum(0) && Get(m, "totalPages") == JNum(0) && Get(m, "hasMore") == JBool(false)
  {
    JObj(map[
      "page" := Or(Get(query, "page"), JNum(DEFAULT_PAGE)),
      "limit" := Or(Get(query, "limit"), JNum(DEFAULT_LIMIT)),
      "total" := JNum(0),
      "totalPages" := JNum(0),
      "hasMore" := JBool(false)])
  }

  /** The movies of a page: `response.data.data` when it is an array, else `response.data`
      when that is an array, else none. */
  function MoviesOf(response: Json): (movies: seq<Json>)
    ensures Get(Get(response, "data"), "data").JArr? ==> movies == Get(Get(response, "data"), "data").items
    ensures !Get(Get(response, "data"), "data").JArr? && Get(response, "data").JArr? ==> movies == Get(response, "data").items
    ensures !Get(Get(response, "data"), "data").JArr? && !Get(response, "data").JArr? ==> movies == []
  {
    var inner := Get(Get(response, "data"), "data");
    if inner.JArr? then inner.items
    else if Get(response, "data").JArr? then Get(response, "data").items
    else []
  }

  /** The page description the server sent: `response.data.meta`, else `response.meta`,
      else `ZeroMeta`, by JavaScript truthiness. */
  function ChosenMeta(response: Json, query: Json): (meta: Json)
    ensures Truthy(Get(Get(response, "data"), "meta")) ==> meta == Get(Get(response, "data"), "meta")
    ensures !Truthy(Get(Get(response, "data"), "meta")) && Truthy(Get(response, "meta")) ==> meta == Get(response, "meta")
    ensures !Truthy(Get(Get(response, "data"), "meta")) && !Truthy(Get(response, "meta")) ==> meta == ZeroMeta(query)
  {
    Or(Or(Get(Get(response, "data"), "meta"), Get(response, "meta")), ZeroMeta(query))
  }

  /** The page description of a page: the chosen one, with a total page count of 0 raised to
      1 when `count` movies arrived; every other property is kept. */
  function MetaOf(response: Json, query: Json, count: nat): (m: Json)
    ensures var meta := ChosenMeta(response, query);
      meta.JObj? && Get(meta, "totalPages") == JNum(0) && count > 0 ==> m.JObj? && Get(m, "totalPages") == JNum(1)
    ensures var meta := ChosenMeta(response, query);
      !(meta.JObj? && Get(meta, "totalPages") == JNum(0) && count > 0) ==> m == meta
    ensures forall k :: k != "totalPages" ==> Get(m, k) == Get(ChosenMeta(response, query), k)
  {
    var meta := ChosenMeta(response, query);
    if meta.JObj? && Get(meta, "totalPages") == JNum(0) && count > 0 then
      JObj(meta.fields["totalPages" := JNum(1)])
    else meta
  }

  /** What a fetch leaves behind. */
  datatype Snapshot = Snapshot(movies: seq<Json>, error: Json, pagination: Json)

  /** The state one fetch produces from how the request ended. */
  function FetchResult(query: Json, outcome: RequestOutcome): Snapshot {
    match outcome
    case Err(e) => Snapshot([], ErrorMessage(e, FETCH_FAILED), ZeroMeta(query))
    case Ok(body) =>
      match GetAll(body, query)
      case Failure(message) => Snapshot([], ErrorMessage(ErrorObject(message), FETCH_FAILED), ZeroMeta(query))
      case Success(response) =>
        if !Truthy(response) then Snapshot([], JNull, ZeroMeta(query))
        else
          var movies := MoviesOf(response);
          Snapshot(movies, JNull, MetaOf(response, query, |movies|))
  }

  /** A failed fetch shows its message, no movies, and an empty description of the requested
      page. */
  lemma FailedFetchResets(query: Json, e: Json)
    ensures FetchResult(query, Err(e)).movies == []
    ensures FetchResult(query, Err(e)).pagination == ZeroMeta(query)
    ensures FetchResult(query, Err(e)).error == ErrorMessage(e, FETCH_FAILED)
  {
  }

  /** After a successful fetch there is no error, and a page description that is an object
      never claims zero pages while showing movies. */
  lemma SuccessfulFetchIsConsistent(query: Json, body: Json)
    requires Unwrap(body).Success?
    ensures FetchResult(query, Ok(body)).error == JNull
    ensures FetchResult(query, Ok(body)).pagination.JObj? && Get(FetchResult(query, Ok(body)).pagination, "totalPages") == JNum(0)
            ==> FetchResult(query, Ok(body)).movies == []
  {
  }

  /** An empty body is reported as "No data in response". */
  lemma EmptyBodyReportsNoData(query: Json)
    ensures FetchResult(query, Ok(JNull)).error == JStr(NO_DATA)
    ensures FetchResult(query, Ok(JNull)).movies == []
  {
  }

  /** The query a refetch without arguments repeats: the page and limit on display. */
  function CurrentQuery(pagination: Json): Json {
    JObj(map["page" := Get(pagination, "page"), "limit" := Get(pagination, "limit")])
  }

  class MoviesState {
    var movies: seq<Json>
    var loading: bool
    /** `null` when there is no error. */
    var error: Json
    var pagination: Json

    /** The initial state: loading, no movies, no error, an empty description of the
        requested page. */
    constructor (initialQuery: Json)
      ensures movies == [] && loading && error == JNull && pagination == ZeroMeta(initialQuery)
    {
      movies := [];
      loading := true;
      error := JNull;
      pagination := ZeroMeta(initialQuery);
    }

    /** `fetchMovies`: clears the error, sets loading, and leaves the state `FetchResult`
        describes, with loading off whatever happened. */
    method FetchMovies(query: Json, outcome: RequestOutcome)
      modifies this
      ensures movies == FetchResult(query, outcome).movies
      ensures error == FetchResult(query, outcome).error
      ensures pagination == FetchResult(query, outcome).pagination
      ensures outcome.Ok? && GetAll(outcome.body, query).Success? && Truthy(GetAll(outcome.body, query).value) ==>
        && movies == MoviesOf(GetAll(outcome.body, query).value)
        && pagination == MetaOf(GetAll(outcome.body, query).value, query, |movies|)
      ensures !loading
    {
      loading := true;
      error := JNull;
      match outcome {
        case Err(e) =>
          error := ErrorMessage(e, FETCH_FAILED);
          movies := [];
          pagination := ZeroMeta(query);
        case Ok(body) =>
          var response := GetAll(body, query);
          if response.Failure? {
            error := ErrorMessage(ErrorObject(response.error), FETCH_FAILED);
            movies := [];
            pagination := ZeroMeta(query);
          } else if !Truthy(response.value) {
            movies := [];
            pagination := ZeroMeta(query);
          } else {
            var moviesData := MoviesOf(response.value);
            var meta := ChosenMeta(response.value, query);
            if meta.JObj? && Get(meta, "totalPages") == JNum(0) && |moviesData| > 0 {
              meta := JObj(meta.fields["totalPages" := JNum(1)]);
            }
            movies := moviesData;
            pagination := meta;
          }
      }
      loading := false;
    }

    /** `refetch`: fetches the given query, or without one the page and limit on display. */
    method Refetch(query: Json, outcome: RequestOutcome)
      modifies this
      ensures var q := Or(query, CurrentQuery(old(pagination)));
        movies == FetchResult(q, outcome).movies && error == FetchResult(q, outcome).error
        && pagination == FetchResult(q, outcome).pagination
      ensures !loading
    {
      FetchMovies(Or(query, CurrentQuery(pagination)), outcome);
    }
  }

  /** Refetching without a query after a failure asks again for the page and limit on
      display. */
  lemma RefetchRepeatsPage(pagination: Json, e: Json)
    requires Truthy(Get(pagination, "page")) && Truthy(Get(pagination, "limit"))
    ensures Get(FetchResult(CurrentQuery(pagination), Err(e)).pagination, "page") == Get(pagination, "page")
    ensures Get(FetchResult(CurrentQuery(pagination), Err(e)).pagination, "limit") == Get(pagination, "limit")
  {
  }
}
