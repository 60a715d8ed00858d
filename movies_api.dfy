/** The front end's movie API calls: unwrapping the backend's response envelope, the list
    fallback for a bare array, and the multipart fields sent to create and update a movie. */
module MoviesApi {
  import opened Wrappers
  import opened Strings
  import opened Json

  const NO_DATA := "No data in response"
  /** The limit reported for a bare array when the query gives none. */
  const FALLBACK_LIMIT := 10

  /** The envelope rule `response.data?.data || response.data`, applied to the body: the
      inner `data` when truthy, else the body itself; a falsy result is "No data in
      response". */
  function Unwrap(body: Json): (r: Result<Json, string>)
    ensures r.Failure? <==> !Truthy(Get(body, "data")) && !Truthy(body)
    ensures r.Failure? ==> r.error == NO_DATA
    ensures r.Success? ==> Truthy(r.value)
    ensures r.Success? && Truthy(Get(body, "data")) ==> r.value == Get(body, "data")
    ensures r.Success? && !Truthy(Get(body, "data")) ==> r.value == body
  {
    var actual := Or(Get(body, "data"), body);
    if !Truthy(actual) then Failure(NO_DATA) else Success(actual)
  }

  /** The page description made up for a bare array of `count` movies. */
  function ArrayMeta(query: Json, count: nat): Json {
    JObj(map[
      "page" := Or(Get(query, "page"), JNum(1)),
      "limit" := Or(Get(query, "limit"), JNum(FALLBACK_LIMIT)),
      "total" := JNum(count),
      "totalPages" := JNum(1),
      "hasMore" := JBool(false)])
  }

  /** `getAll` on the backend's body: an unwrapped value with truthy `data` and `meta` is the
      page as it is; a bare array is wrapped with `ArrayMeta`; anything else is passed on. */
  function GetAll(body: Json, query: Json): (r: Result<Json, string>)
    ensures r.Failure? <==> Unwrap(body).Failure?
    ensures r.Failure? ==> r.error == NO_DATA
    ensures r.Success? && Truthy(Get(Unwrap(body).value, "data")) && Truthy(Get(Unwrap(body).value, "meta")) ==>
      r.value == Unwrap(body).value
    ensures r.Success? && Unwrap(body).value.JArr? ==>
      r.value == JObj(map["data" := Unwrap(body).value, "meta" := ArrayMeta(query, |Unwrap(body).value.items|)])
    ensures r.Success? && !Unwrap(body).value.JArr? ==> r.value == Unwrap(body).value
  {
    match Unwrap(body)
    case Failure(e) => Failure(e)
    case Success(actual) =>
      if Truthy(Get(actual, "data")) && Truthy(Get(actual, "meta")) then Success(actual)
      else if actual.JArr? then
        Success(JObj(map["data" := actual, "meta" := ArrayMeta(query, |actual.items|)]))
      else Success(actual)
  }

  /** The backend's list response, wrapped in its envelope, comes out of `getAll` as the
      page itself, even when the page is empty. */
  lemma BackendPageUnwraps(items: seq<Json>, meta: map<string, Json>, query: Json)
    ensures GetAll(JObj(map["data" := JObj(map["data" := JArr(items), "meta" := JObj(meta)])]), query)
         == Success(JObj(map["data" := JArr(items), "meta" := JObj(meta)]))
  {
  }

  /** A bare array reports all its movies as one page, even an empty array. */
  lemma BareArrayIsOnePage(items: seq<Json>, query: Json)
    requires Unwrap(JArr(items)).Success?
    ensures GetAll(JArr(items), query).Success?
    ensures Get(Get(GetAll(JArr(items), query).value, "meta"), "total") == JNum(|items|)
    ensures Get(Get(GetAll(JArr(items), query).value, "meta"), "totalPages") == JNum(1)
    ensures Get(Get(GetAll(JArr(items), query).value, "meta"), "hasMore") == JBool(false)
  {
  }

  /** A file chosen by the user. */
  datatype FileRef = FileRef(name: string, mimeType: string, size: nat)

  /** A multipart form field. */
  datatype FormField = TextField(name: string, value: string) | FileField(name: string, file: FileRef)

  /** The `poster_url` of an update: not given, `null`, or a string. */
  datatype PosterUrlInput = Undefined | NullUrl | Url(url: string)

  /** The fields of `create`: always the title and the decimal year, and the poster only with
      a file. */
  function CreateFields(title: string, year: int, file: Option<FileRef>): seq<FormField> {
    [TextField("title", title), TextField("publishing_year", IntToString(year))]
      + (if file.Some? then [FileField("poster", file.value)] else [])
  }

  /** The fields of `update`: a non-empty title, a non-zero year, then the poster file when
      there is one, else the poster URL when it was given (`null` sent as ""). */
  function UpdateFields(title: Option<string>, year: Option<int>, posterUrl: PosterUrlInput, file: Option<FileRef>): seq<FormField> {
    (if title.Some? && title.value != "" then [TextField("title", title.value)] else [])
      + (if year.Some? && year.value != 0 then [TextField("publishing_year", IntToString(year.value))] else [])
      + (if file.Some? then [FileField("poster", file.value)]
         else if posterUrl.Undefined? then []
         else [TextField("poster_url", if posterUrl.Url? then posterUrl.url else "")])
  }

  /** `create`'s form, built by successive appends. */
  method BuildCreateForm(title: string, year: int, file: Option<FileRef>) returns (form: seq<FormField>)
    ensures form == CreateFields(title, year, file)
  {
    form := [];
    form := form + [TextField("title", title)];
    form := form + [TextField("publishing_year", IntToString(year))];
    if file.Some? {
      form := form + [FileField("poster", file.value)];
    }
  }

  /** `update`'s form, built by successive appends. */
  method BuildUpdateForm(title: Option<string>, year: Option<int>, posterUrl: PosterUrlInput, file: Option<FileRef>)
    returns (form: seq<FormField>)
    ensures form == UpdateFields(title, year, posterUrl, file)
  {
    form := [];
    if title.Some? && title.value != "" {
      form := form + [TextField("title", title.value)];
    }
    if year.Some? && year.value != 0 {
      form := form + [TextField("publishing_year", IntToString(year.value))];
    }
    if file.Some? {
      form := form + [FileField("poster", file.value)];
    } else if !posterUrl.Undefined? {
      form := form + [TextField("poster_url", if posterUrl.Url? then posterUrl.url else "")];
    }
  }

  function FieldNames(form: seq<FormField>): (names: seq<string>)
    ensures |names| == |form| && forall i :: 0 <= i < |form| ==> names[i] == form[i].name
  {
    seq(|form|, i requires 0 <= i < |form| => form[i].name)
  }

  /** The year sent by `create` reads back as the same number. */
  lemma CreateYearReadsBack(title: string, year: int, file: Option<FileRef>)
    ensures |CreateFields(title, year, file)| >= 2
    ensures CreateFields(title, year, file)[1].TextField? && CreateFields(title, year, file)[1].name == "publishing_year"
    ensures ParseInt(CreateFields(title, year, file)[1].value, false) == Some(year)
  {
    ParseIntOfDecimal(year, false);
  }

  /** An update form names each field at most once, and never carries both a poster file and
      a poster URL; with a file, the file is what is sent. */
  lemma UpdateFieldsWellFormed(title: Option<string>, year: Option<int>, posterUrl: PosterUrlInput, file: Option<FileRef>)
    ensures forall i, j :: 0 <= i < j < |UpdateFields(title, year, posterUrl, file)| ==>
      FieldNames(UpdateFields(title, year, posterUrl, file))[i] != FieldNames(UpdateFields(title, year, posterUrl, file))[j]
    ensures !("poster" in FieldNames(UpdateFields(title, year, posterUrl, file))
              && "poster_url" in FieldNames(UpdateFields(title, year, posterUrl, file)))
    ensures file.Some? ==> FileField("poster", file.value) in UpdateFields(title, year, posterUrl, file)
  {
    var form := UpdateFields(title, year, posterUrl, file);
    var names := FieldNames(form);
    assert forall i :: 0 <= i < |form| ==> form[i].name in {"title", "publishing_year", "poster", "poster_url"};
  }
}
