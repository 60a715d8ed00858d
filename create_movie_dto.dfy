/** Validation of the body of "create movie": a text title, a whole publishing year from
    1800 to ten years after the year the server started, and an optional poster URL. */
module MovieValidation {
  import opened Wrappers

  const MIN_YEAR := 1800
  /** How many years past the start-up year a publishing year may lie. */
  const YEARS_AHEAD := 10

  /** A body field after implicit conversion to its declared type. */
  datatype FieldValue =
    | Absent
    | Null
    | Text(s: string)
    | Integer(n: int)
    | NonInteger  // a fraction, or NaN from text that is not a number
    | OtherValue  // a boolean, an array or an object

  datatype RawCreateMovie = RawCreateMovie(title: FieldValue, publishing_year: FieldValue, poster_url: FieldValue)

  /** A body that passed validation. */
  datatype CreateMovieDto = CreateMovieDto(title: string, publishing_year: int, poster_url: Option<string>)

  /** The largest accepted year. The bound is computed once, from the year at which the
      server loaded the module, and not at each request. */
  function MaxYear(loadYear: int): int {
    loadYear + YEARS_AHEAD
  }

  predicate TitleValid(v: FieldValue) {
    v.Text?
  }

  predicate YearValid(v: FieldValue, loadYear: int) {
    v.Integer? && MIN_YEAR <= v.n <= MaxYear(loadYear)
  }

  /** Optional: null and absent skip the URL check. `isUrl` is the URL validator, not
      modelled here. */
  predicate PosterValid(v: FieldValue, isUrl: string -> bool) {
    v.Absent? || v.Null? || (v.Text? && isUrl(v.s))
  }

  /** The validation pipe on the body: every failing field is reported; a valid body keeps its
      title and year, and its poster URL when one was given. */
  function Validate(raw: RawCreateMovie, loadYear: int, isUrl: string -> bool): (r: Result<CreateMovieDto, set<string>>)
    ensures r.Success? <==> TitleValid(raw.title) && YearValid(raw.publishing_year, loadYear) && PosterValid(raw.poster_url, isUrl)
    ensures r.Success? ==> r.value.title == raw.title.s
    ensures r.Success? ==> MIN_YEAR <= r.value.publishing_year <= loadYear + 10
    ensures r.Success? ==> r.value.publishing_year == raw.publishing_year.n
    ensures r.Success? ==> (r.value.poster_url.Some? <==> raw.poster_url.Text?)
    ensures r.Success? && raw.poster_url.Text? ==> r.value.poster_url == Some(raw.poster_url.s)
    ensures r.Failure? ==> ("title" in r.error <==> !TitleValid(raw.title))
    ensures r.Failure? ==> ("publishing_year" in r.error <==> !YearValid(raw.publishing_year, loadYear))
    ensures r.Failure? ==> ("poster_url" in r.error <==> !PosterValid(raw.poster_url, isUrl))
  {
    var errors := (if TitleValid(raw.title) then {} else {"title"})
                + (if YearValid(raw.publishing_year, loadYear) then {} else {"publishing_year"})
                + (if PosterValid(raw.poster_url, isUrl) then {} else {"poster_url"});
    if errors != {} then Failure(errors)
    else
      Success(CreateMovieDto(raw.title.s, raw.publishing_year.n,
                             if raw.poster_url.Text? then Some(raw.poster_url.s) else None))
  }
}
