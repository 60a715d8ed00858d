/** Validation of the list query (`?page=&limit=`) before it reaches the movie service:
    each field is optional with a default, converted to a number, and must be a whole
    number within its bounds. */
module PaginationDto {
  import opened Wrappers
  import opened PaginationUtil

  const DEFAULT_PAGE := 1
  const DEFAULT_LIMIT := 8
  const MAX_LIMIT := 100

  /** A query field after conversion to a number: absent, a whole number, or a number that
      is not whole (a fraction, or `NaN` from text that is not a number). */
  datatype QueryValue = Absent | Integer(n: int) | NonInteger

  datatype RawPagination = RawPagination(page: QueryValue, limit: QueryValue)

  /** `page`: optional, otherwise a whole number of at least 1. */
  predicate PageValid(v: QueryValue) {
    v.Absent? || (v.Integer? && v.n >= 1)
  }

  /** `limit`: optional, otherwise a whole number from 1 to `MAX_LIMIT`. */
  predicate LimitValid(v: QueryValue) {
    v.Absent? || (v.Integer? && 1 <= v.n <= MAX_LIMIT)
  }

  /** The value a field takes once validated: its own, or the default when absent. */
  function WithDefault(v: QueryValue, default: int): int {
    if v.Integer? then v.n else default
  }

  /** The validation pipe: every failing field is reported; a query that passes carries
      both fields, the absent ones set to their defaults. */
  function Validate(raw: RawPagination): (r: Result<PaginationQuery, set<string>>)
    ensures r.Success? <==> PageValid(raw.page) && LimitValid(raw.limit)
    ensures r.Success? ==> r.value.page == Some(WithDefault(raw.page, DEFAULT_PAGE))
    ensures r.Success? ==> r.value.limit == Some(WithDefault(raw.limit, DEFAULT_LIMIT))
    ensures r.Failure? ==> ("page" in r.error <==> !PageValid(raw.page))
    ensures r.Failure? ==> ("limit" in r.error <==> !LimitValid(raw.limit))
  {
    var errors := (if PageValid(raw.page) then {} else {"page"})
                + (if LimitValid(raw.limit) then {} else {"limit"});
    if errors == {} then
      Success(PaginationQuery(Some(WithDefault(raw.page, DEFAULT_PAGE)),
                              Some(WithDefault(raw.limit, DEFAULT_LIMIT))))
    else
      Failure(errors)
  }

  /** A validated query always yields a page from 1 on and a limit from 1 to `MAX_LIMIT`,
      so the page count is never computed with a zero divisor and `skip` is never negative. */
  lemma ValidQueryGivesUsableParams(raw: RawPagination)
    requires Validate(raw).Success?
    ensures GetPaginationParams(Validate(raw).value).page >= 1
    ensures 1 <= GetPaginationParams(Validate(raw).value).limit <= MAX_LIMIT
    ensures GetPaginationParams(Validate(raw).value).skip >= 0
  {
    var p := GetPaginationParams(Validate(raw).value);
    MulMonotone(0, p.page - 1, p.limit);
  }

  /** An empty query is valid and asks for the first page of `DEFAULT_LIMIT` items. */
  lemma EmptyQueryIsFirstPage()
    ensures Validate(RawPagination(Absent, Absent)) == Success(PaginationQuery(Some(1), Some(8)))
    ensures GetPaginationParams(Validate(RawPagination(Absent, Absent)).value) == PaginationParams(1, 8, 0)
  {
  }
}
