# Movie catalogue: a Dafny model

This project models the rules of a small movie catalogue. The backend is NestJS and the
front end is Next.js. Users sign up and sign in, then keep a private list of movies, each
with a title, a publishing year and an optional poster image. The model covers four groups.

- **The catalogue on the backend.**
  - The movies table is a class over a map from id to row, with create, find-one, find-all,
    update and delete.
  - Find-all filters by owner, orders newest first and cuts a `skip`/`take` window.
  - The service stamps the owner on create, and checks "not found" before "not yours" on
    update and delete.
  - Around these sit the pagination arithmetic, the validation of the list query and of the
    create body, the entity-to-response mapping, the controller's poster path and owner
    choice, and the upload filter and file name.
- **Credentials and tokens on the backend.**
  - The users table is a class over a sequence with unique ids and emails.
  - Also modelled: the "looks like a hash" guard before bcrypt's compare, the uniform
    "Invalid credentials" failure, and sign-up uniqueness.
  - The login payload and response, the token-to-user resolution, and the guard's public
    short-circuit, token preview and error-message precedence are modelled too.
- **Session and data state in the front end.**
  - Browser storage is a class over a map.
  - The HTTP client attaches a well-formed token or drops a malformed one, and drops the
    session on 401.
  - The auth hook signs in, signs up, checks the session and signs out.
  - Also modelled: the movie API's response unwrapping and multipart fields, the list state
    after a fetch, the paginator and the poster URL rule.
  - The create-movie and sign-up screens are modelled: their checks, messages and flags.
- **Configuration.** The listen-port resolution and the choice of database options.

JavaScript values that the front end receives are the `Json` datatype. It comes with
JavaScript truthiness, `||`, `?.` and `String(x)`. The module `Strings` gives `trim`,
`split`, `toLowerCase`, `startsWith`, `includes`, `parseInt` and the decimal `toString` of
integers the same semantics as in JavaScript.

Hashing, signing, URL checking, `JSON.stringify`, the clock, random numbers, generated ids
and the current year are parameters. So are the results of requests. Each state-changing
operation is a method of a class whose fields are the state the source changes. Its
`ensures` gives the new state in terms of the old one.

## Model

| member | source | states |
|---|---|---|
| PaginationUtil.CeilDiv | backend/src/common/utils/pagination.util.ts:8 | the page count is the least `q` with `(q-1)*limit < total <= q*limit`, the integer ceiling of `total/limit` for a positive limit |
| PaginationUtil.CreatePaginationMeta | backend/src/common/utils/pagination.util.ts:3-16 | page, limit and total are copied unchanged; `totalPages` is the ceiling of `total/limit`; `hasMore` holds iff `page < totalPages` |
| PaginationUtil.HasMoreIffItemsBeyondPage | backend/src/common/utils/pagination.util.ts:8-14 | `hasMore` holds iff some item lies beyond the requested page (`page*limit < total`) |
| PaginationUtil.EmptyResultHasNoPages | backend/src/common/utils/pagination.util.ts:8-14 | a total of 0 gives 0 pages and no `hasMore` for every page from 1 on |
| PaginationUtil.OrDefault | backend/src/common/utils/pagination.util.ts:19-20 | an absent or zero value falls back to the default, and any other value is kept |
| PaginationUtil.GetPaginationParams | backend/src/common/utils/pagination.util.ts:18-23 | page defaults to 1, limit to 8 (absent or zero), and `skip = (page-1)*limit` |
| PaginationUtil.SkipIsWholePages | backend/src/common/utils/pagination.util.ts:21 | for page and limit from 1 on, `skip` is non-negative, a multiple of limit, and exactly `page-1` pages |
| PaginationDto.Validate | backend/src/common/dto/pagination.dto.ts:5-18 | the query passes iff page is absent or a whole number ≥ 1 and limit is absent or a whole number in 1..100; failing fields are reported exactly; absent fields get 1 and 8 |
| PaginationDto.ValidQueryGivesUsableParams | backend/src/common/dto/pagination.dto.ts:9-16 | a validated query yields a page ≥ 1, a limit in 1..100 (never a zero divisor) and a non-negative skip |
| PaginationDto.EmptyQueryIsFirstPage | backend/src/common/dto/pagination.dto.ts:10-17 | an empty query is the first page of 8 items with skip 0 |
| MovieRepository.Window | backend/src/movies/repositories/movies.repository.ts:27-28 | the window holds at most `take` items, and item `i` is item `skip+i` of the listing |
| MovieRepository.InsertNewestFirst | backend/src/movies/repositories/movies.repository.ts:26 | inserting a row keeps a listing newest first and adds exactly that row (as a multiset) |
| MovieRepository.Patched | backend/src/movies/repositories/movies.repository.ts:32-33 | supplied columns are overwritten, others kept; id, owner and creation time never change; `updated_at` is stamped |
| MovieRepository.PatchedIdempotent | backend/src/movies/repositories/movies.repository.ts:32-33 | applying the same update twice is applying it once |
| MovieRepository.MoviesRepository.Create | backend/src/movies/repositories/movies.repository.ts:13-16 | exactly one row is added under the fresh id with the given columns, and it is returned |
| MovieRepository.MoviesRepository.FindOne | backend/src/movies/repositories/movies.repository.ts:18-20 | the row with that id, or none |
| MovieRepository.MoviesRepository.FindAll | backend/src/movies/repositories/movies.repository.ts:22-30 | the items are the `skip`/`take` window of a listing of exactly the owner's rows (all rows without an owner), newest first; the count is all matches |
| MovieRepository.MoviesRepository.Update | backend/src/movies/repositories/movies.repository.ts:32-39 | an existing row becomes its patched form and is returned; a missing one gives "Movie not found after update" with the table unchanged |
| MovieRepository.MoviesRepository.Delete | backend/src/movies/repositories/movies.repository.ts:41-43 | only the row with that id is removed |
| MovieService.MoviesService.Create | backend/src/movies/movies.service.ts:14-20 | the new row has the body's columns and the caller as owner |
| MovieService.MoviesService.FindAll | backend/src/movies/movies.service.ts:22-31 | the data is the mapped window of the caller's listing for the page and holds at most `limit` items; the meta is built from the full match count |
| MovieService.MoviesService.FindOne | backend/src/movies/movies.service.ts:33-39 | any caller gets the movie with that id, or NotFound("Movie with ID … not found") |
| MovieService.MoviesService.Update | backend/src/movies/movies.service.ts:41-57 | NotFound comes before Forbidden, and either leaves the table unchanged; the owner's update patches exactly that row; other users' rows are never touched |
| MovieService.MoviesService.Remove | backend/src/movies/movies.service.ts:59-70 | NotFound comes before Forbidden, and either leaves the table unchanged; the owner's delete removes exactly that row; other users' rows are never touched |
| MovieResponse.FromEntity | backend/src/movies/dto/movie-response.dto.ts:12-22 | each of the seven fields is copied from the row |
| MovieResponse.FromEntityInjective | backend/src/movies/dto/movie-response.dto.ts:3-22 | the response drops nothing from a row: equal responses come from equal rows |
| MovieResponse.FromEntities | backend/src/movies/dto/movie-response.dto.ts:24-26 | same length, and element `i` is the mapping of row `i` |
| MovieResponse.FromEntitiesAppend | backend/src/movies/dto/movie-response.dto.ts:24-26 | mapping a concatenation maps each part |
| MovieValidation.Validate | backend/src/movies/dto/create-movie.dto.ts:3-15 | the body passes iff the title is text, the year is a whole number from 1800 to the start-up year + 10, and the poster URL is absent, null or a URL; failing fields are reported exactly; values are kept |
| MovieController.CreateCallFor | backend/src/movies/movies.controller.ts:30-54 | a file of 5 MiB or more is BadRequest; otherwise the poster is the file's `/uploads/posters/` path or null, whatever the body says, and the owner is the caller |
| MovieController.CreateIgnoresBodyPoster | backend/src/movies/movies.controller.ts:45-51 | the poster URL in the body has no influence on what is created |
| MovieController.UpdateCallFor | backend/src/movies/movies.controller.ts:66-92 | a file wins over the body's poster URL; without a file an empty or absent URL is left out; the caller is passed as owner |
| MovieController.FindAllCallFor | backend/src/movies/movies.controller.ts:56-59 | the list asked for is always the caller's own |
| MovieController.FindOneCallFor | backend/src/movies/movies.controller.ts:61-64 | only the id is passed, with no owner |
| MovieController.RemoveCallFor | backend/src/movies/movies.controller.ts:94-97 | the caller is passed as owner |
| FileUpload.FileFilter | backend/src/common/interceptors/file-upload.interceptor.ts:23-29 | a file is accepted iff its lower-cased MIME type is image/jpg, image/jpeg, image/png or image/gif; any other is rejected with "Only image files are allowed!" |
| FileUpload.PatternIsLowerCaseMembership | backend/src/common/interceptors/file-upload.interceptor.ts:24 | matching the case-insensitive pattern is the same as membership of the lower-cased type |
| FileUpload.FileFilterIgnoresCase | backend/src/common/interceptors/file-upload.interceptor.ts:24 | the filter gives the same answer for a type and its lower-case form |
| FileUpload.ExtName | backend/src/common/interceptors/file-upload.interceptor.ts:19 | the extension is empty exactly when the name has no dot, has a single dot as its first character (`.bashrc`), or is `..`; otherwise it is the proper suffix from the last dot (`x.tar.gz` gives `.gz`) |
| FileUpload.OwnerPart | backend/src/common/interceptors/file-upload.interceptor.ts:17 | the user's id, or `anonymous` without a user; never empty |
| FileUpload.Filename | backend/src/common/interceptors/file-upload.interceptor.ts:16-21 | the stored name starts with the owner part and a dash, and ends with the original extension |
| FileUpload.FilenameKeepsExtension | backend/src/common/interceptors/file-upload.interceptor.ts:16-21 | for an owner without a dot, the stored name's extension is the original's |
| FileUpload.FilenamesDiffer | backend/src/common/interceptors/file-upload.interceptor.ts:18-20 | two uploads differing in clock or random number get different names |
| FileUpload.SuffixDetermines | backend/src/common/interceptors/file-upload.interceptor.ts:18 | the unique suffix determines the clock value and the random number |
| Users.FindByEmail | backend/src/users/users.service.ts:22-24 | none iff no row has that email; otherwise a stored row with that email |
| Users.FindById | backend/src/users/users.service.ts:26-28 | none iff no row has that id; otherwise a stored row with that id |
| Users.FindByEmailFindsRow | backend/src/users/users.service.ts:22-24 | with unique emails, the lookup of a stored user's email finds that user |
| Users.FindByIdFindsRow | backend/src/users/users.service.ts:26-28 | with unique ids, the lookup of a stored user's id finds that user |
| Users.ValidateCredentials | backend/src/users/users.service.ts:30-60 | no user for an unknown email, a stored value that does not look like a hash, a mismatch or a throwing compare; otherwise exactly the user found by email |
| Users.UnhashedPasswordNeverValidates | backend/src/users/users.service.ts:37-42 | a stored value that is empty, or under 20 characters without `$2`, never validates, whatever compare would say |
| Users.FindByEmailAppend | backend/src/users/users.service.ts:12-24 | after inserting a new email, that email finds the new row and every other lookup is unchanged |
| Users.UsersService.Create | backend/src/users/users.service.ts:12-20 | stores `hash(password, 10)` under a fresh id, never the password; a duplicate email changes nothing |
| Users.UsersService.FindOneByEmail | backend/src/users/users.service.ts:22-24 | none iff no stored user has that email |
| Users.UsersService.FindOneById | backend/src/users/users.service.ts:26-28 | none iff no stored user has that id |
| Users.UsersService.ValidateUser | backend/src/users/users.service.ts:30-60 | the credential decision over the table as it is |
| Auth.PayloadFor | backend/src/auth/auth.service.ts:25 | the payload is exactly the email and, as subject, the id |
| Auth.Login | backend/src/auth/auth.service.ts:24-35 | the token is signed over `{email, sub: id}`, and the user returned is only id and email |
| Auth.LoginIgnoresPassword | backend/src/auth/auth.service.ts:28-34 | the password plays no part in the login response |
| Auth.CheckCredentials | backend/src/auth/auth.service.ts:16-22 | success iff the users service accepts, otherwise Unauthorized("Invalid credentials") |
| Auth.UniformCredentialFailure | backend/src/auth/auth.service.ts:16-22 | an unknown email and a wrong password fail identically |
| Auth.SignUpThenSignIn | backend/src/auth/auth.service.ts:37-48 | after sign-up, signing in with the same password succeeds (for a hash that looks like one and a compare that matches) |
| Auth.AuthService.ValidateUser | backend/src/auth/auth.service.ts:16-22 | the credential check over the current table |
| Auth.AuthService.SignUp | backend/src/auth/auth.service.ts:37-48 | an existing email is Conflict and creates no user; otherwise exactly one user is added and the login response carries the given email |
| Auth.AuthService.ValidateToken | backend/src/auth/auth.service.ts:50-52 | exactly the lookup by id |
| JwtStrategy.Validate | backend/src/auth/strategies/jwt.strategy.ts:25-34 | the stored user whose id is the subject, as id and email only; Unauthorized("User not found") iff there is none |
| JwtStrategy.ValidateIgnoresPayloadEmail | backend/src/auth/strategies/jwt.strategy.ts:27-33 | the email claimed in the payload has no influence |
| JwtStrategy.LoginTokenResolvesToUser | backend/src/auth/strategies/jwt.strategy.ts:27-33 | the payload of a stored user's login resolves to exactly the user that login reported |
| JwtAuthGuard.TokenPreview | backend/src/common/guards/jwt-auth.guard.ts:33-35 | characters 7 to 26 of a bearer header, else its first 20, then "..."; never more than 20 token characters |
| JwtAuthGuard.CanActivate | backend/src/common/guards/jwt-auth.guard.ts:15-39 | a public route passes iff it is public, without reading the header; every other route goes to the strategy, with or without a header |
| JwtAuthGuard.FailureMessage | backend/src/common/guards/jwt-auth.guard.ts:43 | `err.message`, else `info.message`, else "Unknown error"; always truthy |
| JwtAuthGuard.HandleRequest | backend/src/common/guards/jwt-auth.guard.ts:41-58 | Unauthorized with that message iff there is an error or no user; otherwise the user unchanged |
| JwtAuthGuard.FailureMessageNotEmpty | backend/src/common/guards/jwt-auth.guard.ts:43 | with string or falsy messages, the failure message is never empty |
| Bootstrap.ResolvePort | backend/src/main.ts:45-64 | no configured port gives 3001; a configured one is parsed in base 10, and unparsable, zero or negative gives 3001; 3000 becomes 3001; the result is positive and never 3000; the system `PORT` never decides |
| Bootstrap.ClassifyStartupError | backend/src/main.ts:74-96 | "port in use" iff EADDRINUSE is in the message or stack; "permission denied" iff EACCES is and EADDRINUSE is not |
| Bootstrap.AddressInUseWins | backend/src/main.ts:76-79 | a message naming both codes is "port in use" |
| DatabaseConfig.Setting | backend/src/config/database.config.ts:30-33 | the configured value, or the default only when the key is absent |
| DatabaseConfig.GetDatabaseConfig | backend/src/config/database.config.ts:8-57 | SQLite iff `USE_SQLITE` lower-cased is "true", and it always synchronizes; PostgreSQL synchronizes iff not production; logging iff development; every PostgreSQL setting and constant as configured |
| DatabaseConfig.EmptyConfigurationDefaults | backend/src/config/database.config.ts:11-56 | with nothing configured: PostgreSQL at localhost:5432 as postgres/postgres on movie_app, synchronizing and logging, with 5 retries 5000 ms apart |
| DatabaseConfig.SqliteSwitchIgnoresCase | backend/src/config/database.config.ts:11 | the SQLite switch ignores case |
| ImageUrl.ApiBaseUrl | frontend/src/constants/index.ts:1-2 | the configured base URL when non-empty, else http://localhost:3001 |
| ImageUrl.GetImageUrl | frontend/src/utils/image.ts:3-7 | none for a missing or empty URL; an `http` URL unchanged; any other gets the base URL in front |
| ImageUrl.GetImageUrlIdempotent | frontend/src/utils/image.ts:5-6 | with a base URL starting with `http`, the rule applied twice is the rule applied once |
| ImageUrl.DefaultBaseIsHttp | frontend/src/constants/index.ts:2 | the default base URL starts with `http` |
| ImageUrl.UploadedPosterServedFromApi | frontend/src/utils/image.ts:6 | a poster stored by the upload route is fetched from the API's base URL |
| Paginator.Paginate | frontend/src/features/movies/components/Pagination.tsx:17-58 | nothing iff there are 0 pages; Prev goes to max(1, current-1) and is disabled iff current is 1; Next goes to min(total, current+1) and is disabled iff current ≥ total; buttons 1..total, only the current one highlighted |
| Paginator.OneHighlightedPage | frontend/src/features/movies/components/Pagination.tsx:34-48 | at most one button is highlighted, and it is the current page's when that page exists |
| Paginator.NavigationStaysInRange | frontend/src/features/movies/components/Pagination.tsx:27-53 | from an existing page, Prev and Next lead to existing pages, and each is disabled iff it would stay put |
| MoviesApi.Unwrap | frontend/src/features/movies/api/movies.api.ts:27-31 | the inner `data` when truthy, else the body; "No data in response" iff both are falsy |
| MoviesApi.GetAll | frontend/src/features/movies/api/movies.api.ts:19-56 | a value with data and meta is returned as it is; a bare array is wrapped with page q.page‖1, limit q.limit‖10, total = length, one page, no more; otherwise it is passed on |
| MoviesApi.BackendPageUnwraps | frontend/src/features/movies/api/movies.api.ts:27-36 | the backend's enveloped page comes out as the page itself, even when empty |
| MoviesApi.BareArrayIsOnePage | frontend/src/features/movies/api/movies.api.ts:39-50 | a bare array is reported as one page holding all its items |
| MoviesApi.BuildCreateForm | frontend/src/features/movies/api/movies.api.ts:77-82 | the form is the title, the decimal year, then the poster only with a file |
| MoviesApi.CreateYearReadsBack | frontend/src/features/movies/api/movies.api.ts:79 | the year sent parses back as the same number |
| MoviesApi.BuildUpdateForm | frontend/src/features/movies/api/movies.api.ts:109-117 | an empty title and a zero or absent year are left out; a file wins over the poster URL; a URL is sent only when defined, null as "" |
| MoviesApi.UpdateFieldsWellFormed | frontend/src/features/movies/api/movies.api.ts:110-117 | no field is named twice, never both a poster file and a poster URL, and a given file is always sent |
| MoviesHook.ZeroMeta | frontend/src/features/movies/hooks/useMovies.ts:12-18 | the requested page and limit (defaults 1 and 8), total and pages 0, no more |
| MoviesHook.MoviesOf | frontend/src/features/movies/hooks/useMovies.ts:40 | always a list: `response.data.data`, else `response.data`, when an array, else empty |
| MoviesHook.FailedFetchResets | frontend/src/features/movies/hooks/useMovies.ts:57-68 | a failed fetch shows its message, no movies and an empty description of the requested page |
| MoviesHook.SuccessfulFetchIsConsistent | frontend/src/features/movies/hooks/useMovies.ts:42-53 | a successful fetch leaves no error and never claims 0 pages while showing movies |
| MoviesHook.EmptyBodyReportsNoData | frontend/src/features/movies/hooks/useMovies.ts:57-59 | an empty body shows "No data in response" and no movies |
| MoviesHook.MoviesState.constructor | frontend/src/features/movies/hooks/useMovies.ts:9-18 | loading, no movies, no error, an empty description of the requested page |
| MoviesHook.ChosenMeta | frontend/src/features/movies/hooks/useMovies.ts:42-48 | `response.data.meta` when truthy, else `response.meta` when truthy, else the empty description of the requested page |
| MoviesHook.MetaOf | frontend/src/features/movies/hooks/useMovies.ts:42-53 | the chosen description, with 0 total pages raised to 1 when movies arrived; every other property kept as chosen |
| MoviesHook.MoviesState.FetchMovies | frontend/src/features/movies/hooks/useMovies.ts:20-72 | the state becomes the fetch result for the outcome; after a truthy answer the movies are `MoviesOf` and the description is `MetaOf` of it; loading is off whatever happened |
| MoviesHook.MoviesState.Refetch | frontend/src/features/movies/hooks/useMovies.ts:78-80 | fetches the given query, or the page and limit on display |
| MoviesHook.RefetchRepeatsPage | frontend/src/features/movies/hooks/useMovies.ts:78-80 | a failed refetch without a query keeps the page and limit on display |
| ApiClient.TokenUsableIffTwoDots | frontend/src/lib/api/client.ts:29-31 | a stored token is usable iff, trimmed, it has exactly two dots |
| ApiClient.HttpClient.OnRequest | frontend/src/lib/api/client.ts:24-40 | outside a browser, or with no or an empty token, nothing changes; a usable token adds "Bearer " + the trimmed token; any other drops the token and user keys and adds nothing; a token left stored is usable |
| ApiClient.HttpClient.OnResponse | frontend/src/lib/api/client.ts:46-48 | a successful response is passed on unchanged |
| ApiClient.HttpClient.OnResponseError | frontend/src/lib/api/client.ts:49-63 | a 401 in a browser drops exactly the token and user keys, any other error changes nothing, and the error is rejected unchanged |
| AuthHook.AccessToken | frontend/src/features/auth/hooks/useAuth.ts:46-53 | the response's own token when truthy; else, when `data` is truthy, the `access_token` inside `data`; else the response's own (falsy) value |
| AuthHook.SignInCheck | frontend/src/features/auth/hooks/useAuth.ts:41-74 | accepts iff the response, its token and its user are truthy and the trimmed token has at least 10 characters and three parts; otherwise the first failing check's message, in order: no response, no token, too short, not three parts, no user; the session holds the trimmed token and the user |
| AuthHook.SignUpCheck | frontend/src/features/auth/hooks/useAuth.ts:92-99 | passes iff the token is a non-empty string with three parts once trimmed; the session holds the trimmed token and the user |
| AuthHook.SignInStoresUsableToken | frontend/src/features/auth/hooks/useAuth.ts:59-68 | the token sign-in stores is usable by the request interceptor, and already trimmed |
| AuthHook.SignUpStoresUsableToken | frontend/src/features/auth/hooks/useAuth.ts:92-100 | the token sign-up stores is usable and already trimmed |
| AuthHook.SignUpAcceptsShortToken | frontend/src/features/auth/hooks/useAuth.ts:62-97 | sign-up accepts the five-character token "a.b.c" that sign-in refuses |
| AuthHook.AuthState.IsAuthenticated | frontend/src/features/auth/hooks/useAuth.ts:119 | authenticated iff the user is truthy |
| AuthHook.AuthState.CheckAuth | frontend/src/features/auth/hooks/useAuth.ts:22-35 | with a stored token, the "me" user is set, or on failure both keys are dropped; without one nothing changes; loading ends |
| AuthHook.AuthState.SignIn | frontend/src/features/auth/hooks/useAuth.ts:37-87 | a passing session stores the trimmed token and the user JSON and sets the user; any failure drops both keys, clears the user and rethrows |
| AuthHook.AuthState.SignUp | frontend/src/features/auth/hooks/useAuth.ts:89-104 | a failed request or token leaves storage and user untouched; otherwise the session is stored and the user set |
| AuthHook.AuthState.SignOut | frontend/src/features/auth/hooks/useAuth.ts:106-111 | both keys dropped and the user cleared |
| Json.ErrorMessage | frontend/screens/CreateMovie/CreateMovie.tsx:80 | the server's message, else the error's own message, else the fallback |
| CreateMovieScreen.CheckSubmission | frontend/screens/CreateMovie/CreateMovie.tsx:54-63 | an empty field gives "Please fill in all required fields" before anything else; then the year must parse and lie in 1800..current year + 10, or "Please enter a valid year" |
| CreateMovieScreen.AcceptedYearPassesServer | frontend/screens/CreateMovie/CreateMovie.tsx:59-63 | a year the screen accepts passes the server's year check (same year at both ends) |
| CreateMovieScreen.DecimalYearAccepted | frontend/screens/CreateMovie/CreateMovie.tsx:59-63 | a year in range typed in decimal is accepted as that number |
| CreateMovieScreen.DropCheckAgainstServerFilter | frontend/screens/CreateMovie/CreateMovie.tsx:36 | the drop check keeps `image/webp`, which the server refuses, and ignores `IMAGE/PNG`, which it accepts; a lower-case type the server accepts is kept |
| CreateMovieScreen.CreateMovieForm.HandleFileChange | frontend/screens/CreateMovie/CreateMovie.tsx:21-31 | a chosen file becomes the poster whatever its type |
| CreateMovieScreen.CreateMovieForm.HandleDrop | frontend/screens/CreateMovie/CreateMovie.tsx:33-44 | a dropped file becomes the poster only if its type starts with `image/` |
| CreateMovieScreen.CreateMovieForm.HandleSubmit | frontend/screens/CreateMovie/CreateMovie.tsx:50-84 | a failed check shows its message and sends nothing; otherwise the create form with the parsed year and the poster is sent, the request's error (or none) is shown, and loading ends |
| SignupScreen.SignupCheck | frontend/screens/Signup/Signup.tsx:25-35 | passes iff the passwords agree and have at least 6 characters; a mismatch is reported before the length |
| SignupScreen.SignupForm.HandleSubmit | frontend/screens/Signup/Signup.tsx:20-51 | message and success are cleared first; a failed check asks nothing; otherwise `signUp(email, password)` is asked, and success keeps the form busy while a failure shows its message and frees it |

## Left out

- Framework wiring is not modelled: routing, CORS, the global pipes, filters and interceptors, the response envelope, and `app.listen`. The public/protected split enters only as the guard's `isPublic` input.
- The validation pipe's `whitelist` and `forbidNonWhitelisted` options are not modelled.
- The exact "file too large" message comes from the framework, and its wording depends on the framework's version.
- A file rejected by the upload filter reaches the client as a plain error whose status the framework decides; the model stops at the rejection.
- bcrypt, JWT signing and checking, `IsUrl`, `JSON.stringify`, uuid generation, `Date.now`, `Math.random` and the current year are parameters. No property of them is assumed beyond what a lemma's `requires` states.
- Browser and UI behaviour is not modelled: rendering, router navigation, `window.location`, `setTimeout`, previews read by `FileReader`, and React's scheduling.
- Logging is not modelled, except the guard's token preview.
- The system `PORT` variable is only logged by the source. `Bootstrap.ResolvePort` takes it and never lets it decide. How the configuration layer merges `.env` with the process environment is not modelled.
- FileUpload.ExtName: only names without a `/` are modelled. For those it follows Node's `path.extname`; a name with directory parts is not modelled.
- JavaScript numbers are integers here. `NaN`, fractions and 2^53 limits are not modelled. A `NaN` or a fraction in a query or body is a case of the field datatype.
- String lengths count Unicode scalar values. JavaScript counts UTF-16 code units, so the two differ for characters outside the basic plane in token and password lengths.
- `toLowerCase` is modelled on ASCII letters. That is exact for the two places that use it: the MIME pattern and the "true" switch.
- MovieService.MoviesService.FindAll requires a page and a limit of at least 1. The validation pipe guarantees this; see `PaginationDto.ValidQueryGivesUsableParams`.
- MovieService.MoviesService.Create and MovieRepository.MoviesRepository.Create require a fresh id, which the database generates.
- Users.UsersService.Create and Auth.AuthService.SignUp also require a fresh id, which the database generates.
- The order of movies created at the same instant is left open. The database's tie order is not modelled.
- The movie entity's relation to its user is not modelled beyond the `user_id` column.
- Concurrent requests are not modelled. Sign-up uniqueness is the table's unique-email invariant.
- In the source, the page description received is changed in place when its page count is raised to 1. The model builds a new value, so it does not capture aliasing with the response object.
- The paginator's `hasMore` is read but never used by the source, so the model does not carry it.
- AuthHook.SignUpCheck reports a non-object sign-up response with the token message. The source would fail with a type error there. The sign-up request never returns such a response.
- Login.tsx, the movie list and card components, the error boundary, the auth provider, the protected route and the app pages are not part of this model.
- The users table's TypeORM repository is not part of this model. It is a sequence with lookups in table order.
