/** The movie routes: what each handler passes to the movie service, in particular the poster
    path chosen from the uploaded file and the owner taken from the authenticated user. */
module MovieController {
  import opened Wrappers
  import opened HttpErrors
  import opened PaginationUtil
  import opened MovieRepository
  import opened MovieValidation

  /** Where uploaded posters are served from. */
  const POSTER_PREFIX := "/uploads/posters/"

  /** The user the guard attached to the request. */
  datatype AuthUser = AuthUser(id: string, email: string)

  /** A poster the upload interceptor stored, under its generated file name, and its size
      in bytes. */
  datatype UploadedFile = UploadedFile(filename: string, size: nat)

  /** The largest poster is just under 5 MiB. */
  const MAX_FILE_SIZE := 5 * 1024 * 1024
  const FILE_TOO_LARGE := "Validation failed (expected size is less than 5242880)"

  /** The body of "update movie": every field optional. */
  datatype UpdateMovieDto = UpdateMovieDto(title: Option<string>, publishing_year: Option<int>, poster_url: Option<string>)

  /** The service call a handler makes. */
  datatype ServiceCall =
    | CreateCall(dto: CreateMovieDto, userId: string)
    | FindAllCall(query: PaginationQuery, owner: Option<string>)
    | FindOneCall(id: string)
    | UpdateCall(id: string, patch: MoviePatch, userId: string)
    | RemoveCall(id: string, userId: string)

  function PosterPath(file: UploadedFile): string {
    POSTER_PREFIX + file.filename
  }

  /** The file pipe: no file is fine; a file must be smaller than `MAX_FILE_SIZE`. */
  predicate FileAccepted(file: Option<UploadedFile>) {
    file.None? || file.value.size < MAX_FILE_SIZE
  }

  /** `create`: the poster URL is the uploaded file's path, or null without a file, whatever
      the body said; the owner is the authenticated user. */
  function CreateCallFor(user: AuthUser, dto: CreateMovieDto, file: Option<UploadedFile>): (r: Result<ServiceCall, HttpError>)
    ensures r.Failure? <==> file.Some? && file.value.size >= MAX_FILE_SIZE
    ensures r.Failure? ==> r.error == BadRequest(FILE_TOO_LARGE)
    ensures r.Success? ==> r.value.CreateCall? && r.value.userId == user.id
    ensures r.Success? ==> r.value.dto.title == dto.title && r.value.dto.publishing_year == dto.publishing_year
    ensures r.Success? && file.Some? ==> r.value.dto.poster_url == Some(POSTER_PREFIX + file.value.filename)
    ensures r.Success? && file.None? ==> r.value.dto.poster_url == None
  {
    if !FileAccepted(file) then Failure(BadRequest(FILE_TOO_LARGE))
    else
      var posterUrl := if file.Some? then Some(PosterPath(file.value)) else None;
      Success(CreateCall(dto.(poster_url := posterUrl), user.id))
  }

  /** `update`: an uploaded file wins over the body's poster URL; without a file an empty or
      absent poster URL is left out of the update; the acting user is passed as owner. */
  function UpdateCallFor(id: string, user: AuthUser, dto: UpdateMovieDto, file: Option<UploadedFile>): (r: Result<ServiceCall, HttpError>)
    ensures r.Failure? <==> file.Some? && file.value.size >= MAX_FILE_SIZE
    ensures r.Failure? ==> r.error == BadRequest(FILE_TOO_LARGE)
    ensures r.Success? ==> r.value.UpdateCall? && r.value.id == id && r.value.userId == user.id
    ensures r.Success? ==> r.value.patch.title == dto.title && r.value.patch.publishing_year == dto.publishing_year
    ensures r.Success? && file.Some? ==> r.value.patch.poster_url == Some(POSTER_PREFIX + file.value.filename)
    ensures r.Success? && file.None? && dto.poster_url.Some? && dto.poster_url.value != "" ==> r.value.patch.poster_url == dto.poster_url
    ensures r.Success? && file.None? && (dto.poster_url.None? || dto.poster_url.value == "") ==> r.value.patch.poster_url == None
  {
    if !FileAccepted(file) then Failure(BadRequest(FILE_TOO_LARGE))
    else
      var fromBody := if dto.poster_url.Some? && dto.poster_url.value != "" then dto.poster_url else None;
      var posterUrl := if file.Some? then Some(PosterPath(file.value)) else fromBody;
      Success(UpdateCall(id, MoviePatch(dto.title, dto.publishing_year, posterUrl), user.id))
  }

  /** `findAll`: the list is always the caller's own. */
  function FindAllCallFor(query: PaginationQuery, user: AuthUser): (c: ServiceCall)
    ensures c.FindAllCall? && c.query == query && c.owner == Some(user.id)
  {
    FindAllCall(query, Some(user.id))
  }

  /** `findOne`: only the id is passed; there is no owner to check. */
  function FindOneCallFor(id: string): (c: ServiceCall)
    ensures c.FindOneCall? && c.id == id
  {
    FindOneCall(id)
  }

  /** `remove`: the acting user is passed as owner. */
  function RemoveCallFor(id: string, user: AuthUser): (c: ServiceCall)
    ensures c.RemoveCall? && c.id == id && c.userId == user.id
  {
    RemoveCall(id, user.id)
  }

  /** The poster path a created movie gets is independent of any URL in the body. */
  lemma CreateIgnoresBodyPoster(user: AuthUser, dto: CreateMovieDto, url: Option<string>, file: Option<UploadedFile>)
    ensures CreateCallFor(user, dto, file) == CreateCallFor(user, dto.(poster_url := url), file)
  {
  }
}
