/** The movie service: creates movies for their owner, lists a user's movies a page at a
    time, and lets only the owner update or delete a movie. */
module MovieService {
  import opened Wrappers
  import opened HttpErrors
  import opened PaginationUtil
  import opened MovieRepository
  import opened MovieResponse
  import opened MovieValidation

  /** A page of movies and its description. */
  datatype PaginatedResponse = PaginatedResponse(data: seq<MovieResponseDto>, meta: PaginationMeta)

  function NotFoundMessage(id: string): string {
    "Movie with ID " + id + " not found"
  }

  const UPDATE_FORBIDDEN := "You can only update your own movies"
  const DELETE_FORBIDDEN := "You can only delete your own movies"

  class MoviesService {
    const repository: MoviesRepository

    ghost predicate Valid()
      reads this, repository
    {
      repository.Valid()
    }

    constructor (repository: MoviesRepository)
      requires repository.Valid()
      ensures this.repository == repository && Valid()
    {
      this.repository := repository;
    }

    /** `create`: the new row carries the body's columns and is owned by `userId`; the stored
        id is the fresh `id` the database hands out. */
    method Create(dto: CreateMovieDto, userId: string, id: string, now: int) returns (r: MovieResponseDto)
      requires Valid() && id !in repository.table
      modifies repository
      ensures Valid()
      ensures repository.table == old(repository.table)[id := Movie(id, dto.title, dto.publishing_year, dto.poster_url, userId, now, now)]
      ensures r == FromEntity(repository.table[id]) && r.user_id == userId
    {
      var movie := repository.Create(NewMovie(dto.title, dto.publishing_year, dto.poster_url, userId), id, now);
      r := FromEntity(movie);
    }

    /** `findAll`: the window of the listing of `userId`'s movies (all movies when no user is
        given) for the requested page, and the page description over all of them. The page
        and limit the validation pipe lets through are at least 1. */
    method FindAll(query: PaginationQuery, userId: Option<string>) returns (r: PaginatedResponse, ghost listing: seq<Movie>)
      requires Valid()
      requires GetPaginationParams(query).page >= 1 && GetPaginationParams(query).limit >= 1
      ensures IsListing(repository.table, userId, listing)
      ensures r.data == FromEntities(Window(listing, GetPaginationParams(query).skip, GetPaginationParams(query).limit))
      ensures |r.data| <= GetPaginationParams(query).limit
      ensures r.meta == CreatePaginationMeta(GetPaginationParams(query).page, GetPaginationParams(query).limit,
                                             |MatchingIds(repository.table, userId)|)
    {
      var params := GetPaginationParams(query);
      SkipIsWholePages(query);
      var data, total;
      data, total, listing := repository.FindAll(params.skip, params.limit, userId);
      var meta := CreatePaginationMeta(params.page, params.limit, total);
      r := PaginatedResponse(FromEntities(data), meta);
    }

    /** `findOne`: the movie with that id, whoever owns it, or "not found". */
    method FindOne(id: string) returns (r: Result<MovieResponseDto, HttpError>)
      ensures id in repository.table ==> r == Success(FromEntity(repository.table[id]))
      ensures id !in repository.table ==> r == Failure(NotFound(NotFoundMessage(id)))
    {
      var movie := repository.FindOne(id);
      if movie.None? {
        return Failure(NotFound(NotFoundMessage(id)));
      }
      return Success(FromEntity(movie.value));
    }

    /** `update`: "not found" before "forbidden", and either leaves the table as it was; the
        owner's update changes exactly that row. Movies of other users are never touched. */
    method Update(id: string, patch: MoviePatch, userId: string, now: int) returns (r: Result<MovieResponseDto, HttpError>)
      requires Valid()
      modifies repository
      ensures Valid()
      ensures id !in old(repository.table) ==>
        r == Failure(NotFound(NotFoundMessage(id))) && repository.table == old(repository.table)
      ensures id in old(repository.table) && old(repository.table)[id].user_id != userId ==>
        r == Failure(Forbidden(UPDATE_FORBIDDEN)) && repository.table == old(repository.table)
      ensures id in old(repository.table) && old(repository.table)[id].user_id == userId ==>
        && repository.table == old(repository.table)[id := Patched(old(repository.table)[id], patch, now)]
        && r == Success(FromEntity(repository.table[id]))
      ensures r.Success? ==> r.value.user_id == userId && r.value.id == id
      ensures forall k :: k in old(repository.table) && old(repository.table)[k].user_id != userId ==>
        k in repository.table && repository.table[k] == old(repository.table)[k]
    {
      var movie := repository.FindOne(id);
      if movie.None? {
        return Failure(NotFound(NotFoundMessage(id)));
      }
      if movie.value.user_id != userId {
        return Failure(Forbidden(UPDATE_FORBIDDEN));
      }
      var updated := repository.Update(id, patch, now);
      r := Success(FromEntity(updated.value));
    }

    /** `remove`: "not found" before "forbidden", and either leaves the table as it was; the
        owner's delete removes exactly that row. Movies of other users are never touched. */
    method Remove(id: string, userId: string) returns (err: Option<HttpError>)
      requires Valid()
      modifies repository
      ensures Valid()
      ensures id !in old(repository.table) ==>
        err == Some(NotFound(NotFoundMessage(id))) && repository.table == old(repository.table)
      ensures id in old(repository.table) && old(repository.table)[id].user_id != userId ==>
        err == Some(Forbidden(DELETE_FORBIDDEN)) && repository.table == old(repository.table)
      ensures id in old(repository.table) && old(repository.table)[id].user_id == userId ==>
        err == None && repository.table == old(repository.table) - {id}
      ensures forall k :: k in old(repository.table) && old(repository.table)[k].user_id != userId ==>
        k in repository.table && repository.table[k] == old(repository.table)[k]
    {
      var movie := repository.FindOne(id);
      if movie.None? {
        return Some(NotFound(NotFoundMessage(id)));
      }
      if movie.value.user_id != userId {
        return Some(Forbidden(DELETE_FORBIDDEN));
      }
      repository.Delete(id);
      err := None;
    }
  }
}
