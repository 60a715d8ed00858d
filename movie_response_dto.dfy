/** The movie as the API returns it: the seven columns of the row, copied. */
module MovieResponse {
  import opened Wrappers
  import opened MovieRepository

  /** The response shape: exactly these seven fields and nothing else (no owner relation). */
  datatype MovieResponseDto = MovieResponseDto(
    id: string,
    title: string,
    publishing_year: int,
    poster_url: Option<string>,
    user_id: string,
    created_at: int,
    updated_at: int)

  /** `fromEntity`: each of the seven fields is the row's own. */
  function FromEntity(movie: Movie): (dto: MovieResponseDto)
    ensures dto.id == movie.id && dto.title == movie.title
    ensures dto.publishing_year == movie.publishing_year && dto.poster_url == movie.poster_url
    ensures dto.user_id == movie.user_id
    ensures dto.created_at == movie.created_at && dto.updated_at == movie.updated_at
  {
    MovieResponseDto(movie.id, movie.title, movie.publishing_year, movie.poster_url,
                     movie.user_id, movie.created_at, movie.updated_at)
  }

  /** `fromEntities`: one response per row, in the same order. */
  function FromEntities(movies: seq<Movie>): (dtos: seq<MovieResponseDto>)
    ensures |dtos| == |movies|
    ensures forall i :: 0 <= i < |movies| ==> dtos[i] == FromEntity(movies[i])
  {
    if |movies| == 0 then [] else [FromEntity(movies[0])] + FromEntities(movies[1..])
  }

  /** The response drops nothing: two rows with the same response are the same row. */
  lemma FromEntityInjective(a: Movie, b: Movie)
    requires FromEntity(a) == FromEntity(b)
    ensures a == b
  {
  }

  /** Mapping a concatenation maps each part. */
  lemma {:induction false} FromEntitiesAppend(a: seq<Movie>, b: seq<Movie>)
    ensures FromEntities(a + b) == FromEntities(a) + FromEntities(b)
  {
    var l, r := FromEntities(a + b), FromEntities(a) + FromEntities(b);
    assert |l| == |r|;
    forall i | 0 <= i < |l| ensures l[i] == r[i] {
      if i < |a| {
        assert (a + b)[i] == a[i];
      } else {
        assert (a + b)[i] == b[i - |a|];
      }
    }
  }
}
