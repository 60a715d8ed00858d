/** The movies table and its repository: rows keyed by id, created with an owner, read by
    id, listed per owner newest first in windows of `skip`/`take`, updated field by field
    and deleted. */
module MovieRepository {
  import opened Wrappers
  import opened Strings

  /** A row of the movies table. Timestamps are instants as integers. */
  datatype Movie = Movie(
    id: string,
    title: string,
    publishing_year: int,
    poster_url: Option<string>,
    user_id: string,
    created_at: int,
    updated_at: int)

  /** The columns a caller supplies when creating a movie. */
  datatype NewMovie = NewMovie(title: string, publishing_year: int, poster_url: Option<string>, user_id: string)

  /** A partial update: `None` leaves a column as it is. */
  datatype MoviePatch = MoviePatch(title: Option<string>, publishing_year: Option<int>, poster_url: Option<string>)

  /** The `where` of `findAll`: a non-empty user id restricts to that owner's movies, an
      absent or empty one does not filter. */
  predicate Matches(m: Movie, userId: Option<string>) {
    userId.None? || userId.value == "" || m.user_id == userId.value
  }

  /** Ids of the rows the `where` selects. */
  function MatchingIds(table: map<string, Movie>, userId: Option<string>): set<string> {
    set id | id in table && Matches(table[id], userId)
  }

  /** Ordered by `created_at`, newest first. */
  predicate NewestFirst(s: seq<Movie>) {
    forall i, j :: 0 <= i < j < |s| ==> s[i].created_at >= s[j].created_at
  }

  /** `s` lists exactly the selected rows, each once, newest first (rows created at the same
      instant may come in any order). */
  ghost predicate IsListing(table: map<string, Movie>, userId: Option<string>, s: seq<Movie>) {
    && NewestFirst(s)
    && (forall m :: m in s ==> m.id in table && table[m.id] == m && Matches(m, userId))
    && (forall id :: id in table && Matches(table[id], userId) ==> table[id] in s)
    && |s| == |MatchingIds(table, userId)|
  }

  /** `skip`/`take` applied to a listing; a `take` of 0 sets no limit. */
  function Window(s: seq<Movie>, skip: nat, take: nat): (w: seq<Movie>)
    ensures take > 0 ==> |w| <= take
    ensures skip >= |s| ==> w == []
    ensures forall i :: 0 <= i < |w| ==> skip + i < |s| && w[i] == s[skip + i]
  {
    var from := Min(skip, |s|);
    var to := if take == 0 then |s| else Min(skip + take, |s|);
    s[from..to]
  }

  /** Insertion of one row into a newest-first listing. */
  function InsertNewestFirst(s: seq<Movie>, m: Movie): (r: seq<Movie>)
    requires NewestFirst(s)
    ensures NewestFirst(r)
    ensures |r| == |s| + 1 && multiset(r) == multiset(s) + multiset{m}
    ensures forall x :: x in r <==> x in s || x == m
  {
    if |s| == 0 || s[0].created_at <= m.created_at then [m] + s
    else
      var rest := InsertNewestFirst(s[1..], m);
      assert s == [s[0]] + s[1..];
      assert forall x :: x in rest ==> x.created_at <= s[0].created_at by {
        forall x | x in rest ensures x.created_at <= s[0].created_at {
          assert x in multiset(rest);
        }
      }
      [s[0]] + rest
  }

  /** The row an update leaves: supplied columns overwritten, `updated_at` stamped, and the
      id, the owner and the creation time kept. */
  function Patched(m: Movie, patch: MoviePatch, now: int): (r: Movie)
    ensures r.id == m.id && r.user_id == m.user_id && r.created_at == m.created_at
    ensures r.updated_at == now
    ensures r.title == (if patch.title.Some? then patch.title.value else m.title)
    ensures r.publishing_year == (if patch.publishing_year.Some? then patch.publishing_year.value else m.publishing_year)
    ensures r.poster_url == (if patch.poster_url.Some? then patch.poster_url else m.poster_url)
  {
    m.(title := patch.title.GetOr(m.title),
       publishing_year := patch.publishing_year.GetOr(m.publishing_year),
       poster_url := if patch.poster_url.Some? then patch.poster_url else m.poster_url,
       updated_at := now)
  }

  /** Applying the same update twice (at the same instant) is applying it once. */
  lemma PatchedIdempotent(m: Movie, patch: MoviePatch, now: int)
    ensures Patched(Patched(m, patch, now), patch, now) == Patched(m, patch, now)
  {
  }

  class MoviesRepository {
    /** The movies table, by id. */
    var table: map<string, Movie>

    /** Every row is stored under its own id. */
    ghost predicate Valid()
      reads this
    {
      forall id :: id in table ==> table[id].id == id
    }

    constructor ()
      ensures Valid() && table == map[]
    {
      table := map[];
    }

    /** `create`: one new row under a fresh id, with the given columns and both timestamps
        set to `now`; the row is returned and nothing else changes. */
    method Create(data: NewMovie, id: string, now: int) returns (movie: Movie)
      requires Valid() && id !in table
      modifies this
      ensures Valid()
      ensures movie == Movie(id, data.title, data.publishing_year, data.poster_url, data.user_id, now, now)
      ensures table == old(table)[id := movie]
    {
      movie := Movie(id, data.title, data.publishing_year, data.poster_url, data.user_id, now, now);
      table := table[id := movie];
    }

    /** `findOne`: the row with that id, or null when there is none. */
    method FindOne(id: string) returns (r: Option<Movie>)
      ensures id in table ==> r == Some(table[id])
      ensures id !in table ==> r == None
    {
      if id in table {
        r := Some(table[id]);
      } else {
        r := None;
      }
    }

    /** `findAll`: the window `skip`/`take` of the selected rows ordered newest first, and the
        number of all selected rows, regardless of the window. */
    method FindAll(skip: nat, take: nat, userId: Option<string>) returns (items: seq<Movie>, total: nat, ghost listing: seq<Movie>)
      requires Valid()
      ensures IsListing(table, userId, listing)
      ensures items == Window(listing, skip, take)
      ensures total == |MatchingIds(table, userId)|
    {
      var remaining := table.Keys;
      var acc: seq<Movie> := [];
      ghost var seen: set<string> := {};
      while remaining != {}
        invariant remaining <= table.Keys
        invariant seen == set id | id in table.Keys - remaining && Matches(table[id], userId)
        invariant |acc| == |seen|
        invariant NewestFirst(acc)
        invariant forall m :: m in acc ==> m.id in seen && table[m.id] == m
        invariant forall id :: id in seen ==> table[id] in acc
        decreases remaining
      {
        var id :| id in remaining;
        remaining := remaining - {id};
        if Matches(table[id], userId) {
          acc := InsertNewestFirst(acc, table[id]);
          assert id !in seen;
          seen := seen + {id};
        }
      }
      assert seen == MatchingIds(table, userId);
      listing := acc;
      items := Window(acc, skip, take);
      total := |acc|;
    }

    /** `update`: the supplied columns are written, then the row is read back; a row that is
        not there raises "Movie not found after update" and nothing changes. */
    method Update(id: string, patch: MoviePatch, now: int) returns (r: Result<Movie, string>)
      requires Valid()
      modifies this
      ensures Valid()
      ensures id in old(table) ==> table == old(table)[id := Patched(old(table)[id], patch, now)]
      ensures id in old(table) ==> r == Success(Patched(old(table)[id], patch, now))
      ensures id !in old(table) ==> table == old(table) && r == Failure("Movie not found after update")
    {
      if id in table {
        table := table[id := Patched(table[id], patch, now)];
      }
      var updated := FindOne(id);
      if updated.None? {
        return Failure("Movie not found after update");
      }
      return Success(updated.value);
    }

    /** `delete`: the row with that id is gone and every other row is as it was. */
    method Delete(id: string)
      requires Valid()
      modifies this
      ensures Valid()
      ensures table == old(table) - {id}
    {
      table := table - {id};
    }
  }
}
