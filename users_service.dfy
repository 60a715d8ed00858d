/** The users table and the users service: sign-up stores a bcrypt hash of the password,
    and a login is accepted only for a known email whose stored password looks like a hash
    and matches the given password. */
module Users {
  import opened Wrappers
  import opened Strings

  /** A row of the users table; `password` holds the stored hash. */
  datatype User = User(id: string, email: string, password: string)

  /** The part of a user that leaves the server: no password. */
  datatype PublicUser = PublicUser(id: string, email: string)

  /** What bcrypt's `compare` does: the password matches the hash, does not, or the call
      throws (for a stored value that is not a valid hash). */
  datatype CompareOutcome = Match | Mismatch | Threw

  /** The cost factor passed to bcrypt's `hash`. */
  const SALT_ROUNDS := 10

  function Public(u: User): (p: PublicUser)
    ensures p.id == u.id && p.email == u.email
  {
    PublicUser(u.id, u.email)
  }

  /** The row with that email, searching in table order. */
  function FindByEmail(rows: seq<User>, email: string): (r: Option<User>)
    ensures r.None? <==> forall i :: 0 <= i < |rows| ==> rows[i].email != email
    ensures r.Some? ==> r.value in rows && r.value.email == email
  {
    if |rows| == 0 then None
    else if rows[0].email == email then Some(rows[0])
    else FindByEmail(rows[1..], email)
  }

  /** The row with that id, searching in table order. */
  function FindById(rows: seq<User>, id: string): (r: Option<User>)
    ensures r.None? <==> forall i :: 0 <= i < |rows| ==> rows[i].id != id
    ensures r.Some? ==> r.value in rows && r.value.id == id
  {
    if |rows| == 0 then None
    else if rows[0].id == id then Some(rows[0])
    else FindById(rows[1..], id)
  }

  /** The table's unique columns: no two rows share an id or an email. */
  predicate UniqueKeys(rows: seq<User>) {
    forall i, j :: 0 <= i < j < |rows| ==> rows[i].id != rows[j].id && rows[i].email != rows[j].email
  }

  /** In a table with unique emails, looking up a stored user's email finds that user. */
  lemma {:induction false} FindByEmailFindsRow(rows: seq<User>, k: nat)
    requires UniqueKeys(rows) && k < |rows|
    ensures FindByEmail(rows, rows[k].email) == Some(rows[k])
    decreases k
  {
    if k > 0 {
      assert UniqueKeys(rows[1..]);
      assert rows[1..][k - 1] == rows[k];
      FindByEmailFindsRow(rows[1..], k - 1);
    }
  }

  /** In a table with unique ids, looking up a stored user's id finds that user. */
  lemma {:induction false} FindByIdFindsRow(rows: seq<User>, k: nat)
    requires UniqueKeys(rows) && k < |rows|
    ensures FindById(rows, rows[k].id) == Some(rows[k])
    decreases k
  {
    if k > 0 {
      assert UniqueKeys(rows[1..]);
      assert rows[1..][k - 1] == rows[k];
      FindByIdFindsRow(rows[1..], k - 1);
    }
  }

  /** The guard before comparing: an empty stored password, or one that neither starts with
      the bcrypt prefix `$2` nor is at least 20 characters long, is not treated as a hash. */
  predicate LooksHashed(stored: string) {
    stored != "" && (StartsWith(stored, "$2") || |stored| >= 20)
  }

  /** `validateUser`: the user with that email, when there is one, its stored password looks
      like a hash and `compare` says the password matches; no user otherwise, and a `compare`
      that throws counts as no match. */
  function ValidateCredentials(rows: seq<User>, email: string, password: string,
                               compare: (string, string) -> CompareOutcome): (r: Option<User>)
    ensures r.Some? ==> r == FindByEmail(rows, email) && r.value in rows && r.value.email == email
    ensures r.Some? ==> LooksHashed(r.value.password) && compare(password, r.value.password) == Match
    ensures FindByEmail(rows, email).None? ==> r.None?
    ensures (FindByEmail(rows, email).Some? && LooksHashed(FindByEmail(rows, email).value.password)
             && compare(password, FindByEmail(rows, email).value.password) == Match) ==> r.Some?
  {
    match FindByEmail(rows, email)
    case None => None
    case Some(user) =>
      if !LooksHashed(user.password) then None
      else
        match compare(password, user.password)
        case Match => Some(user)
        case Mismatch => None
        case Threw => None
  }

  class UsersService {
    /** The users table, in insertion order. */
    var rows: seq<User>

    ghost predicate Valid()
      reads this
    {
      UniqueKeys(rows)
    }

    constructor ()
      ensures Valid() && rows == []
    {
      rows := [];
    }

    /** `create`: stores the user under a fresh id with `hash` (bcrypt's `hash`, salted
        outside the model) of the password at cost `SALT_ROUNDS`, never the password itself.
        An email already in the table violates its unique column: the insert fails and
        nothing changes. */
    method Create(email: string, password: string, id: string, hash: (string, int) -> string) returns (r: Result<User, string>)
      requires Valid() && FindById(rows, id).None?
      modifies this
      ensures Valid()
      ensures FindByEmail(old(rows), email).None? ==>
        && r == Success(User(id, email, hash(password, SALT_ROUNDS)))
        && rows == old(rows) + [User(id, email, hash(password, SALT_ROUNDS))]
      ensures FindByEmail(old(rows), email).Some? ==> r.Failure? && rows == old(rows)
    {
      var hashedPassword := hash(password, SALT_ROUNDS);
      if FindByEmail(rows, email).Some? {
        return Failure("duplicate key value violates unique constraint on email");
      }
      var user := User(id, email, hashedPassword);
      rows := rows + [user];
      r := Success(user);
    }

    /** `findOneByEmail`. */
    method FindOneByEmail(email: string) returns (r: Option<User>)
      requires Valid()
      ensures r.None? <==> forall u :: u in rows ==> u.email != email
      ensures r.Some? ==> r.value in rows && r.value.email == email
    {
      r := FindByEmail(rows, email);
    }

    /** `findById`. */
    method FindOneById(id: string) returns (r: Option<User>)
      requires Valid()
      ensures r.None? <==> forall u :: u in rows ==> u.id != id
      ensures r.Some? ==> r.value in rows && r.value.id == id
    {
      r := FindById(rows, id);
    }

    /** `validateUser`, over the table as it is. */
    method ValidateUser(email: string, password: string, compare: (string, string) -> CompareOutcome) returns (r: Option<User>)
      requires Valid()
      ensures r == ValidateCredentials(rows, email, password, compare)
      ensures r.Some? ==> r.value in rows && r.value.email == email
    {
      r := ValidateCredentials(rows, email, password, compare);
    }
  }

  /** A stored password that does not look like a hash is never compared: the login fails
      whatever the password and whatever `compare` would say. */
  lemma UnhashedPasswordNeverValidates(rows: seq<User>, email: string, password: string,
                                       compare: (string, string) -> CompareOutcome)
    requires FindByEmail(rows, email).Some? && !LooksHashed(FindByEmail(rows, email).value.password)
    ensures ValidateCredentials(rows, email, password, compare).None?
  {
  }

  /** Appending a row with a new email keeps every earlier lookup and makes the new email
      find the new row. */
  lemma {:induction false} FindByEmailAppend(rows: seq<User>, u: User, email: string)
    requires FindByEmail(rows, u.email).None?
    ensures email == u.email ==> FindByEmail(rows + [u], email) == Some(u)
    ensures email != u.email ==> FindByEmail(rows + [u], email) == FindByEmail(rows, email)
  {
    if |rows| > 0 {
      assert (rows + [u])[1..] == rows[1..] + [u];
      FindByEmailAppend(rows[1..], u, email);
    }
  }
}
