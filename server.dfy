/** The registration back end: pseudo availability, user registration,
    the user listing, and the status-check pings, over a document store
    modelled as two sequences of documents. Requests run one after another.
    What the outside world decides is passed in: the fresh identifier
    (`uuid4`), the clock readings (`utcnow`), and how each store call
    turns out (it may raise, and an insert may report no identifier). */
module Server {
  import opened Wrappers

  type Instant = int

  /** The `UserRegistration` request body. */
  datatype UserRegistration = UserRegistration(
    pseudo: string, firstName: string, lastName: string, height: int,
    dateOfBirth: string, gender: string, bodyType: string, city: string)

  /** A stored user document, which is also the `UserResponse`. */
  datatype User = User(
    id: string, pseudo: string, firstName: string, lastName: string, height: int,
    dateOfBirth: string, gender: string, bodyType: string, city: string,
    createdAt: Instant, updatedAt: Instant)

  datatype CheckPseudoResponse = CheckPseudoResponse(available: bool, message: string)

  datatype StatusCheck = StatusCheck(id: string, clientName: string, timestamp: Instant)

  /** An `HTTPException`: a status code and its `detail` text. */
  datatype HttpError = HttpError(status: nat, detail: string)

  datatype Result<T> = Ok(value: T) | Err(error: HttpError)

  /** What `insert_one` does: store the document and report its id, store
      nothing and report no id, or raise with the given text. */
  datatype InsertOutcome = Inserted | NoInsertedId | InsertRaises(message: string)

  const PseudoTaken := "Ce pseudo est déjà utilisé"
  const PseudoFree := "Ce pseudo est disponible"
  const CreateFailed := "Failed to create user"
  const RootMessage := "Tyte API is running"
  /** The text the framework gives an exception no handler catches. */
  const UnhandledError := "Internal Server Error"
  const ListLimit := 1000

  predicate Taken(users: seq<User>, pseudo: string)
  {
    exists i :: 0 <= i < |users| && users[i].pseudo == pseudo
  }

  predicate PseudosUnique(users: seq<User>)
  {
    forall i, j :: 0 <= i < j < |users| ==> users[i].pseudo != users[j].pseudo
  }

  predicate IdsUnique(users: seq<User>)
  {
    forall i, j :: 0 <= i < j < |users| ==> users[i].id != users[j].id
  }

  predicate IdUsed(users: seq<User>, id: string)
  {
    exists i :: 0 <= i < |users| && users[i].id == id
  }

  /** The document `register_user` builds from a request. */
  function NewUser(input: UserRegistration, id: string, createdAt: Instant, updatedAt: Instant): (u: User)
    ensures u.id == id && u.pseudo == input.pseudo && u.firstName == input.firstName
    ensures u.lastName == input.lastName && u.height == input.height
    ensures u.dateOfBirth == input.dateOfBirth && u.gender == input.gender
    ensures u.bodyType == input.bodyType && u.city == input.city
    ensures u.createdAt == createdAt && u.updatedAt == updatedAt
  {
    User(id, input.pseudo, input.firstName, input.lastName, input.height,
         input.dateOfBirth, input.gender, input.bodyType, input.city, createdAt, updatedAt)
  }

  /** `find().to_list(1000)`: at most the first thousand documents. */
  function FirstThousand<T>(docs: seq<T>): (r: seq<T>)
    ensures |r| <= ListLimit
    ensures |r| == if |docs| <= ListLimit then |docs| else ListLimit
    ensures r == docs[..|r|]
  {
    if |docs| <= ListLimit then docs else docs[..ListLimit]
  }

  /** Appending a user whose pseudo is not taken keeps pseudos unique. */
  lemma AppendKeepsPseudosUnique(users: seq<User>, u: User)
    requires PseudosUnique(users) && !Taken(users, u.pseudo)
    ensures PseudosUnique(users + [u])
  {
    var r := users + [u];
    forall i, j | 0 <= i < j < |r| ensures r[i].pseudo != r[j].pseudo {
      if j == |users| {
        assert r[i] == users[i];
      }
    }
  }

  /** A pseudo is taken after a user with it is appended. */
  lemma AppendTakes(users: seq<User>, u: User)
    ensures Taken(users + [u], u.pseudo)
    ensures forall p :: Taken(users, p) ==> Taken(users + [u], p)
  {
    assert (users + [u])[|users|] == u;
    forall p | Taken(users, p) ensures Taken(users + [u], p) {
      var i :| 0 <= i < |users| && users[i].pseudo == p;
      assert (users + [u])[i] == users[i];
    }
  }

  class Database {
    var users: seq<User>
    var statusChecks: seq<StatusCheck>

    /** Under sequential execution every pseudo, and every id, is stored once. */
    ghost predicate Valid()
      reads this
    {
      PseudosUnique(users) && IdsUnique(users)
    }

    constructor ()
      ensures Valid() && users == [] && statusChecks == []
    {
      users := [];
      statusChecks := [];
    }

    /** `check_pseudo_availability`: available exactly when no stored user
        has this pseudo; a store failure becomes a 500 carrying its text.
        Changes nothing. */
    method CheckPseudoAvailability(pseudo: string, findRaises: Option<string>)
      returns (r: Result<CheckPseudoResponse>)
      ensures findRaises.Some? ==> r == Err(HttpError(500, findRaises.value))
      ensures findRaises.None? ==> r.Ok?
      ensures r.Ok? ==> (r.value.available <==> !Taken(users, pseudo))
      ensures r.Ok? ==> r.value.message == if r.value.available then PseudoFree else PseudoTaken
    {
      if findRaises.Some? {
        return Err(HttpError(500, findRaises.value));
      }
      var i := 0;
      while i < |users|
        invariant 0 <= i <= |users|
        invariant forall k :: 0 <= k < i ==> users[k].pseudo != pseudo
      {
        if users[i].pseudo == pseudo {
          return Ok(CheckPseudoResponse(false, PseudoTaken));
        }
        i := i + 1;
      }
      return Ok(CheckPseudoResponse(true, PseudoFree));
    }

    /** `register_user`: a taken pseudo is refused with a 400 and nothing is
        stored; otherwise exactly one document holding the request's eight
        fields, the fresh id and the two clock readings is appended and
        returned. A store that raises gives a 500 with its text, an insert
        without an id a 500 "Failed to create user". */
    method RegisterUser(input: UserRegistration, freshId: string, createdAt: Instant, updatedAt: Instant,
                        findRaises: Option<string>, insert: InsertOutcome)
      returns (r: Result<User>)
      requires Valid()
      requires !IdUsed(users, freshId)
      modifies this
      ensures Valid()
      ensures statusChecks == old(statusChecks)
      ensures findRaises.Some? ==> r == Err(HttpError(500, findRaises.value))
      ensures findRaises.None? && Taken(old(users), input.pseudo) ==> r == Err(HttpError(400, PseudoTaken))
      ensures findRaises.None? && !Taken(old(users), input.pseudo) ==>
        r == match insert
             case Inserted => Ok(NewUser(input, freshId, createdAt, updatedAt))
             case NoInsertedId => Err(HttpError(500, CreateFailed))
             case InsertRaises(message) => Err(HttpError(500, message))
      ensures r.Ok? <==> findRaises.None? && !Taken(old(users), input.pseudo) && insert.Inserted?
      ensures r.Ok? ==> users == old(users) + [r.value] && Taken(users, input.pseudo)
      ensures r.Err? ==> users == old(users)
    {
      var available := CheckPseudoAvailability(input.pseudo, findRaises);
      if available.Err? {
        return Err(available.error);
      }
      if !available.value.available {
        return Err(HttpError(400, PseudoTaken));
      }
      var doc := NewUser(input, freshId, createdAt, updatedAt);
      match insert
      case Inserted =>
        AppendKeepsPseudosUnique(users, doc);
        AppendTakes(users, doc);
        users := users + [doc];
        r := Ok(doc);
      case NoInsertedId =>
        r := Err(HttpError(500, CreateFailed));
      case InsertRaises(message) =>
        r := Err(HttpError(500, message));
    }

    /** `get_users`: the first thousand stored users in store order. */
    method GetUsers(findRaises: Option<string>) returns (r: Result<seq<User>>)
      ensures findRaises.Some? ==> r == Err(HttpError(500, findRaises.value))
      ensures findRaises.None? ==> r.Ok? && r.value == FirstThousand(users)
      ensures r.Ok? ==> |r.value| <= ListLimit && r.value == users[..|r.value|]
    {
      if findRaises.Some? {
        return Err(HttpError(500, findRaises.value));
      }
      return Ok(FirstThousand(users));
    }

    /** `root`: a fixed message, no store access. */
    method Root() returns (message: string)
      ensures message == RootMessage
    {
      message := RootMessage;
    }

    /** `create_status_check`: the record with a fresh id and the current
        time is stored and returned. There is no handler for a failing
        insert; the framework answers a bare 500. */
    method CreateStatusCheck(clientName: string, freshId: string, now: Instant, insertRaises: bool)
      returns (r: Result<StatusCheck>)
      requires Valid()
      modifies this
      ensures Valid() && users == old(users)
      ensures !insertRaises ==>
        r == Ok(StatusCheck(freshId, clientName, now)) && statusChecks == old(statusChecks) + [r.value]
      ensures insertRaises ==> r == Err(HttpError(500, UnhandledError)) && statusChecks == old(statusChecks)
    {
      var record := StatusCheck(freshId, clientName, now);
      if insertRaises {
        return Err(HttpError(500, UnhandledError));
      }
      statusChecks := statusChecks + [record];
      return Ok(record);
    }

    /** `get_status_checks`: the first thousand records in store order. */
    method GetStatusChecks(findRaises: bool) returns (r: Result<seq<StatusCheck>>)
      ensures findRaises ==> r == Err(HttpError(500, UnhandledError))
      ensures !findRaises ==> r.Ok? && r.value == FirstThousand(statusChecks)
      ensures r.Ok? ==> |r.value| <= ListLimit && r.value == statusChecks[..|r.value|]
    {
      if findRaises {
        return Err(HttpError(500, UnhandledError));
      }
      return Ok(FirstThousand(statusChecks));
    }
  }
}
