/** The registration handler of handlers/user_handler.go: its validation
    sequence, the username-only conflict check and the record it creates.
    The repository and bcrypt are oracles whose answers are inputs. */
module UserHandler {
  import opened Base

  datatype RegisterRequest = RegisterRequest(username: Bytes, email: Bytes, password: Bytes)

  /** The shortest password accepted, counted in bytes (Go's `len`). */
  const MinPasswordLength := 6

  /** The stored users as the handler sees them: username to email. */
  type Users = map<Bytes, Bytes>

  /** The user record handed to CreateUser. */
  datatype NewUser = NewUser(username: Bytes, email: Bytes, passwordHash: Bytes, status: string)

  /** CreateUser's answer: the assigned id and creation time, or a failure. */
  datatype InsertResult = Inserted(id: int, createdAt: int) | InsertFailed

  datatype Body =
    | ErrorBody(error: string)
    | CreatedUser(id: int, username: Bytes, email: Bytes, createdAt: int)

  datatype Reply = Reply(status: int, body: Body)

  /** The reply, and the record handed to CreateUser if the handler got
      that far. */
  datatype Outcome = Outcome(reply: Reply, attempted: Option<NewUser>)

  predicate MissingField(req: RegisterRequest) {
    req.username == [] || req.email == [] || req.password == []
  }

  /** Register. `body` is None when the body does not parse;
      `lookupFails` says GetUserByUsername returned an error other than
      finding nothing (a database failure); `hashed` is bcrypt's answer. */
  function Register(body: Option<RegisterRequest>, users: Users, lookupFails: bool,
                    hashed: Option<Bytes>, insert: InsertResult): (r: Outcome)
    ensures body.None? ==> r == Outcome(Reply(StatusBadRequest, ErrorBody("Invalid request data")), None)
    ensures body.Some? && MissingField(body.value) ==>
      r == Outcome(Reply(StatusBadRequest, ErrorBody("Username, email and password are required")), None)
    ensures body.Some? && !MissingField(body.value) && |body.value.password| < MinPasswordLength ==>
      r == Outcome(Reply(StatusBadRequest, ErrorBody("Password must be at least 6 characters")), None)
    ensures r.reply.status == StatusConflict <==>
      && body.Some? && !MissingField(body.value) && |body.value.password| >= MinPasswordLength
      && body.value.username in users && !lookupFails
    ensures r.attempted.Some? <==>
      && body.Some? && !MissingField(body.value) && |body.value.password| >= MinPasswordLength
      && !(body.value.username in users && !lookupFails)
      && hashed.Some?
    ensures r.attempted.Some? ==>
      r.attempted.value == NewUser(body.value.username, body.value.email, hashed.value, "offline")
    ensures r.reply.status == StatusCreated <==> r.attempted.Some? && insert.Inserted?
    ensures r.reply.status == StatusCreated ==>
      r.reply.body == CreatedUser(insert.id, r.attempted.value.username, r.attempted.value.email, insert.createdAt)
  {
    match body
    case None => Outcome(Reply(StatusBadRequest, ErrorBody("Invalid request data")), None)
    case Some(req) =>
      if MissingField(req) then
        Outcome(Reply(StatusBadRequest, ErrorBody("Username, email and password are required")), None)
      else if |req.password| < MinPasswordLength then
        Outcome(Reply(StatusBadRequest, ErrorBody("Password must be at least 6 characters")), None)
      else if req.username in users && !lookupFails then
        Outcome(Reply(StatusConflict, ErrorBody("Username already exists")), None)
      else
        match hashed
        case None => Outcome(Reply(StatusInternalServerError, ErrorBody("Failed to process registration")), None)
        case Some(hash) =>
          var user := NewUser(req.username, req.email, hash, "offline");
          match insert
          case InsertFailed => Outcome(Reply(StatusInternalServerError, ErrorBody("Failed to create user")), Some(user))
          case Inserted(id, createdAt) =>
            Outcome(Reply(StatusCreated, CreatedUser(id, user.username, user.email, createdAt)), Some(user))
  }

  /** Both validations come before the repository is asked anything: a
      request that fails them gets the same 400 whatever is stored and
      whatever the oracles answer. */
  lemma ValidatesBeforeLookup(req: RegisterRequest, u1: Users, u2: Users, f1: bool, f2: bool,
                              h1: Option<Bytes>, h2: Option<Bytes>, i1: InsertResult, i2: InsertResult)
    requires MissingField(req) || |req.password| < MinPasswordLength
    ensures Register(Some(req), u1, f1, h1, i1) == Register(Some(req), u2, f2, h2, i2)
    ensures Register(Some(req), u1, f1, h1, i1).reply.status == StatusBadRequest
  {
  }

  /** Only the username is checked for conflicts: an email some stored user
      already has does not by itself give 409. */
  lemma EmailNotChecked(req: RegisterRequest, users: Users, lookupFails: bool, hashed: Option<Bytes>, insert: InsertResult)
    requires req.username !in users
    requires req.email in users.Values
    ensures Register(Some(req), users, lookupFails, hashed, insert).reply.status != StatusConflict
  {
  }

  /** A password of six bytes passes the length check even when it is fewer
      than six characters: "ééé" is three characters in six UTF-8 bytes. */
  lemma LengthCountsBytes(users: Users, hashed: Option<Bytes>, insert: InsertResult)
    ensures var threeChars: Bytes := [0xC3, 0xA9, 0xC3, 0xA9, 0xC3, 0xA9];
      var req := RegisterRequest([0x61], [0x62], threeChars);
      Register(Some(req), users, true, hashed, insert).reply.body != ErrorBody("Password must be at least 6 characters")
  {
  }
}
