/** The request checks of handlers/auth.go: the required fields of Register
    and Login, the username-or-email conflict rule, and the Authorization
    header parsing of Logout up to the blacklist update. Password hashing,
    the database and JWT parsing are oracles: their answers are inputs. */
module AuthHandlers {
  import opened Base
  import Blacklist

  datatype Reply = Reply(status: int, body: ReplyBody)

  datatype ReplyBody =
    | ErrorBody(error: string)
    | Created(message: string, id: int, username: Bytes, email: Bytes)
    | LoggedIn(message: string, token: Bytes, id: int, username: Bytes, email: Bytes)
    | Done(message: string)

  // ---------------------------------------------------------------------
  // Register

  datatype RegisterInput = RegisterInput(username: Bytes, email: Bytes, password: Bytes)

  /** The users table as registration sees it: the usernames and the emails
      already taken. */
  datatype UserTable = UserTable(usernames: set<Bytes>, emails: set<Bytes>)

  /** The row handed to db.Create. */
  datatype NewAccount = NewAccount(username: Bytes, email: Bytes, passwordHash: Bytes)

  datatype RegisterOutcome = RegisterOutcome(reply: Reply, table: UserTable, inserted: Option<NewAccount>)

  /** Some field of the registration is empty. */
  predicate MissingRegisterField(input: RegisterInput) {
    input.username == [] || input.email == [] || input.password == []
  }

  /** The `username = ? OR email = ?` query finds a row. */
  predicate Taken(table: UserTable, input: RegisterInput) {
    input.username in table.usernames || input.email in table.emails
  }

  /** Register. `body` is None when the body does not parse; `queryFails`
      says the `username = ? OR email = ?` query returned an error other
      than finding the row (a database failure), which the handler treats
      like finding nothing; `hashed` is bcrypt's answer (None when hashing
      fails); `newId` is the id the database assigns (None when the insert
      fails). */
  function Register(body: Option<RegisterInput>, table: UserTable, queryFails: bool,
                    hashed: Option<Bytes>, newId: Option<int>): (r: RegisterOutcome)
    ensures body.None? ==> r.reply == Reply(StatusBadRequest, ErrorBody("Invalid input"))
    ensures body.Some? && MissingRegisterField(body.value) ==>
      r.reply == Reply(StatusBadRequest, ErrorBody("Username, email, and password are required"))
    ensures r.reply.status == StatusConflict <==>
      body.Some? && !MissingRegisterField(body.value) && !queryFails && Taken(table, body.value)
    ensures r.reply.status == StatusCreated <==>
      && body.Some? && !MissingRegisterField(body.value) && !(Taken(table, body.value) && !queryFails)
      && hashed.Some? && newId.Some?
    ensures r.reply.status == StatusCreated ==>
      && r.inserted == Some(NewAccount(body.value.username, body.value.email, hashed.value))
      && r.reply.body == Created("User created successfully", newId.value, body.value.username, body.value.email)
      && r.table == UserTable(table.usernames + {body.value.username}, table.emails + {body.value.email})
    ensures r.reply.status != StatusCreated ==> r.table == table && r.inserted.None?
  {
    match body
    case None => RegisterOutcome(Reply(StatusBadRequest, ErrorBody("Invalid input")), table, None)
    case Some(input) =>
      if MissingRegisterField(input) then
        RegisterOutcome(Reply(StatusBadRequest, ErrorBody("Username, email, and password are required")), table, None)
      else if !queryFails && Taken(table, input) then
        RegisterOutcome(Reply(StatusConflict, ErrorBody("Username or email already in use")), table, None)
      else
        match hashed
        case None => RegisterOutcome(Reply(StatusInternalServerError, ErrorBody("Couldn't hash password")), table, None)
        case Some(hash) =>
          match newId
          case None => RegisterOutcome(Reply(StatusInternalServerError, ErrorBody("Couldn't create user")), table, None)
          case Some(id) =>
            var account := NewAccount(input.username, input.email, hash);
            RegisterOutcome(
              Reply(StatusCreated, Created("User created successfully", id, input.username, input.email)),
              UserTable(table.usernames + {input.username}, table.emails + {input.email}),
              Some(account))
  }

  /** The required-field check comes before any lookup: with a field
      missing, the reply is the same whatever the table and the oracles say. */
  lemma RegisterValidatesFirst(input: RegisterInput, t1: UserTable, t2: UserTable, q1: bool, q2: bool,
                               h1: Option<Bytes>, h2: Option<Bytes>, id1: Option<int>, id2: Option<int>)
    requires MissingRegisterField(input)
    ensures Register(Some(input), t1, q1, h1, id1).reply == Register(Some(input), t2, q2, h2, id2).reply
  {
  }

  /** A failing conflict query is not a conflict: with the username or
      email already taken, the handler still hashes and inserts, and the
      reply is whatever those oracles make of it. */
  lemma QueryErrorSkipsConflict(input: RegisterInput, table: UserTable, hashed: Option<Bytes>, newId: Option<int>)
    requires !MissingRegisterField(input) && Taken(table, input)
    ensures Register(Some(input), table, false, hashed, newId).reply.status == StatusConflict
    ensures Register(Some(input), table, true, hashed, newId).reply.status ==
      if hashed.Some? && newId.Some? then StatusCreated else StatusInternalServerError
  {
  }

  // ---------------------------------------------------------------------
  // Login

  datatype LoginInput = LoginInput(username: Bytes, password: Bytes)

  /** A stored user: the row `username = ?` finds. */
  datatype Account = Account(id: int, username: Bytes, email: Bytes, passwordHash: Bytes)

  /** Login. `accounts` is the users table keyed by username; `queryFails`
      says the `username = ?` query returned an error other than finding
      nothing (a database failure), which the handler answers like an
      unknown user; `passwordMatches(password, hash)` is bcrypt's
      comparison; `token` is CreateToken's answer (None when signing fails). */
  function Login(body: Option<LoginInput>, accounts: map<Bytes, Account>, queryFails: bool,
                 passwordMatches: (Bytes, Bytes) -> bool, token: Option<Bytes>): (r: Reply)
    ensures body.None? ==> r == Reply(StatusBadRequest, ErrorBody("Invalid input"))
    ensures body.Some? && (body.value.username == [] || body.value.password == []) ==>
      r == Reply(StatusBadRequest, ErrorBody("Username and password are required"))
    ensures r.status == StatusUnauthorized <==>
      && body.Some? && body.value.username != [] && body.value.password != []
      && (queryFails || body.value.username !in accounts
          || !passwordMatches(body.value.password, accounts[body.value.username].passwordHash))
    ensures r.status == StatusOK <==>
      && body.Some? && body.value.username != [] && body.value.password != []
      && !queryFails && body.value.username in accounts
      && passwordMatches(body.value.password, accounts[body.value.username].passwordHash)
      && token.Some?
    ensures r.status == StatusOK ==>
      var a := accounts[body.value.username];
      r.body == LoggedIn("Login successful", token.value, a.id, a.username, a.email)
  {
    match body
    case None => Reply(StatusBadRequest, ErrorBody("Invalid input"))
    case Some(input) =>
      if input.username == [] || input.password == [] then
        Reply(StatusBadRequest, ErrorBody("Username and password are required"))
      else if queryFails || input.username !in accounts then
        Reply(StatusUnauthorized, ErrorBody("Invalid credentials"))
      else
        var account := accounts[input.username];
        if !passwordMatches(input.password, account.passwordHash) then
          Reply(StatusUnauthorized, ErrorBody("Invalid credentials"))
        else
          match token
          case None => Reply(StatusInternalServerError, ErrorBody("Couldn't generate token"))
          case Some(t) => Reply(StatusOK, LoggedIn("Login successful", t, account.id, account.username, account.email))
  }

  /** The required-field check of Login comes before any lookup. */
  lemma LoginValidatesFirst(input: LoginInput, a1: map<Bytes, Account>, a2: map<Bytes, Account>, q1: bool, q2: bool,
                            m1: (Bytes, Bytes) -> bool, m2: (Bytes, Bytes) -> bool, t1: Option<Bytes>, t2: Option<Bytes>)
    requires input.username == [] || input.password == []
    ensures Login(Some(input), a1, q1, m1, t1) == Login(Some(input), a2, q2, m2, t2)
    ensures Login(Some(input), a1, q1, m1, t1).status == StatusBadRequest
  {
  }

  // ---------------------------------------------------------------------
  // Logout

  /** The seven bytes "Bearer ". */
  const BearerPrefix: Bytes := [0x42, 0x65, 0x61, 0x72, 0x65, 0x72, 0x20]

  /** The token of an `Authorization: Bearer <token>` header; None when the
      header is empty, no longer than the prefix, or does not start with it. */
  function ExtractBearer(header: Bytes): (r: Option<Bytes>)
    ensures r.None? <==> |header| <= |BearerPrefix| || header[..|BearerPrefix|] != BearerPrefix
    ensures r.Some? ==> BearerPrefix + r.value == header && r.value != []
  {
    if header == [] || |header| <= 7 || header[..7] != BearerPrefix then None
    else Some(header[7..])
  }

  /** Every non-empty token survives a trip through the header. */
  lemma BearerRoundTrip(token: Bytes)
    requires token != []
    ensures ExtractBearer(BearerPrefix + token) == Some(token)
  {
    assert (BearerPrefix + token)[..7] == BearerPrefix;
    assert (BearerPrefix + token)[7..] == token;
  }

  /** What jwt.Parse and the claim checks make of a token: a parse or
      validation failure, claims that are not a map, an `exp` claim that is
      missing or not a number, or the expiry in whole seconds. */
  datatype ExpClaim = ParseFailed | NotMapClaims | NoNumericExp | ExpiresAt(seconds: int)

  datatype LogoutOutcome = LogoutOutcome(reply: Reply, blacklist: Blacklist.TokenBlacklist)

  /** Logout: only a well-formed header carrying a token that parses with a
      numeric expiry changes the blacklist, and then by recording exactly
      that token, without its prefix, until its expiry. */
  function Logout(header: Bytes, parse: Bytes -> ExpClaim, b: Blacklist.TokenBlacklist): (r: LogoutOutcome)
    ensures ExtractBearer(header).None? ==>
      r == LogoutOutcome(Reply(StatusBadRequest, ErrorBody("Invalid token format")), b)
    ensures r.reply.status == StatusOK <==> ExtractBearer(header).Some? && parse(ExtractBearer(header).value).ExpiresAt?
    ensures r.reply.status == StatusOK ==>
      var token := ExtractBearer(header).value;
      && header == BearerPrefix + token
      && r.blacklist == Blacklist.AddToBlacklist(b, token, Blacklist.UnixTime(parse(token).seconds))
    ensures r.reply.status != StatusOK ==> r.blacklist == b
  {
    match ExtractBearer(header)
    case None => LogoutOutcome(Reply(StatusBadRequest, ErrorBody("Invalid token format")), b)
    case Some(token) =>
      match parse(token)
      case ParseFailed => LogoutOutcome(Reply(StatusUnauthorized, ErrorBody("Invalid token")), b)
      case NotMapClaims => LogoutOutcome(Reply(StatusInternalServerError, ErrorBody("Unable to parse token claims")), b)
      case NoNumericExp => LogoutOutcome(Reply(StatusInternalServerError, ErrorBody("Invalid expiry in token")), b)
      case ExpiresAt(seconds) =>
        LogoutOutcome(Reply(StatusOK, Done("Logged out successfully")),
                      Blacklist.AddToBlacklist(b, token, Blacklist.UnixTime(seconds)))
  }

  /** Logging out with `Bearer <token>` blacklists `token` itself and
      nothing else new. */
  lemma LogoutBlacklistsBareToken(token: Bytes, parse: Bytes -> ExpClaim, b: Blacklist.TokenBlacklist)
    requires token != []
    requires parse(token).ExpiresAt?
    ensures var r := Logout(BearerPrefix + token, parse, b);
      && r.reply.status == StatusOK
      && r.blacklist.tokens.Keys == b.tokens.Keys + {token}
      && r.blacklist.tokens[token] == Blacklist.UnixTime(parse(token).seconds)
  {
    BearerRoundTrip(token);
  }
}
