# Chat hub, token blacklist and request checks — a Dafny model

This project models the core of a small Go chat server:

- **The chat hub** (`chat/hub.go`). One coordinator takes events from three
  channels: register, unregister and broadcast. It keeps a registry from
  connection to user id, and one user may hold several connections. It
  looks users up in an identity store and fans chat events out to every
  registered connection. Next to it, one session loop per connection reads
  frames and turns them into events. Here the goroutines and channels are
  gone. `Hub.RunStep` takes one event from the channel that the `select`
  picks, processes it completely, and returns the new state plus a list of
  effects: `Send`, `EnqueueBroadcast`, `EnqueueUnregister` and
  `StatusStored`. Enqueued events go to the back of their channel.
  `Hub.Session` lists the events one connection's session produces.
- **The token blacklist** (`utils/jwt.go`). It maps each logged-out token
  to the expiry of its JWT, with add, membership test and the sweep that
  drops expired entries. Time is an integer count of nanoseconds.
- **Request checks of the HTTP handlers** (`handlers/auth.go`,
  `handlers/user_handler.go`). These cover the required-field checks, the
  minimum password length, the conflict rules, the `Bearer ` header parsing
  of Logout, and the record a registration creates. The two files come from
  two different module trees, and each is modelled against its own user
  shape.

### Modelling choices

- Go randomises the order in which `range` visits a map, so the order is an
  input (`Env.order`). Every step that walks the registry requires that
  input to list each registered connection exactly once (`Enumerates`). All
  properties hold for every such order.
- Which writes fail is an input of each step (`Env.failing`). A `Send`
  effect is one `WriteMessage` attempt. A failed attempt also produces
  `EnqueueUnregister` for that connection.
- The identity store is an input of each step (`Repo`). A lookup fails
  exactly when the id is not in `Repo.users`, whatever the real cause. The
  status update fails for the ids in `Repo.statusFails`, and a successful
  one shows up as a `StatusStored` effect.
- The `select` may take from any channel that holds an event. `Intake`
  names the channel, and `CanStep` requires that channel to be non-empty.
  Each channel is FIFO and has no capacity bound.
- Handler inputs are byte strings (`Base.Bytes`) because Go's `len` counts
  bytes. Bcrypt, the database, `CreateToken` and `jwt.Parse` are oracles:
  their answers are parameters of the handler functions. A lookup query
  that fails with a database error, rather than finding no row, is its
  own input (`queryFails`, `lookupFails`), because the handlers branch on
  the query's error and not on the table.
- Payloads and frames are datatypes, not JSON. `Hub.Body` is the result of
  decoding a text frame as `{"content": …}`.

### Behaviour of the code worth knowing

- The `user_joined` that a registration queues is later fanned out to
  every registered connection. That includes the newcomer if it is still
  registered then (`HubProperties.JoinedReachesNewcomer`). The newcomer
  first gets the online list, then its own announcement. If the
  newcomer's online-list write failed, the select may take the queued
  unregister first, and the newcomer misses its own announcement.
- Join and leave events always carry content: "joined the chat" or "left
  the chat".
- The online list is built in two stages. First the user ids are
  de-duplicated, keeping first occurrences. Then each id is looked up,
  and ids whose lookup fails are dropped.
- The coordinator serialises all registry changes, but the `select` over
  three separate channels does not keep arrival order across them. It can
  take a session's unregister before that session's register. The
  unregister is then a no-op, and the closed connection is registered
  afterwards. It leaves the registry again only through the unregister
  queued by the failed online-list write
  (`HubProperties.SelectMayRegisterClosedConnection`).
- `UserHandler.Register` answers "at least 6 characters" but counts bytes
  (`UserHandler.LengthCountsBytes`).
- `IsTokenBlacklisted` does not look at the expiry. A token stays
  blacklisted after its expiry until the next sweep
  (`Blacklist.ExpiredUntilSwept`).

## Model

| member | source | states |
|---|---|---|
| Hub.GetUserById | chat/hub.go:77 | a lookup fails exactly when the store cannot find the id, and otherwise returns that id with its stored name (the same lookup serves chat/hub.go:120, 198 and 266) |
| Hub.WriteReads | chat/hub.go:162-165 | one write attempt sends the payload to exactly that connection, and hands the connection back to unregister iff the write fails (likewise chat/hub.go:225-229) |
| HubProperties.StoreStatusReads | chat/hub.go:84-86 | a status update writes nothing to connections and enqueues nothing; the status is stored iff the store accepts it, and a refusal is only logged (likewise chat/hub.go:127-129) |
| Hub.FanOut | chat/hub.go:158-167 | exactly one write per listed connection, in order; the connections handed back to unregister are exactly the listed ones whose write fails; nothing is broadcast; every write carries the given payload |
| Hub.FanOutHandsBackOnce | chat/hub.go:159-166 | when the visiting order has no repeats, no connection is handed back to unregister twice |
| Hub.DistinctIds | chat/hub.go:174-187 | the de-duplicated id list has no repeats, has exactly the ids of its input, and is no longer than its input |
| Hub.CollectDistinctIds | chat/hub.go:174-187 | the nested scan that appends an id only if it is not already listed yields the first-occurrence de-duplication of its input |
| Hub.OnlineList | chat/hub.go:196-207 | an entry is listed iff its id is among the ids and its lookup succeeds with that name; ids whose lookup fails are omitted, the rest kept; distinct ids give distinct entries |
| Hub.OnlineSnapshot | chat/hub.go:171-207 | the online list holds each registered user whose lookup succeeds exactly once, with the looked-up name, and nothing else; it is no longer than the registry |
| Hub.RegisterClient | chat/hub.go:75-104 | a failed lookup leaves the registry unchanged with no effects at all; a successful one maps the connection to the requested user id and leaves every other entry unchanged |
| Hub.UnregisterClient | chat/hub.go:107-139 | afterwards the connection is not registered, every other entry is unchanged, and unregistering an unregistered connection changes nothing and has no effects |
| Hub.BroadcastMessage | chat/hub.go:142-168 | the registry is unchanged; every registered connection is written to exactly once with the message; exactly the registered connections whose write fails are handed back to unregister, each once; nothing is broadcast |
| Hub.Process | chat/hub.go:56-72 | only a registration of a connection adds it, and only an unregistration of a connection removes it |
| Hub.RunStep | chat/hub.go:56-72 | the event processed is the head of the chosen channel, handled by the matching case; on every channel the step is a FIFO step: only the chosen channel loses its head, what else was waiting stays in front in its order, and the events the step hands back follow it; nothing is ever added to the register channel, so registrations come only from sessions |
| Hub.FifoChannelIsDropThenAppend | chat/hub.go:56-72 | the element-wise FIFO description of a channel step holds exactly when the new channel is the old one without its head (if taken) followed by the added events |
| HubProperties.BroadcastsDrainInOrder | chat/hub.go:66-68 | fanning out never feeds the broadcast channel, so a run of broadcast steps takes exactly the waiting messages, oldest first, and leaves the registry and the pending registrations unchanged |
| Hub.HandleFrame | chat/hub.go:247-280 | only a failed read ends the loop; a message is produced only from a decodable text frame with a successful lookup and carries the session's user id, the looked-up name and the frame's content; such a frame always produces one |
| Hub.ReadLoop | chat/hub.go:241-282 | the session hands back its connection for unregistering iff a read fails, then as its last event and only once; it never registers; every broadcast it produces is a chat message from its own user |
| Hub.Session | chat/hub.go:233-244 | a session registers its connection first and only then, and unregisters it iff a read fails |
| HubProperties.RegisterSuccess | chat/hub.go:84-103 | a successful registration announces exactly one user_joined with the looked-up id, name and "joined the chat"; writes exactly once, to the new connection, the online list, which contains the new user; hands the connection back only if that write fails; stores "online" unless the store refuses |
| HubProperties.RegisterEffectsRead | chat/hub.go:83-103 | the effects of a successful registration broadcast exactly the announcement, write only to the new connection and only the given list, hand the connection back iff the write fails, and store "online" iff the store accepts it |
| HubProperties.NewcomerListed | chat/hub.go:171-207 | once its connection is registered, a user whose lookup succeeds is on the online list built afterwards, with the looked-up name |
| HubProperties.RegisterIgnoresStatusFailure | chat/hub.go:84-91 | a failing status update does not abort registration: the registry and all effects other than the stored status are the same whichever updates fail |
| HubProperties.JoinedReachesNewcomer | chat/hub.go:88-100 | the user_joined a registration queues reaches the newly registered connection itself when it is broadcast while the connection is still registered, whatever other steps ran in between |
| HubProperties.RegisterStep | chat/hub.go:93-103 | in the coordinator loop, a successful registration leaves the connection registered, writes only to it, and places user_joined at the back of the broadcast channel |
| HubProperties.UnregisterPresent | chat/hub.go:108-138 | unregistering a registered connection writes nothing and hands nothing back; a failed lookup produces no effects at all; otherwise exactly one user_left with the looked-up name is queued and "offline" is stored unless the store refuses |
| HubProperties.UnregisterIdempotent | chat/hub.go:108-117 | unregistering twice is unregistering once: the second call is a no-op with no effects |
| HubProperties.OutsiderUntouched | chat/hub.go:150-167 | a connection outside the registry stays outside and is written to by no step except its own registration |
| HubProperties.NoStaleTarget | chat/hub.go:108-113 | over any run of later events that does not register it again, no later step's fan-out targets a connection outside the registry (as every unregistered one is), and it never reappears in the registry |
| HubProperties.SelectMayRegisterClosedConnection | chat/hub.go:60-69 | the select may process a session's unregister before its register, leaving the closed connection registered until the unregister queued by its failed write is processed |
| HubProperties.SessionBroadcastsTextFrames | chat/hub.go:255-279 | every decodable text frame read before the connection fails becomes exactly one message, in order, with the session's user id and looked-up name; other frames produce nothing, and so does everything when the lookup fails |
| HubProperties.AliceJoinsAlone | chat/hub.go:171-229 | user 7 "alice" joining an empty hub is sent the online list holding exactly herself |
| HubProperties.IsolatedSendFailure | chat/hub.go:159-166 | with two registered connections and one failing write, both are written to and only the failing one is handed back |
| Blacklist.AddToBlacklist | utils/jwt.go:41-46 | after adding, the token is blacklisted with the given expiry and every other entry is unchanged |
| Blacklist.CleanupBlacklist | utils/jwt.go:49-59 | a token survives the sweep iff it was blacklisted and `now` is not strictly after its expiry; survivors keep their expiry |
| Blacklist.SweepBlacklist | utils/jwt.go:53-58 | the range loop that deletes expired entries while iterating computes exactly the sweep |
| Blacklist.ExpiredUntilSwept | utils/jwt.go:32-38 | the membership test answers true for a token with an entry even when its expiry has passed; only a sweep removes it |
| Blacklist.BlacklistedOnlyIfAdded | utils/jwt.go:41-59 | after any history of adds and sweeps, a token is blacklisted only if it was before or some add in the history recorded it |
| Blacklist.FromEmptyOnlyAdded | utils/jwt.go:20-23 | starting from the empty blacklist the server begins with, every blacklisted token was added by some logout |
| Blacklist.AddThenCheck | utils/jwt.go:32-46 | after adding a token, the blacklisted tokens are exactly that one and those already there |
| Blacklist.ReAddOverwrites | utils/jwt.go:45 | re-adding a token overwrites its expiry and does not change the set of blacklisted tokens |
| Blacklist.CleanupIsSubmap | utils/jwt.go:49-59 | the sweep never adds entries: its result is a sub-map of its input |
| Blacklist.CleanupIdempotent | utils/jwt.go:53-58 | sweeping twice at the same time is sweeping once |
| Blacklist.CleanupMonotone | utils/jwt.go:55 | a later sweep keeps no more tokens than an earlier one |
| Blacklist.AddedSurvivesUntilExpiry | utils/jwt.go:55 | a token added with some expiry survives every sweep up to and including that instant |
| AuthHandlers.Register | handlers/auth.go:16-79 | an unparsable body or an empty field gives 400; 409 iff the fields are present and the conflict query succeeds in finding the username or the email; a failing query counts as finding nothing; 201 iff there is no such conflict and hashing and insert succeed, and then the table gains that username and email and the reply echoes them; otherwise the table is unchanged |
| AuthHandlers.QueryErrorSkipsConflict | handlers/auth.go:42-68 | with the username or email taken, a working query gives 409, but a failing one lets the handler go on to hash and insert, so the reply is 201 or 500 as those oracles answer |
| AuthHandlers.RegisterValidatesFirst | handlers/auth.go:33-46 | with a field missing, the reply is the same whatever the table, the query and the oracles say |
| AuthHandlers.Login | handlers/auth.go:82-138 | an empty username or password gives 400; 401 iff the lookup query fails or finds no row, or the password does not match; 200 iff the query finds the user, the password matches and a token is issued, and then the reply carries the token and the stored user |
| AuthHandlers.LoginValidatesFirst | handlers/auth.go:98-111 | with a field missing, Login answers 400 before any lookup, whatever the store and oracles say |
| AuthHandlers.ExtractBearer | handlers/auth.go:144-151 | a header is rejected iff it is no longer than "Bearer " or does not start with it; an accepted header is "Bearer " followed by the non-empty token extracted |
| AuthHandlers.BearerRoundTrip | handlers/auth.go:144-151 | every non-empty token is extracted unchanged from "Bearer " + token |
| AuthHandlers.Logout | handlers/auth.go:141-186 | a malformed header gives 400 and leaves the blacklist alone; 200 iff the header is well formed and the token parses with a numeric expiry, and then exactly the extracted token is blacklisted until that expiry; every other reply leaves the blacklist unchanged |
| AuthHandlers.LogoutBlacklistsBareToken | handlers/auth.go:151-181 | logging out with "Bearer " + token blacklists the token itself, without the prefix, and no other new entry |
| UserHandler.Register | handlers/user_handler.go:38-100 | an empty field gives 400 "required"; a password under 6 bytes with all fields present gives 400; 409 iff both validations pass and the username is found; a record is handed to the store iff both validations pass, the username is not found, and hashing succeeds; that record has the request's username and email, the hash and status "offline"; 201 iff a record was handed over and the store accepted it, and then the reply echoes its username and email |
| UserHandler.ValidatesBeforeLookup | handlers/user_handler.go:48-66 | a request failing either validation gets the same 400 whatever is stored and whatever the oracles answer |
| UserHandler.EmailNotChecked | handlers/user_handler.go:61-66 | an email another user already has does not by itself give 409 |
| UserHandler.LengthCountsBytes | handlers/user_handler.go:54-58 | a six-byte password of three characters passes the length check |

## Left out

- Goroutines, channels, `sync.RWMutex`, and the channel capacities
  (256/10/10). The hub is a sequential loop over unbounded FIFO channels.
  This means the model cannot show the coordinator blocking on its own
  full broadcast channel.
- The writes of a broadcast happen inside the step, in the visiting order.
  In the source, each write of `broadcastMessage` runs in its own goroutine
  after the step, and that goroutine reports a failure to the unregister
  channel (chat/hub.go:159-166). So two broadcasts can reach one
  connection in either order, writes to one connection can overlap, and
  the report can land behind events queued later. The model shows none of
  this. The write of the online list does run on the coordinator, and so
  does its report (chat/hub.go:225-229). The model's in-step report of
  that write matches the source, except that the source's send can block
  on a full channel.
- Timestamps (`time.Now`), the 15-minute cleanup ticker, and `CreateToken`.
  The model has no clock: the sweep takes `now` as a parameter.
- JSON marshalling and unmarshalling. A `ChatMessage` cannot fail to
  marshal here, so the "marshal error, drop the broadcast" paths of
  `broadcastMessage` and `sendOnlineUsers` are not modelled.
- WebSocket I/O. Reads and writes are inputs. `Close` and ping/pong frames
  are not modelled.
- SQL, gorm models and bcrypt. They appear only as oracle parameters.
  Their own constraints are not modelled, for example that the database
  rejects a duplicate email at insert time.
- JWT parsing, signature checks and claim extraction in `Logout`,
  including the `float64` to `int64` truncation of `exp`. The oracle returns
  the expiry already in whole seconds.
- The authentication middleware, the WebSocket upgrade handler, routing,
  `main` and config loading.
- HubProperties.NoStaleTarget: only writes issued by later steps are
  covered. A broadcast write whose goroutine started before the unregister
  (chat/hub.go:159-166) can still reach the connection after it. On a
  closed connection that write fails and queues a second unregister,
  which is a no-op.
- HubProperties.RegisterSuccess: all lookups of one step see one identity
  store. The source calls `GetUserByID` once for the registration
  (chat/hub.go:77) and again for each listed user (chat/hub.go:198). If
  the second lookup of the new user fails, the `continue` at
  chat/hub.go:199-201 leaves them off their own online list. The model
  cannot show this.
- Hub.OnlineSnapshot: the same holds here. Every lookup of one snapshot,
  and the registration lookup before it, sees the same store.
- Hub.ReadLoop: the identity store is fixed for the whole session. In the
  source, each frame's lookup may see a different answer.
- HubProperties.SessionBroadcastsTextFrames: it relies on the same fixed
  store. In the source, the lookup of any one frame (chat/hub.go:266) can
  fail on its own and drop just that frame, so "one message per decodable
  text frame" and "nothing when the lookup fails" hold only frame by
  frame.
