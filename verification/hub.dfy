/** The chat hub of chat/hub.go with its goroutines and channels taken out:
    a sequential state machine whose state is the connection registry plus
    the three pending-event intakes, and whose step takes one event,
    processes it completely and reports what it did as a list of effects.

    Everything the hub cannot decide by itself is an input of a step: the
    identity store's answers (`Repo`), which writes to which connections fail
    (`Env.failing`), and the order in which Go's `range` visits the registry
    map (`Env.order`, which Go randomises). */
module Hub {
  import opened Base

  /** An accepted WebSocket connection; only its identity matters here. */
  type Conn = nat

  /** A user's numeric identifier (an int64 in the source). */
  type UserId = int

  datatype User = User(id: UserId, username: string)

  /** The identity store as one step sees it: the users `GetUserByID` finds
      (an id that is absent is a failed lookup, whatever the cause) and the
      users for whom `UpdateUserStatus` fails. */
  datatype Repo = Repo(users: map<UserId, string>, statusFails: set<UserId>)

  /** GetUserByID against the users the store can currently find. */
  function GetUserById(users: map<UserId, string>, id: UserId): (r: Option<User>)
    ensures r.Some? <==> id in users
    ensures r.Some? ==> r.value.id == id && r.value.username == users[id]
  {
    if id in users then Some(User(id, users[id])) else None
  }

  datatype Status = Online | Offline

  datatype MessageType = Message | UserJoined | UserLeft

  /** ChatMessage of chat/hub.go:30-36 without its timestamp. */
  datatype ChatMessage = ChatMessage(msgType: MessageType, userId: UserId, username: string, content: string)

  datatype OnlineUser = OnlineUser(id: UserId, username: string)

  /** What one WriteMessage call carries: a chat event, or the online-users
      list sent to a newly registered connection. */
  datatype Payload = Chat(message: ChatMessage) | OnlineUsers(users: seq<OnlineUser>)

  datatype Registration = Registration(conn: Conn, userId: UserId)

  /** One item taken from one of the three intakes. */
  datatype Event =
    | Register(registration: Registration)
    | Unregister(conn: Conn)
    | Broadcast(message: ChatMessage)

  /** What processing an event does outside the registry. */
  datatype Effect =
    | Send(conn: Conn, payload: Payload)              // one WriteMessage call
    | EnqueueBroadcast(message: ChatMessage)          // h.broadcast <- message
    | EnqueueUnregister(conn: Conn)                   // h.unregister <- conn
    | StatusStored(userId: UserId, status: Status)    // UpdateUserStatus succeeded

  /** The `clients` map: connection to user id; one user may hold several
      connections. */
  type Registry = map<Conn, UserId>

  /** The nondeterministic inputs of one step. */
  datatype Env = Env(repo: Repo, failing: set<Conn>, order: seq<Conn>)

  datatype Outcome = Outcome(clients: Registry, effects: seq<Effect>)

  const JoinedContent := "joined the chat"
  const LeftContent := "left the chat"

  // ---------------------------------------------------------------------
  // Reading effect lists

  /** The connections written to, in order. */
  function Recipients(effects: seq<Effect>): seq<Conn> {
    if effects == [] then []
    else (if effects[0].Send? then [effects[0].conn] else []) + Recipients(effects[1..])
  }

  /** The connections handed back to the unregister intake, in order. */
  function Unregisters(effects: seq<Effect>): seq<Conn> {
    if effects == [] then []
    else (if effects[0].EnqueueUnregister? then [effects[0].conn] else []) + Unregisters(effects[1..])
  }

  /** The messages handed to the broadcast intake, in order. */
  function Broadcasts(effects: seq<Effect>): seq<ChatMessage> {
    if effects == [] then []
    else (if effects[0].EnqueueBroadcast? then [effects[0].message] else []) + Broadcasts(effects[1..])
  }

  lemma {:induction false} RecipientsConcat(a: seq<Effect>, b: seq<Effect>)
    ensures Recipients(a + b) == Recipients(a) + Recipients(b)
    decreases |a|
  {
    if a != [] {
      assert (a + b)[1..] == a[1..] + b;
      RecipientsConcat(a[1..], b);
    } else {
      assert a + b == b;
    }
  }

  lemma {:induction false} UnregistersConcat(a: seq<Effect>, b: seq<Effect>)
    ensures Unregisters(a + b) == Unregisters(a) + Unregisters(b)
    decreases |a|
  {
    if a != [] {
      assert (a + b)[1..] == a[1..] + b;
      UnregistersConcat(a[1..], b);
    } else {
      assert a + b == b;
    }
  }

  lemma {:induction false} BroadcastsConcat(a: seq<Effect>, b: seq<Effect>)
    ensures Broadcasts(a + b) == Broadcasts(a) + Broadcasts(b)
    decreases |a|
  {
    if a != [] {
      assert (a + b)[1..] == a[1..] + b;
      BroadcastsConcat(a[1..], b);
    } else {
      assert a + b == b;
    }
  }

  // ---------------------------------------------------------------------
  // Writing to connections

  /** One WriteMessage call; a failed write hands the connection to the
      unregister intake. */
  function Write(conn: Conn, payload: Payload, failing: set<Conn>): seq<Effect> {
    [Send(conn, payload)] + (if conn in failing then [EnqueueUnregister(conn)] else [])
  }

  lemma WriteReads(conn: Conn, payload: Payload, failing: set<Conn>)
    ensures Recipients(Write(conn, payload, failing)) == [conn]
    ensures Unregisters(Write(conn, payload, failing)) == if conn in failing then [conn] else []
    ensures Broadcasts(Write(conn, payload, failing)) == []
    ensures forall e :: e in Write(conn, payload, failing) && e.Send? ==> e == Send(conn, payload)
  {
    var head: seq<Effect> := [Send(conn, payload)];
    var tail: seq<Effect> := if conn in failing then [EnqueueUnregister(conn)] else [];
    RecipientsConcat(head, tail);
    UnregistersConcat(head, tail);
    BroadcastsConcat(head, tail);
    assert head[1..] == [] && (tail != [] ==> tail[1..] == []);
  }

  /** One write per connection of `order`, each independent of the others
      (the goroutine per recipient in broadcastMessage). */
  function FanOut(order: seq<Conn>, payload: Payload, failing: set<Conn>): (effects: seq<Effect>)
    ensures Recipients(effects) == order
    ensures forall c :: c in Unregisters(effects) <==> c in order && c in failing
    ensures Broadcasts(effects) == []
    ensures forall e :: e in effects ==> (e.Send? && e.payload == payload) || e.EnqueueUnregister?
  {
    if order == [] then []
    else
      var first := Write(order[0], payload, failing);
      var rest := FanOut(order[1..], payload, failing);
      WriteReads(order[0], payload, failing);
      RecipientsConcat(first, rest);
      UnregistersConcat(first, rest);
      BroadcastsConcat(first, rest);
      assert order == [order[0]] + order[1..];
      first + rest
  }

  /** A connection visited once is handed back at most once. */
  lemma {:induction false} FanOutHandsBackOnce(order: seq<Conn>, payload: Payload, failing: set<Conn>)
    requires NoDup(order)
    ensures NoDup(Unregisters(FanOut(order, payload, failing)))
  {
    if order != [] {
      var first := Write(order[0], payload, failing);
      var rest := FanOut(order[1..], payload, failing);
      NoDupTail(order);
      FanOutHandsBackOnce(order[1..], payload, failing);
      WriteReads(order[0], payload, failing);
      UnregistersConcat(first, rest);
      var later := Unregisters(rest);
      assert order[0] !in later;
      if order[0] in failing {
        NoDupCons(order[0], later);
      } else {
        assert Unregisters(first) + later == later;
      }
    }
  }

  /** UpdateUserStatus: the stored status changes only when the call succeeds. */
  function StoreStatus(repo: Repo, id: UserId, status: Status): seq<Effect> {
    if id in repo.statusFails then [] else [StatusStored(id, status)]
  }

  // ---------------------------------------------------------------------
  // The online-users list (sendOnlineUsers)

  /** The registry's user ids in the order `order` visits its connections. */
  function ValuesInOrder(clients: Registry, order: seq<Conn>): seq<UserId>
    requires forall c :: c in order ==> c in clients
  {
    seq(|order|, k requires 0 <= k < |order| => clients[order[k]])
  }

  /** `ids` with every repeat dropped, first occurrences kept in order. */
  function DistinctIds(ids: seq<UserId>): (r: seq<UserId>)
    ensures NoDup(r)
    ensures forall x :: x in r <==> x in ids
    ensures |r| <= |ids|
    decreases |ids|
  {
    if ids == [] then []
    else
      var prefix := DistinctIds(ids[..|ids| - 1]);
      assert ids == ids[..|ids| - 1] + [ids[|ids| - 1]];
      if ids[|ids| - 1] in prefix then prefix else prefix + [ids[|ids| - 1]]
  }

  /** The nested scan of chat/hub.go:174-187: append an id unless an equal
      one is already in the list. */
  method CollectDistinctIds(ids: seq<UserId>) returns (userIds: seq<UserId>)
    ensures userIds == DistinctIds(ids)
  {
    userIds := [];
    var i := 0;
    while i < |ids|
      invariant 0 <= i <= |ids|
      invariant userIds == DistinctIds(ids[..i])
    {
      var found := false;
      var j := 0;
      while j < |userIds|
        invariant 0 <= j <= |userIds|
        invariant ids[i] !in userIds[..j]
      {
        if userIds[j] == ids[i] {
          found := true;
          break;
        }
        j := j + 1;
      }
      assert found <==> ids[i] in userIds;
      if !found {
        userIds := userIds + [ids[i]];
      }
      assert ids[..i + 1][..i] == ids[..i];
      i := i + 1;
    }
    assert ids[..i] == ids;
  }

  /** One entry per id whose lookup succeeds, in the order of `ids`. */
  function OnlineList(ids: seq<UserId>, known: map<UserId, string>): (users: seq<OnlineUser>)
    ensures forall u :: u in users <==> u.id in ids && u.id in known && u.username == known[u.id]
    ensures NoDup(ids) ==> forall i, j :: 0 <= i < j < |users| ==> users[i].id != users[j].id
    ensures |users| <= |ids|
  {
    if ids == [] then []
    else
      var rest := OnlineList(ids[1..], known);
      var head := match GetUserById(known, ids[0])
        case Some(user) => [OnlineUser(user.id, user.username)]
        case None => [];
      assert forall x :: x in ids <==> x == ids[0] || x in ids[1..];
      assert NoDup(ids) ==> ids[0] !in ids[1..] && NoDup(ids[1..]) by {
        if NoDup(ids) {
          forall i, j | 0 <= i < j < |ids[1..]| ensures ids[1..][i] != ids[1..][j] {
            assert ids[1..][i] == ids[i + 1];
          }
        }
      }
      head + rest
  }

  /** The list sendOnlineUsers writes: every user with a live connection
      and a successful lookup, each once. */
  function OnlineSnapshot(clients: Registry, order: seq<Conn>, known: map<UserId, string>): (users: seq<OnlineUser>)
    requires Enumerates(order, clients.Keys)
    ensures forall i, j :: 0 <= i < j < |users| ==> users[i].id != users[j].id
    ensures forall u :: u in users <==> u.id in clients.Values && u.id in known && u.username == known[u.id]
    ensures |users| <= |clients|
  {
    var values := ValuesInOrder(clients, order);
    assert forall x :: x in values <==> x in clients.Values by {
      forall x ensures x in values <==> x in clients.Values {
        if x in values {
          var k :| 0 <= k < |values| && values[k] == x;
          assert order[k] in clients;
        }
        if x in clients.Values {
          var c :| c in clients && clients[c] == x;
          var k :| 0 <= k < |order| && order[k] == c;
          assert values[k] == x;
        }
      }
    }
    EnumerationSize(order, clients.Keys);
    OnlineList(DistinctIds(values), known)
  }

  // ---------------------------------------------------------------------
  // Processing one event (the three cases of the select in Run)

  /** The registry orders a step needs: registering visits the registry
      after the insertion, broadcasting visits it as it is. */
  ghost predicate OrderFits(clients: Registry, event: Event, env: Env) {
    match event
    case Register(reg) =>
      GetUserById(env.repo.users, reg.userId).Some? ==> Enumerates(env.order, clients.Keys + {reg.conn})
    case Unregister(_) => true
    case Broadcast(_) => Enumerates(env.order, clients.Keys)
  }

  /** registerClient: look the user up, mark them online, record the
      connection, announce the join and send the newcomer the online list. */
  function RegisterClient(clients: Registry, reg: Registration, env: Env): (r: Outcome)
    requires OrderFits(clients, Register(reg), env)
    ensures GetUserById(env.repo.users, reg.userId).None? ==> r == Outcome(clients, [])
    ensures GetUserById(env.repo.users, reg.userId).Some? ==>
      reg.conn in r.clients && r.clients[reg.conn] == reg.userId && AgreeExcept(clients, r.clients, reg.conn)
  {
    match GetUserById(env.repo.users, reg.userId)
    case None => Outcome(clients, [])
    case Some(user) =>
      var clients' := clients[reg.conn := reg.userId];
      assert clients'.Keys == clients.Keys + {reg.conn};
      var joined := ChatMessage(UserJoined, user.id, user.username, JoinedContent);
      var snapshot := OnlineSnapshot(clients', env.order, env.repo.users);
      Outcome(clients', StoreStatus(env.repo, user.id, Online) + [EnqueueBroadcast(joined)]
                        + Write(reg.conn, OnlineUsers(snapshot), env.failing))
  }

  /** unregisterClient: forget the connection; if it was registered and its
      user can be looked up, mark them offline and announce the departure. */
  function UnregisterClient(clients: Registry, conn: Conn, repo: Repo): (r: Outcome)
    ensures conn !in r.clients
    ensures AgreeExcept(clients, r.clients, conn)
    ensures conn !in clients ==> r == Outcome(clients, [])
  {
    if conn !in clients then Outcome(clients, [])
    else
      var clients' := clients - {conn};
      match GetUserById(repo.users, clients[conn])
      case None => Outcome(clients', [])
      case Some(user) =>
        var left := ChatMessage(UserLeft, user.id, user.username, LeftContent);
        Outcome(clients', StoreStatus(repo, user.id, Offline) + [EnqueueBroadcast(left)])
  }

  /** broadcastMessage: write the message once to every registered
      connection; each failed write hands that connection, and only that
      one, to the unregister intake. */
  function BroadcastMessage(clients: Registry, message: ChatMessage, env: Env): (r: Outcome)
    requires Enumerates(env.order, clients.Keys)
    ensures r.clients == clients
    ensures Enumerates(Recipients(r.effects), clients.Keys)
    ensures forall e :: e in r.effects && e.Send? ==> e.payload == Chat(message)
    ensures forall c :: c in Unregisters(r.effects) <==> c in clients && c in env.failing
    ensures NoDup(Unregisters(r.effects))
    ensures Broadcasts(r.effects) == []
  {
    FanOutHandsBackOnce(env.order, Chat(message), env.failing);
    Outcome(clients, FanOut(env.order, Chat(message), env.failing))
  }

  /** One iteration of the loop in Run. Only a registration adds a
      connection and only an unregistration removes one. */
  function Process(clients: Registry, event: Event, env: Env): (r: Outcome)
    requires OrderFits(clients, event, env)
    ensures forall c :: c in r.clients && c !in clients ==> event == Register(Registration(c, r.clients[c]))
    ensures forall c :: c in clients && c !in r.clients ==> event == Unregister(c)
  {
    match event
    case Register(reg) => RegisterClient(clients, reg, env)
    case Unregister(conn) => UnregisterClient(clients, conn, env.repo)
    case Broadcast(message) => BroadcastMessage(clients, message, env)
  }

  // ---------------------------------------------------------------------
  // The coordinator loop over its three intakes

  /** The registry and the events waiting on each channel. */
  datatype HubState = HubState(
    clients: Registry,
    registerQ: seq<Registration>,
    unregisterQ: seq<Conn>,
    broadcastQ: seq<ChatMessage>)

  /** The channel the `select` takes its next event from. */
  datatype Intake = RegisterIntake | UnregisterIntake | BroadcastIntake

  /** The event waiting at the head of the chosen channel, if any. */
  function Pending(s: HubState, pick: Intake): Option<Event> {
    match pick
    case RegisterIntake => if s.registerQ == [] then None else Some(Register(s.registerQ[0]))
    case UnregisterIntake => if s.unregisterQ == [] then None else Some(Unregister(s.unregisterQ[0]))
    case BroadcastIntake => if s.broadcastQ == [] then None else Some(Broadcast(s.broadcastQ[0]))
  }

  /** `select` only takes from a channel that holds an event. */
  ghost predicate CanStep(s: HubState, pick: Intake, env: Env) {
    Pending(s, pick).Some? && OrderFits(s.clients, Pending(s, pick).value, env)
  }

  datatype Step = Step(state: HubState, effects: seq<Effect>)

  /** A FIFO channel between two states: `after` holds the events of
      `before` except its head when `taken`, in their order and in front,
      followed by `added`. */
  ghost predicate FifoChannel<T>(before: seq<T>, after: seq<T>, taken: bool, added: seq<T>) {
    var gone := if taken then 1 else 0;
    && gone <= |before|
    && |after| == |before| - gone + |added|
    && (forall i :: gone <= i < |before| ==> after[i - gone] == before[i])
    && (forall j :: 0 <= j < |added| ==> after[|before| - gone + j] == added[j])
  }

  /** The element-wise description of a FIFO step is exactly "drop the
      head when taken, then append". */
  lemma FifoChannelIsDropThenAppend<T>(before: seq<T>, after: seq<T>, taken: bool, added: seq<T>)
    ensures FifoChannel(before, after, taken, added) <==>
      && (taken ==> before != [])
      && after == (if taken then before[1..] else before) + added
  {
    var gone := if taken then 1 else 0;
    if FifoChannel(before, after, taken, added) {
      var expected := before[gone..] + added;
      assert |after| == |expected|;
      forall k | 0 <= k < |after| ensures after[k] == expected[k] {
        if k < |before| - gone {
          assert after[(k + gone) - gone] == before[k + gone];
        } else {
          assert after[|before| - gone + (k - (|before| - gone))] == added[k - (|before| - gone)];
        }
      }
    }
  }

  /** A channel after a step: its head taken away when `taken`, and
      `added` appended. */
  function AfterTake<T>(q: seq<T>, taken: bool, added: seq<T>): (q': seq<T>)
    requires taken ==> q != []
    ensures FifoChannel(q, q', taken, added)
  {
    if taken then q[1..] + added else q + added
  }

  /** The state after the head of `pick` is taken, the registry replaced
      and the events in `effects` handed back. */
  function Advance(s: HubState, pick: Intake, clients: Registry, effects: seq<Effect>): HubState
    requires Pending(s, pick).Some?
  {
    HubState(clients,
             AfterTake(s.registerQ, pick == RegisterIntake, []),
             AfterTake(s.unregisterQ, pick == UnregisterIntake, Unregisters(effects)),
             AfterTake(s.broadcastQ, pick == BroadcastIntake, Broadcasts(effects)))
  }

  /** Take one event, process it completely, and append whatever it hands
      to the broadcast and unregister channels behind the events already
      waiting there. Nothing that was waiting is lost or reordered, and
      only the sessions ever add registrations. */
  function RunStep(s: HubState, pick: Intake, env: Env): (r: Step)
    requires CanStep(s, pick, env)
    // The event processed is the head of the chosen channel.
    ensures pick == RegisterIntake ==>
      RegisterClient(s.clients, s.registerQ[0], env) == Outcome(r.state.clients, r.effects)
    ensures pick == UnregisterIntake ==>
      UnregisterClient(s.clients, s.unregisterQ[0], env.repo) == Outcome(r.state.clients, r.effects)
    ensures pick == BroadcastIntake ==>
      BroadcastMessage(s.clients, s.broadcastQ[0], env) == Outcome(r.state.clients, r.effects)
    // Each channel loses at most the head that was taken; what else was
    // waiting stays in front in its order, and the events handed back
    // follow. Nothing is ever added to the register channel.
    ensures FifoChannel(s.registerQ, r.state.registerQ, pick == RegisterIntake, [])
    ensures FifoChannel(s.unregisterQ, r.state.unregisterQ, pick == UnregisterIntake, Unregisters(r.effects))
    ensures FifoChannel(s.broadcastQ, r.state.broadcastQ, pick == BroadcastIntake, Broadcasts(r.effects))
  {
    match pick
    case RegisterIntake =>
      var out := RegisterClient(s.clients, s.registerQ[0], env);
      Step(Advance(s, pick, out.clients, out.effects), out.effects)
    case UnregisterIntake =>
      var out := UnregisterClient(s.clients, s.unregisterQ[0], env.repo);
      Step(Advance(s, pick, out.clients, out.effects), out.effects)
    case BroadcastIntake =>
      var out := BroadcastMessage(s.clients, s.broadcastQ[0], env);
      Step(Advance(s, pick, out.clients, out.effects), out.effects)
  }

  // ---------------------------------------------------------------------
  // One connection's session (HandleWebSocket)

  /** The two data-frame types ReadMessage returns. */
  datatype FrameType = TextMessage | BinaryMessage

  /** The result of decoding a text frame as `{"content": ...}`. */
  datatype Body = Decoded(content: string) | Malformed

  /** One result of ReadMessage. */
  datatype Inbound = Frame(frameType: FrameType, body: Body) | ReadFailed

  datatype FrameResult = Continue(produced: Option<ChatMessage>) | Exit

  /** What the read loop does with one inbound result. */
  function HandleFrame(userId: UserId, inbound: Inbound, repo: Repo): (r: FrameResult)
    ensures r.Exit? <==> inbound.ReadFailed?
    ensures r.Continue? && r.produced.Some? ==>
      && inbound.frameType == TextMessage
      && inbound.body == Decoded(r.produced.value.content)
      && r.produced.value.msgType == Message
      && r.produced.value.userId == userId
      && userId in repo.users
      && r.produced.value.username == repo.users[userId]
    ensures inbound.Frame? && inbound.frameType == TextMessage && inbound.body.Decoded? && userId in repo.users
      ==> r.produced.Some?
  {
    match inbound
    case ReadFailed => Exit
    case Frame(frameType, body) =>
      if frameType != TextMessage then Continue(None)
      else
        match body
        case Malformed => Continue(None)
        case Decoded(content) =>
          match GetUserById(repo.users, userId)
          case None => Continue(None)
          case Some(user) => Continue(Some(ChatMessage(Message, userId, user.username, content)))
  }

  /** The events the read loop hands to the hub for the inbound results
      `inputs` (a session whose reads have not failed yet is still running). */
  function ReadLoop(conn: Conn, userId: UserId, inputs: seq<Inbound>, repo: Repo): (events: seq<Event>)
    ensures Unregister(conn) in events <==> ReadFailed in inputs
    ensures forall k :: 0 <= k < |events| && events[k].Unregister? ==> k == |events| - 1 && events[k].conn == conn
    ensures forall e :: e in events ==> !e.Register?
    ensures forall e :: e in events && e.Broadcast? ==> e.message.msgType == Message && e.message.userId == userId
  {
    if inputs == [] then []
    else
      assert forall x :: x in inputs <==> x == inputs[0] || x in inputs[1..];
      match HandleFrame(userId, inputs[0], repo)
      case Exit => [Unregister(conn)]
      case Continue(None) => ReadLoop(conn, userId, inputs[1..], repo)
      case Continue(Some(m)) => [Broadcast(m)] + ReadLoop(conn, userId, inputs[1..], repo)
  }

  /** HandleWebSocket: register first, then the read loop; the deferred
      unregister runs on the only way out of the loop, a failed read. */
  function Session(conn: Conn, userId: UserId, inputs: seq<Inbound>, repo: Repo): (events: seq<Event>)
    ensures |events| > 0 && events[0] == Register(Registration(conn, userId))
    ensures Unregister(conn) in events <==> ReadFailed in inputs
    ensures forall k :: 1 <= k < |events| ==> !events[k].Register?
  {
    var loop := ReadLoop(conn, userId, inputs, repo);
    assert forall k :: 1 <= k < |[Register(Registration(conn, userId))] + loop| ==> ([Register(Registration(conn, userId))] + loop)[k] == loop[k - 1];
    [Register(Registration(conn, userId))] + loop
  }
}
