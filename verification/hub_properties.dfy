/** Properties of the chat hub that relate several steps, or that read the
    effect lists of one step in detail. */
module HubProperties {
  import opened Base
  import opened Hub

  // ---------------------------------------------------------------------
  // Helpers for reading effect lists

  /** The effects other than stored status changes. */
  function WithoutStatus(effects: seq<Effect>): seq<Effect> {
    if effects == [] then []
    else (if effects[0].StatusStored? then [] else [effects[0]]) + WithoutStatus(effects[1..])
  }

  lemma {:induction false} WithoutStatusConcat(a: seq<Effect>, b: seq<Effect>)
    ensures WithoutStatus(a + b) == WithoutStatus(a) + WithoutStatus(b)
    decreases |a|
  {
    if a != [] {
      assert (a + b)[1..] == a[1..] + b;
      WithoutStatusConcat(a[1..], b);
    } else {
      assert a + b == b;
    }
  }

  lemma StoreStatusReads(repo: Repo, id: UserId, status: Status)
    ensures Recipients(StoreStatus(repo, id, status)) == []
    ensures Unregisters(StoreStatus(repo, id, status)) == []
    ensures Broadcasts(StoreStatus(repo, id, status)) == []
    ensures WithoutStatus(StoreStatus(repo, id, status)) == []
    ensures StatusStored(id, status) in StoreStatus(repo, id, status) <==> id !in repo.statusFails
    ensures forall e :: e in StoreStatus(repo, id, status) ==> e.StatusStored?
  {
  }

  lemma AnnounceReads(m: ChatMessage)
    ensures Recipients([EnqueueBroadcast(m)]) == []
    ensures Unregisters([EnqueueBroadcast(m)]) == []
    ensures Broadcasts([EnqueueBroadcast(m)]) == [m]
  {
  }

  // ---------------------------------------------------------------------
  // registerClient

  /** A successful registration announces exactly one user_joined carrying
      the looked-up id and name, marks the user online unless the store
      refuses, writes exactly once, to the new connection, the online list
      (which contains the new user), and hands the connection back only if
      that write fails. */
  lemma RegisterSuccess(clients: Registry, reg: Registration, env: Env)
    requires reg.userId in env.repo.users
    requires Enumerates(env.order, clients.Keys + {reg.conn})
    ensures var r := RegisterClient(clients, reg, env);
      var name := env.repo.users[reg.userId];
      && Broadcasts(r.effects) == [ChatMessage(UserJoined, reg.userId, name, JoinedContent)]
      && Recipients(r.effects) == [reg.conn]
      && (forall e :: e in r.effects && e.Send? ==>
            e.payload == OnlineUsers(OnlineSnapshot(r.clients, env.order, env.repo.users)))
      && OnlineUser(reg.userId, name) in OnlineSnapshot(r.clients, env.order, env.repo.users)
      && Unregisters(r.effects) == (if reg.conn in env.failing then [reg.conn] else [])
      && (StatusStored(reg.userId, Online) in r.effects <==> reg.userId !in env.repo.statusFails)
  {
    var r := RegisterClient(clients, reg, env);
    var joined := ChatMessage(UserJoined, reg.userId, env.repo.users[reg.userId], JoinedContent);
    var payload := OnlineUsers(OnlineSnapshot(r.clients, env.order, env.repo.users));
    RegisterUnfolds(clients, reg, env);
    RegisterEffectsRead(env.repo, reg.userId, joined, reg.conn, payload, env.failing);
    NewcomerListed(clients, reg.conn, reg.userId, env.order, env.repo.users);
  }

  /** What a successful registration builds: the updated registry, then the
      status write, the announcement and the write of the online list. */
  lemma RegisterUnfolds(clients: Registry, reg: Registration, env: Env)
    requires reg.userId in env.repo.users
    requires Enumerates(env.order, clients.Keys + {reg.conn})
    ensures var r := RegisterClient(clients, reg, env);
      && r.clients == clients[reg.conn := reg.userId]
      && r.effects ==
           StoreStatus(env.repo, reg.userId, Online)
           + [EnqueueBroadcast(ChatMessage(UserJoined, reg.userId, env.repo.users[reg.userId], JoinedContent))]
           + Write(reg.conn, OnlineUsers(OnlineSnapshot(r.clients, env.order, env.repo.users)), env.failing)
  {
  }

  /** Reading the effect list of a successful registration. */
  lemma RegisterEffectsRead(repo: Repo, id: UserId, joined: ChatMessage, conn: Conn, payload: Payload, failing: set<Conn>)
    ensures var effects := StoreStatus(repo, id, Online) + [EnqueueBroadcast(joined)] + Write(conn, payload, failing);
      && Broadcasts(effects) == [joined]
      && Recipients(effects) == [conn]
      && (forall e :: e in effects && e.Send? ==> e.payload == payload)
      && Unregisters(effects) == (if conn in failing then [conn] else [])
      && (StatusStored(id, Online) in effects <==> id !in repo.statusFails)
  {
    var status := StoreStatus(repo, id, Online);
    var write := Write(conn, payload, failing);
    var effects := status + [EnqueueBroadcast(joined)] + write;
    StoreStatusReads(repo, id, Online);
    WriteReads(conn, payload, failing);
    AnnouncedThenWritten(status, joined, write);
    forall e | e in effects && e.Send? ensures e.payload == payload {
      assert e in status + [EnqueueBroadcast(joined)] || e in write;
    }
    assert StatusStored(id, Online) in effects <==> StatusStored(id, Online) in status by {
      assert StatusStored(id, Online) !in [EnqueueBroadcast(joined)];
      assert StatusStored(id, Online) !in write;
    }
  }

  /** The user of a newly registered connection is on the online list
      built right after, when their lookup succeeds. */
  lemma NewcomerListed(clients: Registry, conn: Conn, id: UserId, order: seq<Conn>, known: map<UserId, string>)
    requires id in known
    requires Enumerates(order, clients.Keys + {conn})
    ensures Enumerates(order, clients[conn := id].Keys)
    ensures OnlineUser(id, known[id]) in OnlineSnapshot(clients[conn := id], order, known)
  {
    var clients' := clients[conn := id];
    assert clients'.Keys == clients.Keys + {conn};
    assert id in clients'.Values by {
      assert clients'[conn] == id;
    }
  }

  /** Reading an effect list made of status writes, one announcement and
      the effects of a write. */
  lemma AnnouncedThenWritten(status: seq<Effect>, m: ChatMessage, write: seq<Effect>)
    requires Recipients(status) == [] && Unregisters(status) == [] && Broadcasts(status) == []
    ensures var effects := status + [EnqueueBroadcast(m)] + write;
      && Recipients(effects) == Recipients(write)
      && Unregisters(effects) == Unregisters(write)
      && Broadcasts(effects) == [m] + Broadcasts(write)
  {
    AnnounceReads(m);
    RecipientsConcat(status, [EnqueueBroadcast(m)]);
    RecipientsConcat(status + [EnqueueBroadcast(m)], write);
    UnregistersConcat(status, [EnqueueBroadcast(m)]);
    UnregistersConcat(status + [EnqueueBroadcast(m)], write);
    BroadcastsConcat(status, [EnqueueBroadcast(m)]);
    BroadcastsConcat(status + [EnqueueBroadcast(m)], write);
  }

  /** A failing UpdateUserStatus does not abort the registration: the
      registry and every effect other than the stored status are the same
      whichever users the store refuses to update. */
  lemma {:induction false} RegisterIgnoresStatusFailure(clients: Registry, reg: Registration, env: Env, refused: set<UserId>)
    requires OrderFits(clients, Register(reg), env)
    ensures var env' := env.(repo := env.repo.(statusFails := refused));
      && RegisterClient(clients, reg, env').clients == RegisterClient(clients, reg, env).clients
      && WithoutStatus(RegisterClient(clients, reg, env').effects) == WithoutStatus(RegisterClient(clients, reg, env).effects)
  {
    var env' := env.(repo := env.repo.(statusFails := refused));
    if reg.userId in env.repo.users {
      var r := RegisterClient(clients, reg, env);
      var r' := RegisterClient(clients, reg, env');
      var user := User(reg.userId, env.repo.users[reg.userId]);
      var rest := [EnqueueBroadcast(ChatMessage(UserJoined, user.id, user.username, JoinedContent))]
        + Write(reg.conn, OnlineUsers(OnlineSnapshot(r.clients, env.order, env.repo.users)), env.failing);
      assert OnlineSnapshot(r.clients, env.order, env.repo.users) == OnlineSnapshot(r'.clients, env'.order, env'.repo.users) by {
        assert env'.repo.users == env.repo.users;
      }
      assert r.effects == StoreStatus(env.repo, user.id, Online) + rest;
      assert r'.effects == StoreStatus(env'.repo, user.id, Online) + rest;
      WithoutStatusConcat(StoreStatus(env.repo, user.id, Online), rest);
      WithoutStatusConcat(StoreStatus(env'.repo, user.id, Online), rest);
      StoreStatusReads(env.repo, user.id, Online);
      StoreStatusReads(env'.repo, user.id, Online);
    }
  }

  /** The user_joined that a registration queues reaches the new
      connection itself when it is broadcast, whatever ran in between, as
      long as the connection is still registered then. (A failed
      online-list write queues its unregister, which the select may take
      first; then the newcomer misses its own announcement.) */
  lemma JoinedReachesNewcomer(clients: Registry, reg: Registration, env: Env, later: Registry, lenv: Env)
    requires reg.userId in env.repo.users
    requires Enumerates(env.order, clients.Keys + {reg.conn})
    requires reg.conn in later && Enumerates(lenv.order, later.Keys)
    ensures var r := RegisterClient(clients, reg, env);
      && |Broadcasts(r.effects)| == 1
      && reg.conn in Recipients(BroadcastMessage(later, Broadcasts(r.effects)[0], lenv).effects)
  {
    RegisterSuccess(clients, reg, env);
  }

  /** At the coordinator level: a successful registration leaves the new
      connection registered, has already written the online list to it, and
      has put user_joined at the back of the broadcast channel, so that
      list reaches the newcomer before the announcement is fanned out. */
  lemma RegisterStep(s: HubState, env: Env)
    requires s.registerQ != []
    requires s.registerQ[0].userId in env.repo.users
    requires Enumerates(env.order, s.clients.Keys + {s.registerQ[0].conn})
    ensures var reg := s.registerQ[0];
      var r := RunStep(s, RegisterIntake, env);
      && reg.conn in r.state.clients
      && Recipients(r.effects) == [reg.conn]
      && r.state.broadcastQ == s.broadcastQ + [ChatMessage(UserJoined, reg.userId, env.repo.users[reg.userId], JoinedContent)]
  {
    RegisterSuccess(s.clients, s.registerQ[0], env);
  }

  /** Every step of `envs` may take a broadcast from the channel. */
  ghost predicate BroadcastRunnable(s: HubState, envs: seq<Env>)
    decreases |envs|
  {
    envs == [] ||
    (CanStep(s, BroadcastIntake, envs[0]) && BroadcastRunnable(RunStep(s, BroadcastIntake, envs[0]).state, envs[1..]))
  }

  /** The state after taking one broadcast per environment of `envs`. */
  ghost function AfterBroadcasts(s: HubState, envs: seq<Env>): HubState
    requires BroadcastRunnable(s, envs)
    decreases |envs|
  {
    if envs == [] then s else AfterBroadcasts(RunStep(s, BroadcastIntake, envs[0]).state, envs[1..])
  }

  /** Fanning a message out never feeds the broadcast channel, so a run of
      broadcast steps takes exactly the messages that were waiting, oldest
      first, and leaves the registry and the pending registrations as they
      were. */
  lemma {:induction false} BroadcastsDrainInOrder(s: HubState, envs: seq<Env>)
    requires BroadcastRunnable(s, envs)
    ensures |envs| <= |s.broadcastQ|
    ensures AfterBroadcasts(s, envs).broadcastQ == s.broadcastQ[|envs|..]
    ensures AfterBroadcasts(s, envs).clients == s.clients
    ensures AfterBroadcasts(s, envs).registerQ == s.registerQ
    decreases |envs|
  {
    if envs != [] {
      var next := RunStep(s, BroadcastIntake, envs[0]).state;
      assert next.broadcastQ == s.broadcastQ[1..];
      BroadcastsDrainInOrder(next, envs[1..]);
      assert s.broadcastQ[1..][|envs| - 1..] == s.broadcastQ[|envs|..];
    }
  }

  // ---------------------------------------------------------------------
  // unregisterClient

  /** Unregistering a registered connection writes nothing and hands
      nothing back; it announces user_left with the looked-up name and marks
      the user offline (unless the store refuses), but when the lookup fails
      it does nothing beyond the removal. */
  lemma UnregisterPresent(clients: Registry, conn: Conn, repo: Repo)
    requires conn in clients
    ensures var r := UnregisterClient(clients, conn, repo);
      var id := clients[conn];
      && Recipients(r.effects) == []
      && Unregisters(r.effects) == []
      && (id !in repo.users ==> r.effects == [])
      && (id in repo.users ==>
            && Broadcasts(r.effects) == [ChatMessage(UserLeft, id, repo.users[id], LeftContent)]
            && (StatusStored(id, Offline) in r.effects <==> id !in repo.statusFails))
  {
    var id := clients[conn];
    if id in repo.users {
      var left := ChatMessage(UserLeft, id, repo.users[id], LeftContent);
      StoreStatusReads(repo, id, Offline);
      AnnounceReads(left);
      RecipientsConcat(StoreStatus(repo, id, Offline), [EnqueueBroadcast(left)]);
      UnregistersConcat(StoreStatus(repo, id, Offline), [EnqueueBroadcast(left)]);
      BroadcastsConcat(StoreStatus(repo, id, Offline), [EnqueueBroadcast(left)]);
    }
  }

  /** Unregistering twice is unregistering once: the second time is a
      no-op with no effects, whatever the store answers. */
  lemma UnregisterIdempotent(clients: Registry, conn: Conn, repo: Repo, repo': Repo)
    ensures var once := UnregisterClient(clients, conn, repo);
      UnregisterClient(once.clients, conn, repo') == Outcome(once.clients, [])
  {
  }

  // ---------------------------------------------------------------------
  // No stale broadcast target

  /** A connection outside the registry stays outside and is written to by
      no step except its own registration. */
  lemma OutsiderUntouched(clients: Registry, event: Event, env: Env, conn: Conn)
    requires conn !in clients
    requires !(event.Register? && event.registration.conn == conn)
    requires OrderFits(clients, event, env)
    ensures var r := Process(clients, event, env);
      conn !in r.clients && conn !in Recipients(r.effects)
  {
    match event
    case Register(reg) =>
      if reg.userId in env.repo.users {
        RegisterSuccess(clients, reg, env);
      }
    case Unregister(c) =>
      if c in clients {
        UnregisterPresent(clients, c, env.repo);
      }
    case Broadcast(m) =>
  }

  /** Processing events one after another. */
  ghost predicate Runnable(clients: Registry, events: seq<Event>, envs: seq<Env>)
    decreases |events|
  {
    && |events| == |envs|
    && (events != [] ==>
          && OrderFits(clients, events[0], envs[0])
          && Runnable(Process(clients, events[0], envs[0]).clients, events[1..], envs[1..]))
  }

  function ProcessAll(clients: Registry, events: seq<Event>, envs: seq<Env>): Outcome
    requires Runnable(clients, events, envs)
    decreases |events|
  {
    if events == [] then Outcome(clients, [])
    else
      var first := Process(clients, events[0], envs[0]);
      var rest := ProcessAll(first.clients, events[1..], envs[1..]);
      Outcome(rest.clients, first.effects + rest.effects)
  }

  /** Once a connection is out of the registry (which UnregisterClient
      guarantees), no later step's fan-out targets it and it does not come
      back, until a registration of that connection. */
  lemma {:induction false} NoStaleTarget(clients: Registry, conn: Conn, events: seq<Event>, envs: seq<Env>)
    requires conn !in clients
    requires forall k :: 0 <= k < |events| ==> !(events[k].Register? && events[k].registration.conn == conn)
    requires Runnable(clients, events, envs)
    ensures conn !in ProcessAll(clients, events, envs).clients
    ensures conn !in Recipients(ProcessAll(clients, events, envs).effects)
    decreases |events|
  {
    if events != [] {
      var first := Process(clients, events[0], envs[0]);
      OutsiderUntouched(clients, events[0], envs[0], conn);
      NoStaleTarget(first.clients, conn, events[1..], envs[1..]);
      RecipientsConcat(first.effects, ProcessAll(first.clients, events[1..], envs[1..]).effects);
    }
  }

  // ---------------------------------------------------------------------
  // The select over three channels

  /** The select may take a session's unregister before its register (the
      two wait on different channels): the unregister is then a no-op and
      the closed connection is registered afterwards. It leaves again only
      through the unregister that the failed online-list write queues. */
  lemma SelectMayRegisterClosedConnection()
    ensures var users := map[7 := "alice"];
      var env := Env(Repo(users, {}), {1}, [1]);
      var s := HubState(map[], [Registration(1, 7)], [1], []);
      var first := RunStep(s, UnregisterIntake, env);
      var second := RunStep(first.state, RegisterIntake, env);
      && first.state.clients == map[]
      && second.state.clients == map[1 := 7]
      && second.state.unregisterQ == [1]
  {
    var env := Env(Repo(map[7 := "alice"], {}), {1}, [1]);
    UnregisterTakenFirst(env);
    ClosedConnectionRegistered(env);
  }

  /** The unregister taken first finds nothing to remove. */
  lemma UnregisterTakenFirst(env: Env)
    ensures var s := HubState(map[], [Registration(1, 7)], [1], []);
      RunStep(s, UnregisterIntake, env).state == HubState(map[], [Registration(1, 7)], [], [])
  {
    var empty: Registry := map[];
    var s := HubState(empty, [Registration(1, 7)], [1], []);
    var first := RunStep(s, UnregisterIntake, env);
    assert UnregisterClient(empty, 1, env.repo) == Outcome(empty, []);
    assert first.effects == [];
  }

  /** The registration taken next registers the closed connection, whose
      online-list write fails and queues its unregister again. */
  lemma ClosedConnectionRegistered(env: Env)
    requires env == Env(Repo(map[7 := "alice"], {}), {1}, [1])
    ensures var second := RunStep(HubState(map[], [Registration(1, 7)], [], []), RegisterIntake, env);
      && second.state.clients == map[1 := 7]
      && second.state.unregisterQ == [1]
  {
    var empty: Registry := map[];
    var second := RunStep(HubState(empty, [Registration(1, 7)], [], []), RegisterIntake, env);
    var r := RegisterClient(empty, Registration(1, 7), env);
    assert empty.Keys + {1} == {1};
    RegisterSuccess(empty, Registration(1, 7), env);
    assert second.state.clients == r.clients && second.effects == r.effects;
    assert Unregisters(second.effects) == [1];
  }

  // ---------------------------------------------------------------------
  // The session loop

  /** The messages among the events a session hands to the hub. */
  function Messages(events: seq<Event>): seq<ChatMessage> {
    if events == [] then []
    else (if events[0].Broadcast? then [events[0].message] else []) + Messages(events[1..])
  }

  /** The contents of the decodable text frames read before the first
      failed read. */
  function TextContents(inputs: seq<Inbound>): seq<string> {
    if inputs == [] || inputs[0].ReadFailed? then []
    else if inputs[0].frameType == TextMessage && inputs[0].body.Decoded? then [inputs[0].body.content] + TextContents(inputs[1..])
    else TextContents(inputs[1..])
  }

  /** Chat messages from one user with the given contents. */
  function MessagesFrom(userId: UserId, username: string, contents: seq<string>): seq<ChatMessage> {
    if contents == [] then []
    else [ChatMessage(Message, userId, username, contents[0])] + MessagesFrom(userId, username, contents[1..])
  }

  /** Every decodable text frame read before the connection failed becomes
      exactly one message, in order, carrying the session's user id and
      looked-up name; binary and malformed frames produce nothing, and so
      does everything when the lookup fails. */
  lemma {:induction false} SessionBroadcastsTextFrames(conn: Conn, userId: UserId, inputs: seq<Inbound>, repo: Repo)
    ensures userId in repo.users ==>
      Messages(ReadLoop(conn, userId, inputs, repo)) == MessagesFrom(userId, repo.users[userId], TextContents(inputs))
    ensures userId !in repo.users ==> Messages(ReadLoop(conn, userId, inputs, repo)) == []
    decreases |inputs|
  {
    if inputs != [] && !inputs[0].ReadFailed? {
      SessionBroadcastsTextFrames(conn, userId, inputs[1..], repo);
      var rest := ReadLoop(conn, userId, inputs[1..], repo);
      match HandleFrame(userId, inputs[0], repo)
      case Continue(None) =>
      case Continue(Some(m)) =>
        assert ([Broadcast(m)] + rest)[1..] == rest;
    } else if inputs != [] {
      assert ReadLoop(conn, userId, inputs, repo) == [Unregister(conn)];
      assert Messages([Unregister(conn)]) == [] + Messages([]);
    }
  }

  // ---------------------------------------------------------------------
  // Scenarios

  /** Alice (user 7) joins an empty hub on connection 1: she is sent the
      online list holding exactly herself. */
  lemma AliceJoinsAlone()
    ensures var env := Env(Repo(map[7 := "alice"], {}), {}, [1]);
      var r := RegisterClient(map[], Registration(1, 7), env);
      && r.clients == map[1 := 7]
      && Recipients(r.effects) == [1]
      && (forall e :: e in r.effects && e.Send? ==> e.payload == OnlineUsers([OnlineUser(7, "alice")]))
  {
    var env := Env(Repo(map[7 := "alice"], {}), {}, [1]);
    var empty: Registry := map[];
    assert empty.Keys + {1} == {1};
    RegisterSuccess(empty, Registration(1, 7), env);
    var one: Registry := map[1 := 7];
    var snap := OnlineSnapshot(map[1 := 7], [1], env.repo.users);
    assert OnlineUser(7, "alice") in snap;
    assert |snap| == 1 by {
      assert |snap| <= |one|;
      assert one.Keys == {1};
    }
    assert snap == [OnlineUser(7, "alice")];
  }

  /** With Alice on connection 1 and Bob on connection 2, a failing write
      to Bob leaves Alice's delivery alone: both are written to once, and
      only Bob is handed back for unregistering. */
  lemma IsolatedSendFailure(m: ChatMessage)
    ensures var clients: Registry := map[1 := 7, 2 := 9];
      var r := BroadcastMessage(clients, m, Env(Repo(map[], {}), {2}, [2, 1]));
      && Recipients(r.effects) == [2, 1]
      && (forall c :: c in Unregisters(r.effects) <==> c == 2)
  {
    var clients: Registry := map[1 := 7, 2 := 9];
    assert clients.Keys == {1, 2};
    assert Enumerates([2, 1], clients.Keys);
  }
}
