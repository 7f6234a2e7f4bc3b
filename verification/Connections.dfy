/** The bookkeeping of client connections: the one-shot event loop, the session table, and
    the server's own tables that must agree with them. */
module Connections {
  import opened KeyValue

  type Socket = nat

  datatype SessionKey = SessionKey(ip: nat, port: nat)

  /** What the kernel says about a ready socket, as flags. */
  datatype Ready = Ready(socket: Socket, hangUp: bool, error: bool, input: bool)

  datatype IOEvent = HangUp | Error | Readable | Writable

  /** What the event loop reports about a socket; anything but readable closes it. */
  datatype Event = Event(socket: Socket, event: IOEvent)

  /** A hang-up or an error hides input that came with it. */
  function Classify(r: Ready): (e: Event)
    ensures e.socket == r.socket
    ensures e.event.Readable? <==> r.input && !r.hangUp && !r.error
  {
    Event(r.socket, if r.hangUp then HangUp else if r.error then Error else if r.input then Readable else Writable)
  }

  /** All of them, in the order in which the kernel lists them. */
  function Classified(ready: seq<Ready>): (events: seq<Event>)
    ensures |events| == |ready|
    ensures forall i :: 0 <= i < |ready| ==>
      events[i].socket == ready[i].socket
      && (events[i].event.Readable? <==> ready[i].input && !ready[i].hangUp && !ready[i].error)
  {
    seq(|ready|, i requires 0 <= i < |ready| => Classify(ready[i]))
  }

  /** Everything the server knows about its sockets: registered connections with their
      session keys, watched sockets (true when armed, false when muted after a report), live
      sessions, sockets queued for closing, and jobs handed to the pool. */
  datatype Net = Net(connections: map<Socket, SessionKey>, watch: map<Socket, bool>,
                     sessions: map<SessionKey, Socket>, expired: seq<Socket>, jobs: seq<Socket>)

  // What each operation does to it.

  function Register(n: Net, s: Socket, key: SessionKey): Net {
    n.(connections := n.connections[s := key],
       watch := if s in n.watch then n.watch else n.watch[s := true],
       sessions := if key in n.sessions then n.sessions else n.sessions[key := s])
  }

  /** A client that is turned away after its session was added: whatever session its address
      has goes. */
  function Refuse(n: Net, key: SessionKey): Net {
    n.(sessions := n.sessions - {key})
  }

  function Close(n: Net, s: Socket): Net {
    if s in n.connections
    then n.(watch := n.watch - {s}, sessions := n.sessions - {n.connections[s]},
            connections := n.connections - {s})
    else n.(watch := n.watch - {s})
  }

  function Rearm(n: Net, s: Socket): Net {
    if s in n.watch then n.(watch := n.watch[s := true]) else Close(n, s)
  }

  function Expire(n: Net, key: SessionKey): Net {
    if key in n.sessions
    then n.(expired := n.expired + [n.sessions[key]], sessions := n.sessions - {key})
    else n
  }

  function Dispatch(n: Net, e: Event): Net {
    if !e.event.Readable? then Close(n, e.socket)
    else if e.socket in n.connections then n.(jobs := n.jobs + [e.socket])
    else n
  }

  /** A report mutes the sockets it names. */
  function Mute(watch: map<Socket, bool>, events: seq<Event>): map<Socket, bool> {
    if events == [] then watch
    else Mute(if events[0].socket in watch then watch[events[0].socket := false] else watch, events[1..])
  }

  function CloseAll(n: Net, socks: seq<Socket>): Net
    decreases |socks|
  {
    if socks == [] then n else CloseAll(Close(n, socks[0]), socks[1..])
  }

  function DispatchAll(n: Net, events: seq<Event>): Net
    decreases |events|
  {
    if events == [] then n else DispatchAll(Dispatch(n, events[0]), events[1..])
  }

  function ExpireAll(n: Net, keys: seq<SessionKey>): Net
    decreases |keys|
  {
    if keys == [] then n else ExpireAll(Expire(n, keys[0]), keys[1..])
  }

  lemma {:induction false} ExpireAllAtOnce(n: Net, keys: seq<SessionKey>, socks: seq<Socket>)
    requires |keys| == |socks|
    requires forall i, j :: 0 <= i < j < |keys| ==> keys[i] != keys[j]
    requires forall i :: 0 <= i < |keys| ==> keys[i] in n.sessions && n.sessions[keys[i]] == socks[i]
    ensures ExpireAll(n, keys)
         == n.(expired := n.expired + socks, sessions := map k | k in n.sessions && k !in keys :: n.sessions[k])
    decreases |keys|
  {
    if keys == [] {
      assert n.expired + [] == n.expired;
      assert (map k | k in n.sessions && k !in keys :: n.sessions[k]) == n.sessions;
    } else {
      var m := Expire(n, keys[0]);
      ExpireAllAtOnce(m, keys[1..], socks[1..]);
      assert n.expired + [socks[0]] + socks[1..] == n.expired + socks;
      assert keys == [keys[0]] + keys[1..];
      assert (map k | k in m.sessions && k !in keys[1..] :: m.sessions[k])
          == (map k | k in n.sessions && k !in keys :: n.sessions[k]);
    }
  }

  // The objects.

  class EpollEventLoop {
    var watch: map<Socket, bool>

    constructor ()
      ensures watch == map[]
    {
      watch := map[];
    }

    method Add(s: Socket)
      modifies this
      ensures watch == if s in old(watch) then old(watch) else old(watch)[s := true]
    {
      if s !in watch {
        watch := watch[s := true];
      }
    }

    method Remove(s: Socket)
      modifies this
      ensures watch == old(watch) - {s}
    {
      watch := watch - {s};
    }

    method Rearm(s: Socket) returns (ok: bool)
      modifies this
      ensures ok == (s in old(watch))
      ensures watch == if ok then old(watch)[s := true] else old(watch)
    {
      ok := s in watch;
      if ok {
        watch := watch[s := true];
      }
    }

    /** Passes on what the kernel reports; each reported socket is muted. */
    method Wait(ready: seq<Ready>) returns (out: seq<Event>)
      modifies this
      ensures out == Classified(ready) && watch == Mute(old(watch), out)
    {
      out := [];
      ghost var events := Classified(ready);
      for i := 0 to |ready|
        invariant out == events[..i]
        invariant Mute(watch, events[i..]) == Mute(old(watch), events)
      {
        var ioEvent;
        if ready[i].hangUp {
          ioEvent := HangUp;
        } else if ready[i].error {
          ioEvent := Error;
        } else if ready[i].input {
          ioEvent := Readable;
        } else {
          ioEvent := Writable;
        }
        out := out + [Event(ready[i].socket, ioEvent)];
        if ready[i].socket in watch {
          watch := watch[ready[i].socket := false];
        }
      }
    }
  }

  datatype UserSession = UserSession(socket: Socket, lastActivity: real, maxIdle: real) {
    predicate IsExpired(now: real) {
      now - lastActivity > maxIdle
    }
  }

  function Touch(sessions: map<SessionKey, UserSession>, key: SessionKey, now: real): map<SessionKey, UserSession> {
    if key in sessions then sessions[key := sessions[key].(lastActivity := now)] else sessions
  }

  class UserSessionManager {
    var sessions: map<SessionKey, UserSession>

    function Sockets(): map<SessionKey, Socket>
      reads this
    {
      map k | k in sessions :: sessions[k].socket
    }

    constructor ()
      ensures sessions == map[]
    {
      sessions := map[];
    }

    method AddSession(socket: Socket, key: SessionKey, now: real, maxIdle: real)
      modifies this
      ensures Sockets() == if key in old(sessions) then old(Sockets()) else old(Sockets())[key := socket]
      ensures sessions == if key in old(sessions) then old(sessions)
                          else old(sessions)[key := UserSession(socket, now, maxIdle)]
    {
      if key in sessions {
        return;
      }
      sessions := sessions[key := UserSession(socket, now, maxIdle)];
    }

    /** A session that shows activity is not expired for its idle time from then on. */
    method UpdateActivity(key: SessionKey, now: real)
      modifies this
      ensures sessions == Touch(old(sessions), key, now) && Sockets() == old(Sockets())
      ensures key in sessions ==> forall later ::
        sessions[key].IsExpired(later) <==> later - now > old(sessions)[key].maxIdle
    {
      if key in sessions {
        sessions := sessions[key := sessions[key].(lastActivity := now)];
      }
    }

    method RemoveSession(key: SessionKey)
      modifies this
      ensures sessions == old(sessions) - {key}
      ensures Sockets() == old(Sockets()) - {key}
    {
      sessions := sessions - {key};
    }

    /** Erases exactly the expired sessions and reports the socket of each, once, in the
        order `keys`.  The clock is read once per session. */
    method CleanupExpiredSessions(now: SessionKey -> real) returns (reported: seq<Socket>, ghost keys: seq<SessionKey>)
      modifies this
      ensures sessions == map k | k in old(sessions) && !old(sessions)[k].IsExpired(now(k)) :: old(sessions)[k]
      ensures |reported| == |keys|
      ensures forall i, j :: 0 <= i < j < |keys| ==> keys[i] != keys[j]
      ensures forall k :: k in keys <==> k in old(sessions) && old(sessions)[k].IsExpired(now(k))
      ensures forall i :: 0 <= i < |keys| ==> reported[i] == old(sessions)[keys[i]].socket
    {
      reported, keys := [], [];
      var todo := sessions.Keys;
      while todo != {}
        invariant |reported| == |keys|
        invariant todo <= old(sessions).Keys
        invariant forall k :: k in sessions <==>
          k in old(sessions) && (k in todo || !old(sessions)[k].IsExpired(now(k)))
        invariant forall k :: k in sessions ==> sessions[k] == old(sessions)[k]
        invariant forall i, j :: 0 <= i < j < |keys| ==> keys[i] != keys[j]
        invariant forall k :: k in keys <==> k in old(sessions) && k !in todo && old(sessions)[k].IsExpired(now(k))
        invariant forall i :: 0 <= i < |keys| ==> reported[i] == old(sessions)[keys[i]].socket
        decreases |todo|
      {
        var k :| k in todo;
        if sessions[k].IsExpired(now(k)) {
          reported := reported + [sessions[k].socket];
          keys := keys + [k];
          sessions := sessions - {k};
        }
        todo := todo - {k};
      }
    }
  }

  class ConnectionServer {
    const eventLoop: EpollEventLoop
    const userSessionManager: UserSessionManager
    var connections: map<Socket, SessionKey>
    var expiredSockets: seq<Socket>
    var jobs: seq<Socket>   // what was handed to the thread pool and not yet taken

    function View(): Net
      reads this, eventLoop, userSessionManager
    {
      Net(connections, eventLoop.watch, userSessionManager.Sockets(), expiredSockets, jobs)
    }

    constructor ()
      ensures View() == Net(map[], map[], map[], [], [])
      ensures fresh(eventLoop) && fresh(userSessionManager)
    {
      eventLoop := new EpollEventLoop();
      userSessionManager := new UserSessionManager();
      connections, expiredSockets, jobs := map[], [], [];
    }

    /** The registration part of the accept loop; `nonBlocking` says whether the socket could
        be made so. */
    method RegisterClient(s: Socket, key: SessionKey, now: real, nonBlocking: bool)
      modifies this, eventLoop, userSessionManager
      ensures View() == if nonBlocking then Register(old(View()), s, key) else Refuse(old(View()), key)
      ensures nonBlocking && key !in old(userSessionManager.sessions) ==>
        && key in userSessionManager.sessions && userSessionManager.sessions[key].socket == s
        && forall later :: userSessionManager.sessions[key].IsExpired(later) <==> later - now > 240.0
      ensures nonBlocking && key in old(userSessionManager.sessions) ==>
        userSessionManager.sessions == old(userSessionManager.sessions)
      ensures nonBlocking ==> userSessionManager.sessions - {key} == old(userSessionManager.sessions) - {key}
      ensures !nonBlocking ==> userSessionManager.sessions == old(userSessionManager.sessions) - {key}
    {
      ghost var before := userSessionManager.Sockets();
      userSessionManager.AddSession(s, key, now, 240.0);
      if !nonBlocking {
        userSessionManager.RemoveSession(key);
        assert userSessionManager.Sockets() == before - {key};
        return;
      }
      connections := connections[s := key];
      eventLoop.Add(s);
    }

    method CloseConnection(s: Socket)
      modifies this, eventLoop, userSessionManager
      ensures View() == Close(old(View()), s)
      ensures userSessionManager.sessions == old(userSessionManager.sessions) -
        (if s in old(connections) then {old(connections)[s]} else {})
    {
      eventLoop.Remove(s);
      if s in connections {
        userSessionManager.RemoveSession(connections[s]);
        connections := connections - {s};
      }
    }

    method RearmSocket(s: Socket)
      modifies this, eventLoop, userSessionManager
      ensures View() == Rearm(old(View()), s)
      ensures s in old(eventLoop.watch) ==> eventLoop.watch == old(eventLoop.watch)[s := true] && connections == old(connections)
      ensures s !in old(eventLoop.watch) ==> eventLoop.watch == old(eventLoop.watch) && connections == old(connections) - {s}
      ensures userSessionManager.sessions == old(userSessionManager.sessions) -
        (if s !in old(eventLoop.watch) && s in old(connections) then {old(connections)[s]} else {})
    {
      var ok := eventLoop.Rearm(s);
      if !ok {
        assert eventLoop.watch - {s} == eventLoop.watch;
        CloseConnection(s);
        assert connections == old(connections) - {s};
      }
    }

    method OnSessionExpired(s: Socket)
      modifies this`expiredSockets
      ensures expiredSockets == old(expiredSockets) + [s]
      ensures View() == old(View()).(expired := old(View()).expired + [s])
    {
      expiredSockets := expiredSockets + [s];
    }

    method ReportAll(reported: seq<Socket>)
      modifies this`expiredSockets
      ensures expiredSockets == old(expiredSockets) + reported
    {
      for i := 0 to |reported|
        invariant expiredSockets == old(expiredSockets) + reported[..i]
      {
        OnSessionExpired(reported[i]);
      }
      assert reported[..|reported|] == reported;
    }

    /** The background sweep: every expired session is reported and erased. */
    method SweepSessions(now: SessionKey -> real) returns (ghost keys: seq<SessionKey>, ghost reported: seq<Socket>)
      modifies this, userSessionManager
      ensures forall k :: k in keys <==>
        k in old(userSessionManager.sessions) && old(userSessionManager.sessions)[k].IsExpired(now(k))
      ensures |reported| == |keys|
      ensures forall i :: 0 <= i < |keys| ==> reported[i] == old(userSessionManager.sessions)[keys[i]].socket
      ensures expiredSockets == old(expiredSockets) + reported
      ensures userSessionManager.sessions == map k |
        k in old(userSessionManager.sessions) && !old(userSessionManager.sessions)[k].IsExpired(now(k))
        :: old(userSessionManager.sessions)[k]
      ensures View() == ExpireAll(old(View()), keys)
    {
      ghost var before := View();
      var found;
      found, keys := userSessionManager.CleanupExpiredSessions(now);
      reported := found;
      ghost var swept := View();
      assert swept.sessions == map k | k in before.sessions && k !in keys :: before.sessions[k];
      ReportAll(found);
      ExpireAllAtOnce(before, keys, found);
      assert View() == swept.(expired := before.expired + found);
    }

    /** First half of a turn of the event loop: close everything queued as expired. */
    method CloseExpired()
      modifies this, eventLoop, userSessionManager
      ensures View() == CloseAll(old(View()).(expired := []), old(View()).expired)
    {
      var toClose := expiredSockets;
      expiredSockets := [];
      ghost var target := CloseAll(View(), toClose);
      for i := 0 to |toClose|
        invariant CloseAll(View(), toClose[i..]) == target
      {
        CloseConnection(toClose[i]);
      }
    }

    /** Second half: wait, then hand readable sockets to the pool and close the others. */
    method DispatchReady(ready: seq<Ready>)
      modifies this, eventLoop, userSessionManager
      ensures var events := Classified(ready);
              View() == DispatchAll(old(View()).(watch := Mute(old(View()).watch, events)), events)
    {
      var events := eventLoop.Wait(ready);
      ghost var target := DispatchAll(View(), events);
      for i := 0 to |events|
        invariant DispatchAll(View(), events[i..]) == target
      {
        if events[i].event == Readable {
          if events[i].socket in connections {
            jobs := jobs + [events[i].socket];
          }
        } else {
          CloseConnection(events[i].socket);
        }
      }
    }
  }

  /** A sweep that reads the clock within 240 seconds of a client's registration neither
      reports the client's socket nor erases its session. */
  method SweepSparesNewClient(server: ConnectionServer, s: Socket, key: SessionKey, now: real, clock: SessionKey -> real)
    requires key !in server.userSessionManager.sessions && s !in server.expiredSockets
    requires forall k :: k in server.userSessionManager.sessions ==> server.userSessionManager.sessions[k].socket != s
    requires clock(key) - now <= 240.0
    modifies server, server.eventLoop, server.userSessionManager
    ensures s !in server.expiredSockets
    ensures key in server.userSessionManager.sessions && server.userSessionManager.sessions[key].socket == s
  {
    server.RegisterClient(s, key, now, true);
    ghost var sessions := server.userSessionManager.sessions;
    forall k | k in sessions && k != key ensures sessions[k].socket != s {
      assert k in sessions - {key} && (sessions - {key})[k] == sessions[k];
    }
    ghost var keys, reported := server.SweepSessions(clock);
    forall i | 0 <= i < |reported| ensures reported[i] != s {
      assert keys[i] in keys && keys[i] != key;
    }
  }
}
