/** The session table and the connection table, however idle expiry, hang-ups, handlers and new
    clients interleave: which steps keep them in agreement, and which break it. */
module SessionAgreement {
  import opened KeyValue
  import opened Protocol
  import opened Connections
  import opened Dispatching

  predicate HasSession(n: Net, s: Socket) {
    s in n.connections && n.connections[s] in n.sessions && n.sessions[n.connections[s]] == s
  }

  predicate ToBeClosed(n: Net, closing: seq<Socket>, s: Socket) {
    s in n.expired || s in closing
  }

  /** Every session belongs to a registered connection that carries its key and is not queued
      for closing; every connection without its session is. */
  ghost predicate Agree(n: Net, closing: seq<Socket>) {
    && (forall k :: k in n.sessions ==>
          && n.sessions[k] in n.connections && n.connections[n.sessions[k]] == k
          && !ToBeClosed(n, closing, n.sessions[k]))
    && (forall s :: s in n.connections ==> HasSession(n, s) || ToBeClosed(n, closing, s))
  }

  /** A registered connection that no session and no pending close refers to: no sweep will
      ever find it. */
  predicate Orphaned(n: Net, closing: seq<Socket>, s: Socket) {
    && s in n.connections && !ToBeClosed(n, closing, s)
    && forall k :: k in n.sessions ==> n.sessions[k] != s
  }

  // The three operations that can break the agreement, and exactly when they do.

  /** Registering a new socket: exactly when its address has a session already. */
  lemma RegisterAgreesIff(n: Net, closing: seq<Socket>, s: Socket, key: SessionKey)
    requires Agree(n, closing) && s !in n.connections && !ToBeClosed(n, closing, s)
    ensures Agree(Register(n, s, key), closing) <==> key !in n.sessions
  {
    var m := Register(n, s, key);
    if key in n.sessions {
      assert !HasSession(m, s);
    } else {
      assert HasSession(m, s);
      forall r | r in m.connections && r != s ensures HasSession(m, r) || ToBeClosed(m, closing, r) {
        assert HasSession(n, r) || ToBeClosed(n, closing, r);
      }
    }
  }

  /** The address of the client turned away is somebody else's by now. */
  lemma RefuseTakesTheOtherSession(n: Net, closing: seq<Socket>, key: SessionKey)
    requires Agree(n, closing) && key in n.sessions
    ensures Orphaned(Refuse(n, key), closing, n.sessions[key])
  {
  }

  /** Turning a client away: exactly when its address has a session. */
  lemma RefuseAgreesIff(n: Net, closing: seq<Socket>, key: SessionKey)
    requires Agree(n, closing)
    ensures Agree(Refuse(n, key), closing) <==> key !in n.sessions
  {
    var m := Refuse(n, key);
    if key in n.sessions {
      RefuseTakesTheOtherSession(n, closing, key);
      assert !HasSession(m, n.sessions[key]);
    } else {
      assert m.sessions == n.sessions;
    }
  }

  /** The session under the connection's key is absent or its own. */
  predicate OwnSession(n: Net, r: Socket) {
    r in n.connections && n.connections[r] in n.sessions ==> n.sessions[n.connections[r]] == r
  }

  /** Closing a socket takes the session of whoever has its key by then, and nothing will
      close that connection. */
  lemma CloseTakesTheOtherSession(n: Net, closing: seq<Socket>, r: Socket)
    requires Agree(n, closing) && !OwnSession(n, r)
    ensures Orphaned(Close(n, r), closing, n.sessions[n.connections[r]])
  {
  }

  lemma OwnCloseAgrees(n: Net, closing: seq<Socket>, left: seq<Socket>, r: Socket)
    requires Agree(n, closing) && OwnSession(n, r)
    requires forall x :: x in left ==> x in closing
    requires forall x :: x in closing && x != r ==> x in left
    ensures Agree(Close(n, r), left)
  {
    var m := Close(n, r);
    forall x | x in m.connections ensures HasSession(m, x) || ToBeClosed(m, left, x) {
      assert HasSession(n, x) || ToBeClosed(n, closing, x);
    }
  }

  /** Closing: exactly when the session under the connection's key, if any, is its own. (The
      socket being closed may leave the queue with it.) */
  lemma CloseAgreesIff(n: Net, closing: seq<Socket>, left: seq<Socket>, r: Socket)
    requires Agree(n, closing)
    requires forall x :: x in left ==> x in closing
    requires forall x :: x in closing && x != r ==> x in left
    ensures Agree(Close(n, r), left) <==> OwnSession(n, r)
  {
    if OwnSession(n, r) {
      OwnCloseAgrees(n, closing, left, r);
    } else {
      CloseTakesTheOtherSession(n, closing, r);
      assert !HasSession(Close(n, r), n.sessions[n.connections[r]]);
    }
  }

  /** Closing twice is closing once. */
  lemma CloseTwice(n: Net, s: Socket)
    ensures Close(Close(n, s), s) == Close(n, s)
  {
    assert n.watch - {s} - {s} == n.watch - {s};
  }

  lemma ExpireKeepsAgreement(n: Net, closing: seq<Socket>, key: SessionKey)
    requires Agree(n, closing)
    ensures Agree(Expire(n, key), closing)
  {
    var m := Expire(n, key);
    forall x | x in m.connections ensures HasSession(m, x) || ToBeClosed(m, closing, x) {
      assert HasSession(n, x) || ToBeClosed(n, closing, x);
    }
  }

  // Steps.

  /** The socket a step closes, if it does. */
  function Closes(st: State, a: Action): Option<Socket>
    requires Enabled(st, a)
  {
    match a
    case CloseNext => Some(st.closing[0])
    case DispatchNext => if st.batch[0].event.Readable? then None else Some(st.batch[0].socket)
    case RecvEnd(w) => Some(st.running[w].socket)
    case Judge(w) =>
      if |StreamOf(st, w).buffer| > MAX_COMMAND_BUFFER_LENGTH then Some(st.running[w].socket) else None
    case _ => None
  }

  /** A client comes from an address without a session; a socket is closed while the session
      under its key is absent or its own. */
  predicate Careful(st: State, a: Action)
    requires Enabled(st, a)
  {
    match a
    case NewClient(_, key) => key !in st.net.sessions
    case RefuseClient(key) => key !in st.net.sessions
    case _ => Closes(st, a).Some? ==> OwnSession(st.net, Closes(st, a).value)
  }

  /** Sockets queued for closing have been registered at some time. */
  ghost predicate QueuedKnown(st: State) {
    forall s :: ToBeClosed(st.net, st.closing, s) ==> s in st.streams
  }

  ghost predicate Agreed(st: State) {
    Agree(st.net, st.closing) && QueuedKnown(st)
  }

  lemma StepKeepsQueuedKnown(st: State, a: Action)
    requires Agreed(st) && Placed(st) && Enabled(st, a)
    ensures QueuedKnown(Next(st, a))
  {
  }

  lemma RearmChangesNoTable(st: State, s: Socket)
    requires Placed(st)
    ensures var n := Rearm(st.net, s);
            n.connections == st.net.connections && n.sessions == st.net.sessions && n.expired == st.net.expired
  {
  }

  lemma ClosingStepAgreesIff(st: State, a: Action)
    requires Agreed(st) && Placed(st) && Enabled(st, a) && Closes(st, a).Some?
    ensures Agree(Next(st, a).net, Next(st, a).closing) <==> Careful(st, a)
  {
    var r, left := Closes(st, a).value, Next(st, a).closing;
    if a.CloseNext? {
      assert st.closing == [st.closing[0]] + left;
    }
    CloseAgreesIff(st.net, st.closing, left, r);
  }

  lemma QuietStepAgrees(st: State, a: Action)
    requires Agreed(st) && Placed(st) && Enabled(st, a) && Closes(st, a).None?
    requires !a.NewClient? && !a.RefuseClient?
    ensures Agree(Next(st, a).net, Next(st, a).closing)
  {
    if a.ExpireSession? {
      ExpireKeepsAgreement(st.net, st.closing, a.key);
    } else if a.SwapExpired? {
      SwapKeepsAgreement(st);
    } else {
      QuietStepChangesNoTable(st, a);
      SameTables(st.net, Next(st, a).net, st.closing);
    }
  }

  lemma QuietStepChangesNoTable(st: State, a: Action)
    requires Placed(st) && Enabled(st, a) && Closes(st, a).None?
    requires !a.NewClient? && !a.RefuseClient? && !a.ExpireSession? && !a.SwapExpired?
    ensures var t := Next(st, a);
            && t.net.connections == st.net.connections && t.net.sessions == st.net.sessions
            && t.net.expired == st.net.expired && t.closing == st.closing
  {
    if a.RecvNothing? || a.Finish? || a.Judge? {
      RearmChangesNoTable(st, st.running[a.w].socket);
    }
  }

  lemma SameTables(n: Net, m: Net, closing: seq<Socket>)
    requires Agree(n, closing)
    requires m.connections == n.connections && m.sessions == n.sessions && m.expired == n.expired
    ensures Agree(m, closing)
  {
    forall x | x in m.connections ensures HasSession(m, x) || ToBeClosed(m, closing, x) {
      assert HasSession(n, x) || ToBeClosed(n, closing, x);
    }
  }

  lemma SwapKeepsAgreement(st: State)
    requires Agreed(st) && Enabled(st, SwapExpired)
    ensures Agree(st.net.(expired := []), st.net.expired)
  {
    var n := st.net;
    forall x | x in n.connections ensures HasSession(n.(expired := []), x) || ToBeClosed(n.(expired := []), n.expired, x) {
      assert HasSession(n, x) || ToBeClosed(n, st.closing, x);
    }
  }

  /** A step keeps the tables in agreement exactly when it is careful. */
  lemma StepAgreesIff(st: State, a: Action)
    requires Agreed(st) && Placed(st) && Enabled(st, a)
    ensures Agree(Next(st, a).net, Next(st, a).closing) <==> Careful(st, a)
    ensures QueuedKnown(Next(st, a))
  {
    StepKeepsQueuedKnown(st, a);
    if Closes(st, a).Some? {
      ClosingStepAgreesIff(st, a);
    } else if a.NewClient? {
      RegisterAgreesIff(st.net, st.closing, a.s, a.key);
    } else if a.RefuseClient? {
      RefuseAgreesIff(st.net, st.closing, a.key);
    } else {
      QuietStepAgrees(st, a);
    }
  }

  // Runs.

  predicate CarefulRun(st: State, run: seq<Action>)
    requires Legal(st, run)
    decreases |run|
  {
    run != [] ==> Careful(st, run[0]) && CarefulRun(Next(st, run[0]), run[1..])
  }

  lemma {:induction false} CarefulRunsAgree(st: State, run: seq<Action>)
    requires Agreed(st) && Placed(st) && Legal(st, run) && CarefulRun(st, run)
    ensures Agreed(After(st, run))
    decreases |run|
  {
    if run != [] {
      StepAgreesIff(st, run[0]);
      StepKeepsPlaces(st, run[0]);
      CarefulRunsAgree(Next(st, run[0]), run[1..]);
    }
  }

  /** No two connections share a key. */
  predicate DistinctPeers(n: Net) {
    forall s, r :: s in n.connections && r in n.connections && n.connections[s] == n.connections[r] ==> s == r
  }

  /** A client's peer address is that of no connection. */
  predicate FreshPeer(st: State, a: Action) {
    (a.NewClient? || a.RefuseClient?) ==> a.key !in st.net.connections.Values
  }

  lemma FreshPeersAreCareful(st: State, a: Action)
    requires Agreed(st) && Enabled(st, a) && DistinctPeers(st.net) && FreshPeer(st, a)
    ensures Careful(st, a)
  {
    forall k | k in st.net.sessions ensures k in st.net.connections.Values {
      assert st.net.connections[st.net.sessions[k]] == k;
    }
  }

  lemma StepKeepsDistinctPeers(st: State, a: Action)
    requires DistinctPeers(st.net) && Enabled(st, a) && FreshPeer(st, a)
    ensures DistinctPeers(Next(st, a).net)
  {
    var n, m := st.net, Next(st, a).net;
    if a.NewClient? {
      forall r | r in n.connections ensures n.connections[r] != a.key {
        assert n.connections[r] in n.connections.Values;
      }
    } else {
      assert forall r :: r in m.connections ==> r in n.connections && m.connections[r] == n.connections[r];
    }
  }

  predicate FreshPeers(st: State, run: seq<Action>)
    requires Legal(st, run)
    decreases |run|
  {
    run != [] ==> FreshPeer(st, run[0]) && FreshPeers(Next(st, run[0]), run[1..])
  }

  lemma {:induction false} FreshRunsAgree(st: State, run: seq<Action>)
    requires Agreed(st) && DistinctPeers(st.net) && Placed(st) && Legal(st, run) && FreshPeers(st, run)
    ensures CarefulRun(st, run)
    ensures Agreed(After(st, run)) && DistinctPeers(After(st, run).net)
    decreases |run|
  {
    if run != [] {
      FreshPeersAreCareful(st, run[0]);
      StepAgreesIff(st, run[0]);
      StepKeepsPlaces(st, run[0]);
      StepKeepsDistinctPeers(st, run[0]);
      FreshRunsAgree(Next(st, run[0]), run[1..]);
    }
  }

  /** In every run in which live peers have distinct addresses, sessions and connections
      agree. */
  lemma SessionsAndConnectionsAgree(run: seq<Action>)
    requires Legal(INITIAL, run) && FreshPeers(INITIAL, run)
    ensures Agree(After(INITIAL, run).net, After(INITIAL, run).closing)
  {
    FreshRunsAgree(INITIAL, run);
  }

  lemma ConsRun(st: State, a: Action, rest: seq<Action>)
    requires Enabled(st, a) && Legal(Next(st, a), rest)
    ensures Legal(st, [a] + rest) && After(st, [a] + rest) == After(Next(st, a), rest)
  {
    assert ([a] + rest)[1..] == rest;
  }

  /** The same address, first expired, then registered again, then its old socket closed. */
  function Comeback(key: SessionKey): seq<Action> {
    [NewClient(1, key)] + ([ExpireSession(key)] + ([NewClient(2, key)] + ([SwapExpired] + ([CloseNext] + []))))
  }

  lemma OldSocketCloses(st: State, r: Socket)
    requires st.batch == [] && st.closing == [] && st.net.expired == [r]
    ensures var tail := [SwapExpired] + ([CloseNext] + []);
            && Legal(st, tail)
            && After(st, tail).net == Close(st.net.(expired := []), r) && After(st, tail).closing == []
  {
    var t := Next(st, SwapExpired);
    ConsRun(t, CloseNext, []);
    ConsRun(st, SwapExpired, [CloseNext] + []);
  }

  /** The hypothesis is needed: a peer that comes back from the same address between the
      expiry of its session and the close of its old socket ends up without a session. */
  lemma ReusedAddressOrphans(key: SessionKey)
    ensures Legal(INITIAL, Comeback(key))
    ensures var st := After(INITIAL, Comeback(key)); Orphaned(st.net, st.closing, 2)
  {
    var s1 := Next(INITIAL, NewClient(1, key));
    var s2 := Next(s1, ExpireSession(key));
    var s3 := Next(s2, NewClient(2, key));
    var tail := [SwapExpired] + ([CloseNext] + []);
    assert s3.net.expired == [1] && s3.net.sessions == map[key := 2];
    OldSocketCloses(s3, 1);
    ConsRun(s2, NewClient(2, key), tail);
    ConsRun(s1, ExpireSession(key), [NewClient(2, key)] + tail);
    ConsRun(INITIAL, NewClient(1, key), [ExpireSession(key)] + ([NewClient(2, key)] + tail));
  }
}
