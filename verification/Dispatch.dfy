/** The dispatch protocol: an event loop that reports each armed socket once and mutes it, a
    queue, any number of workers that handle one reported socket at a time and re-arm it as
    their last act, and sessions that may expire at any moment. */
module Dispatching {
  import opened KeyValue
  import opened Protocol
  import opened Connections

  type Worker = nat

  /** Where a worker is in the message handler. */
  datatype Stage = Taken | Received(chunk: string) | Appended | Executing(message: string) | Acted(message: string)

  datatype Work = Work(socket: Socket, stage: Stage)

  /** One client's bytes: the chunks in the order they come, how many have been received, the
      command buffer, and the messages executed. */
  datatype Stream = Stream(arrived: seq<string>, count: nat, buffer: string, executed: seq<string>)

  /** Whose turn it is to do something about a socket. */
  datatype Place = Armed | Reported | Queued | Held(w: Worker) | Gone

  /** `closing` and `batch` are what is left of the event loop's two local lists; `place` is
      history. */
  datatype State = State(net: Net, closing: seq<Socket>, batch: seq<Event>,
                         running: map<Worker, Work>, streams: map<Socket, Stream>,
                         place: map<Socket, Place>)

  datatype Action =
    | NewClient(s: Socket, key: SessionKey) | RefuseClient(key: SessionKey)
    | Arrive(s: Socket, chunk: string)
    | ExpireSession(key: SessionKey)
    | SwapExpired | CloseNext
    | Report(events: seq<Event>) | DispatchNext
    | TakeJob(w: Worker)
    | Recv(w: Worker) | RecvNothing(w: Worker) | RecvEnd(w: Worker)
    | AppendChunk(w: Worker) | Judge(w: Worker) | Effect(w: Worker) | Finish(w: Worker)

  const INITIAL := State(Net(map[], map[], map[], [], []), [], [], map[], map[], map[])

  predicate IsArmed(st: State, s: Socket) {
    s in st.net.watch && st.net.watch[s]
  }

  predicate DistinctEvents(events: seq<Event>) {
    forall i, j :: 0 <= i < j < |events| ==> events[i].socket != events[j].socket
  }

  predicate Enabled(st: State, a: Action) {
    match a
    case NewClient(s, key) => s !in st.streams
    case RefuseClient(key) => true
    case Arrive(s, chunk) => s in st.streams && chunk != ""
    case ExpireSession(key) => key in st.net.sessions
    case SwapExpired => st.batch == [] && st.closing == []
    case CloseNext => st.closing != []
    case Report(events) =>
      && st.batch == [] && st.closing == [] && DistinctEvents(events)
      && forall i :: 0 <= i < |events| ==> IsArmed(st, events[i].socket)
    case DispatchNext => st.batch != []
    case TakeJob(w) => w !in st.running && st.net.jobs != []
    case Recv(w) =>
      && w in st.running && st.running[w].stage.Taken?
      && st.running[w].socket in st.net.connections && st.running[w].socket in st.streams
      && var m := st.streams[st.running[w].socket]; m.count < |m.arrived|
    case RecvNothing(w) => w in st.running && st.running[w].stage.Taken?
    case RecvEnd(w) => w in st.running && st.running[w].stage.Taken?
    case AppendChunk(w) => w in st.running && st.running[w].stage.Received?
    case Judge(w) => w in st.running && st.running[w].stage.Appended?
    case Effect(w) => w in st.running && st.running[w].stage.Executing?
    case Finish(w) => w in st.running && st.running[w].stage.Acted?
  }

  /** The worker returns, re-arming its socket; a socket no longer watched is closed. */
  function ReleaseRearmed(st: State, w: Worker): State
    requires w in st.running
  {
    var s := st.running[w].socket;
    st.(net := Rearm(st.net, s), running := st.running - {w},
        place := st.place[s := if s in st.net.watch then Armed else Gone])
  }

  /** The worker closes its socket and returns. */
  function ReleaseClosed(st: State, w: Worker): State
    requires w in st.running
  {
    var s := st.running[w].socket;
    st.(net := Close(st.net, s), running := st.running - {w}, place := st.place[s := Gone])
  }

  function At(st: State, w: Worker, stage: Stage, m: Stream): State
    requires w in st.running
  {
    var s := st.running[w].socket;
    st.(running := st.running[w := Work(s, stage)], streams := st.streams[s := m])
  }

  function StreamOf(st: State, w: Worker): Stream
    requires w in st.running
  {
    var s := st.running[w].socket;
    if s in st.streams then st.streams[s] else Stream([], 0, "", [])
  }

  function Next(st: State, a: Action): State
    requires Enabled(st, a)
  {
    match a
    case NewClient(s, key) =>
      st.(net := Register(st.net, s, key), streams := st.streams[s := Stream([], 0, "", [])],
          place := st.place[s := Armed])
    case RefuseClient(key) => st.(net := Refuse(st.net, key))
    case Arrive(s, chunk) =>
      var m := st.streams[s];
      st.(streams := st.streams[s := m.(arrived := m.arrived + [chunk])])
    case ExpireSession(key) => st.(net := Expire(st.net, key))
    case SwapExpired => st.(closing := st.net.expired, net := st.net.(expired := []))
    case CloseNext =>
      var s := st.closing[0];
      st.(net := Close(st.net, s), closing := st.closing[1..],
          place := if s in st.place && st.place[s] == Armed then st.place[s := Gone] else st.place)
    case Report(events) =>
      st.(net := st.net.(watch := Mute(st.net.watch, events)), batch := events,
          place := map s | s in st.place ::
            if exists i :: 0 <= i < |events| && events[i].socket == s then Reported else st.place[s])
    case DispatchNext =>
      var e := st.batch[0];
      st.(net := Dispatch(st.net, e), batch := st.batch[1..],
          place := st.place[e.socket := if e.event.Readable? && e.socket in st.net.connections then Queued else Gone])
    case TakeJob(w) =>
      var s := st.net.jobs[0];
      st.(net := st.net.(jobs := st.net.jobs[1..]), running := st.running[w := Work(s, Taken)],
          place := st.place[s := Held(w)])
    case Recv(w) =>
      var m := StreamOf(st, w);
      At(st, w, Received(m.arrived[m.count]), m.(count := m.count + 1))
    case RecvNothing(w) => ReleaseRearmed(st, w)
    case RecvEnd(w) => ReleaseClosed(st, w)
    case AppendChunk(w) =>
      var m := StreamOf(st, w);
      At(st, w, Appended, m.(buffer := m.buffer + st.running[w].stage.chunk))
    case Judge(w) =>
      var m := StreamOf(st, w);
      if |m.buffer| > MAX_COMMAND_BUFFER_LENGTH then ReleaseClosed(st, w)
      else if Text.NoNewline(m.buffer) then ReleaseRearmed(st, w)
      else At(st, w, Executing(m.buffer), m.(buffer := ""))
    case Effect(w) =>
      var m := StreamOf(st, w);
      At(st, w, Acted(st.running[w].stage.message),
         m.(executed := m.executed + [st.running[w].stage.message]))
    case Finish(w) => ReleaseRearmed(st, w)
  }

  // Every socket in its place.

  predicate InBatch(st: State, s: Socket) {
    exists i :: 0 <= i < |st.batch| && st.batch[i].socket == s
  }

  predicate InQueue(st: State, s: Socket) {
    s in st.net.jobs
  }

  predicate HeldBy(st: State, w: Worker, s: Socket) {
    w in st.running && st.running[w].socket == s
  }

  /** Somebody will do something about the socket: the place says who, and there it is. */
  predicate Kept(st: State, s: Socket)
    requires s in st.place
  {
    match st.place[s]
    case Armed => IsArmed(st, s)
    case Reported => InBatch(st, s)
    case Queued => InQueue(st, s)
    case Held(w) => HeldBy(st, w, s)
    case Gone => false
  }

  predicate Tables(st: State) {
    && st.net.watch.Keys == st.net.connections.Keys
    && st.net.connections.Keys <= st.streams.Keys == st.place.Keys
  }

  predicate HasPlace(st: State, s: Socket, p: Place) {
    s in st.place && st.place[s] == p
  }

  /** All is in place, leaving the socket `but` out of account. */
  ghost predicate PlacedBut(st: State, but: set<Socket>) {
    && Tables(st)
    && DistinctEvents(st.batch)
    && (forall i, j :: 0 <= i < j < |st.net.jobs| ==> st.net.jobs[i] != st.net.jobs[j])
    && (forall i :: 0 <= i < |st.batch| ==>
          st.batch[i].socket !in but && HasPlace(st, st.batch[i].socket, Reported))
    && (forall s :: s in st.net.jobs ==> s !in but && HasPlace(st, s, Queued))
    && (forall w :: w in st.running ==>
          st.running[w].socket !in but && HasPlace(st, st.running[w].socket, Held(w)))
    && (forall s :: IsArmed(st, s) && s !in but ==> HasPlace(st, s, Armed))
    && (forall s :: s in st.net.connections && s !in but ==> Kept(st, s))
  }

  ghost predicate Placed(st: State) {
    PlacedBut(st, {})
  }

  // Taking one socket out of its place.

  lemma OutOfBatch(st: State)
    requires Placed(st) && st.batch != []
    ensures PlacedBut(st.(batch := st.batch[1..]), {st.batch[0].socket})
  {
    var t, s := st.(batch := st.batch[1..]), st.batch[0].socket;
    assert HasPlace(st, s, Reported);
    assert forall i :: 0 <= i < |t.batch| ==> t.batch[i] == st.batch[i + 1];
    forall x | x in t.net.connections && x != s ensures Kept(t, x) {
      assert Kept(st, x);
      if InBatch(st, x) {
        var i :| 0 <= i < |st.batch| && st.batch[i].socket == x;
        assert t.batch[i - 1].socket == x;
      }
    }
  }

  lemma OutOfQueue(st: State)
    requires Placed(st) && st.net.jobs != []
    ensures PlacedBut(st.(net := st.net.(jobs := st.net.jobs[1..])), {st.net.jobs[0]})
  {
    var jobs := st.net.jobs;
    var t := st.(net := st.net.(jobs := jobs[1..]));
    assert HasPlace(st, jobs[0], Queued);
    assert jobs == [jobs[0]] + jobs[1..];
    forall x | x in t.net.connections && x != jobs[0] ensures Kept(t, x) {
      assert Kept(st, x);
    }
  }

  lemma OutOfHand(st: State, w: Worker)
    requires Placed(st) && w in st.running
    ensures PlacedBut(st.(running := st.running - {w}), {st.running[w].socket})
  {
    var t, s := st.(running := st.running - {w}), st.running[w].socket;
    assert HasPlace(st, s, Held(w));
    forall v | v in t.running ensures t.running[v].socket != s {
      assert HasPlace(st, st.running[v].socket, Held(v));
    }
    forall x | x in t.net.connections && x != s ensures Kept(t, x) {
      assert Kept(st, x) && HasPlace(st, x, st.place[x]);
    }
  }

  // And giving it another one.

  lemma IntoNowhere(st: State, s: Socket)
    requires PlacedBut(st, {s}) && s in st.streams
    ensures Placed(st.(net := Close(st.net, s), place := st.place[s := Gone]))
  {
    var t := st.(net := Close(st.net, s), place := st.place[s := Gone]);
    assert t.place.Keys == st.place.Keys;
    forall x | x in t.net.connections ensures Kept(t, x) {
      assert Kept(st, x);
    }
  }

  lemma IntoWatch(st: State, s: Socket)
    requires PlacedBut(st, {s}) && s in st.net.watch
    ensures Placed(st.(net := st.net.(watch := st.net.watch[s := true]), place := st.place[s := Armed]))
  {
    var t := st.(net := st.net.(watch := st.net.watch[s := true]), place := st.place[s := Armed]);
    assert t.place.Keys == st.place.Keys && t.net.watch.Keys == st.net.watch.Keys;
    forall x | x in t.net.connections ensures Kept(t, x) {
      assert x != s ==> Kept(st, x);
    }
  }

  lemma IntoQueue(st: State, s: Socket)
    requires PlacedBut(st, {s}) && s in st.streams && !IsArmed(st, s)
    ensures Placed(st.(net := st.net.(jobs := st.net.jobs + [s]), place := st.place[s := Queued]))
  {
    var t := st.(net := st.net.(jobs := st.net.jobs + [s]), place := st.place[s := Queued]);
    assert t.place.Keys == st.place.Keys;
    forall x | x in t.net.connections ensures Kept(t, x) {
      assert x != s ==> Kept(st, x);
    }
  }

  lemma IntoHand(st: State, s: Socket, w: Worker, stage: Stage)
    requires PlacedBut(st, {s}) && s in st.streams && w !in st.running && !IsArmed(st, s)
    ensures Placed(st.(running := st.running[w := Work(s, stage)], place := st.place[s := Held(w)]))
  {
    var t := st.(running := st.running[w := Work(s, stage)], place := st.place[s := Held(w)]);
    assert t.place.Keys == st.place.Keys;
    forall x | x in t.net.connections ensures Kept(t, x) {
      assert x != s ==> Kept(st, x);
    }
  }

  // The steps.

  lemma NewClientKeepsPlaces(st: State, s: Socket, key: SessionKey)
    requires Placed(st) && Enabled(st, NewClient(s, key))
    ensures Placed(Next(st, NewClient(s, key)))
  {
    var t := Next(st, NewClient(s, key));
    forall x | x in t.net.connections ensures Kept(t, x) {
      assert x != s ==> Kept(st, x);
    }
  }

  /** A worker moving on within the handler. */
  lemma AtKeepsPlaces(st: State, w: Worker, stage: Stage, m: Stream)
    requires Placed(st) && w in st.running
    ensures Placed(At(st, w, stage, m))
  {
    var t := At(st, w, stage, m);
    assert HasPlace(st, st.running[w].socket, Held(w));
    assert t.streams.Keys == st.streams.Keys;
    forall x | x in t.net.connections ensures Kept(t, x) {
      assert Kept(st, x);
    }
  }

  lemma ReleaseKeepsPlaces(st: State, w: Worker)
    requires Placed(st) && w in st.running
    ensures Placed(ReleaseClosed(st, w)) && Placed(ReleaseRearmed(st, w))
  {
    var t, s := st.(running := st.running - {w}), st.running[w].socket;
    assert HasPlace(st, s, Held(w));
    OutOfHand(st, w);
    IntoNowhere(t, s);
    if s in st.net.watch {
      IntoWatch(t, s);
    }
  }

  /** Closing a socket that is reported, queued or held leaves it there, unregistered. */
  lemma CloseElsewhere(st: State, s: Socket)
    requires Placed(st) && !HasPlace(st, s, Armed)
    ensures Placed(st.(net := Close(st.net, s)))
  {
    var t := st.(net := Close(st.net, s));
    forall x | x in t.net.connections ensures Kept(t, x) {
      assert Kept(st, x);
    }
  }

  lemma CloseNextKeepsPlaces(st: State)
    requires Placed(st) && Enabled(st, CloseNext)
    ensures Placed(Next(st, CloseNext))
  {
    var t, s := st.(closing := st.closing[1..]), st.closing[0];
    forall x | x in t.net.connections ensures Kept(t, x) {
      assert Kept(st, x);
    }
    if HasPlace(st, s, Armed) {
      IntoNowhere(t, s);
    } else {
      CloseElsewhere(t, s);
    }
  }

  lemma {:induction false} MuteMeaning(watch: map<Socket, bool>, events: seq<Event>)
    ensures Mute(watch, events).Keys == watch.Keys
    ensures forall s :: s in watch ==>
      Mute(watch, events)[s] == (watch[s] && forall i :: 0 <= i < |events| ==> events[i].socket != s)
    decreases |events|
  {
    if events != [] {
      var w' := if events[0].socket in watch then watch[events[0].socket := false] else watch;
      MuteMeaning(w', events[1..]);
      assert forall i :: 1 <= i < |events| ==> events[i] == events[1..][i - 1];
      assert forall i :: 0 <= i < |events[1..]| ==> events[1..][i] == events[i + 1];
    }
  }

  /** Only armed sockets are reported, and each of them is then in the batch. */
  lemma ReportMoves(st: State, events: seq<Event>, x: Socket)
    requires Placed(st) && Enabled(st, Report(events))
    ensures var t := Next(st, Report(events));
            && (x in t.net.connections ==> x in t.place && Kept(t, x))
            && (IsArmed(t, x) ==> HasPlace(t, x, Armed))
  {
    var t := Next(st, Report(events));
    MuteMeaning(st.net.watch, events);
    if x in st.net.connections {
      assert Kept(st, x);
    }
  }

  /** A socket with a place other than armed is not reported and keeps its place. */
  lemma ReportSkips(st: State, events: seq<Event>, x: Socket, p: Place)
    requires Placed(st) && Enabled(st, Report(events)) && HasPlace(st, x, p) && !p.Armed?
    ensures HasPlace(Next(st, Report(events)), x, p)
  {
    forall i | 0 <= i < |events| ensures events[i].socket != x {
      assert IsArmed(st, events[i].socket);
      assert HasPlace(st, events[i].socket, Armed);
    }
  }

  lemma ReportKeepsPlaces(st: State, events: seq<Event>)
    requires Placed(st) && Enabled(st, Report(events))
    ensures Placed(Next(st, Report(events)))
  {
    var t := Next(st, Report(events));
    assert Tables(t) by {
      MuteMeaning(st.net.watch, events);
      assert t.place.Keys == st.place.Keys;
    }
    forall i | 0 <= i < |t.batch| ensures HasPlace(t, t.batch[i].socket, Reported) {
      assert IsArmed(st, events[i].socket);
    }
    forall x | x in t.net.jobs ensures HasPlace(t, x, Queued) {
      ReportSkips(st, events, x, Queued);
    }
    forall w | w in t.running ensures HasPlace(t, t.running[w].socket, Held(w)) {
      ReportSkips(st, events, t.running[w].socket, Held(w));
    }
    forall x ensures x in t.net.connections ==> x in t.place && Kept(t, x) {
      ReportMoves(st, events, x);
    }
    forall x | IsArmed(t, x) ensures HasPlace(t, x, Armed) {
      ReportMoves(st, events, x);
    }
  }

  lemma DispatchNextKeepsPlaces(st: State)
    requires Placed(st) && Enabled(st, DispatchNext)
    ensures Placed(Next(st, DispatchNext))
  {
    var e, t := st.batch[0], st.(batch := st.batch[1..]);
    OutOfBatch(st);
    assert HasPlace(st, e.socket, Reported);
    if e.event.Readable? && e.socket in st.net.connections {
      IntoQueue(t, e.socket);
    } else {
      IntoNowhere(t, e.socket);
      assert e.socket !in st.net.connections ==> st.net.watch - {e.socket} == st.net.watch;
    }
  }

  lemma TakeJobKeepsPlaces(st: State, w: Worker)
    requires Placed(st) && Enabled(st, TakeJob(w))
    ensures Placed(Next(st, TakeJob(w)))
  {
    var s := st.net.jobs[0];
    assert s in st.net.jobs && HasPlace(st, s, Queued);
    OutOfQueue(st);
    IntoHand(st.(net := st.net.(jobs := st.net.jobs[1..])), s, w, Taken);
  }

  lemma HandlerStepKeepsPlaces(st: State, w: Worker, a: Action)
    requires Placed(st) && Enabled(st, a)
    requires a == Recv(w) || a == AppendChunk(w) || a == Effect(w)
    ensures Placed(Next(st, a))
  {
    var t := Next(st, a);
    AtKeepsPlaces(st, w, t.running[w].stage, t.streams[st.running[w].socket]);
  }

  lemma JudgeKeepsPlaces(st: State, w: Worker)
    requires Placed(st) && Enabled(st, Judge(w))
    ensures Placed(Next(st, Judge(w)))
  {
    var m := StreamOf(st, w);
    ReleaseKeepsPlaces(st, w);
    AtKeepsPlaces(st, w, Executing(m.buffer), m.(buffer := ""));
  }

  lemma QuietStepKeepsPlaces(st: State, a: Action)
    requires Placed(st) && Enabled(st, a) && (a.Arrive? || a.RefuseClient? || a.ExpireSession? || a.SwapExpired?)
    ensures Placed(Next(st, a))
  {
    var t := Next(st, a);
    assert t.streams.Keys == st.streams.Keys;
    forall x | x in t.net.connections ensures Kept(t, x) {
      assert Kept(st, x);
    }
  }

  lemma StepKeepsPlaces(st: State, a: Action)
    requires Placed(st) && Enabled(st, a)
    ensures Placed(Next(st, a))
  {
    match a {
      case NewClient(s, key) => NewClientKeepsPlaces(st, s, key);
      case CloseNext => CloseNextKeepsPlaces(st);
      case Report(events) => ReportKeepsPlaces(st, events);
      case DispatchNext => DispatchNextKeepsPlaces(st);
      case TakeJob(w) => TakeJobKeepsPlaces(st, w);
      case RecvNothing(w) => ReleaseKeepsPlaces(st, w);
      case RecvEnd(w) => ReleaseKeepsPlaces(st, w);
      case Finish(w) => ReleaseKeepsPlaces(st, w);
      case Recv(w) => HandlerStepKeepsPlaces(st, w, a);
      case AppendChunk(w) => HandlerStepKeepsPlaces(st, w, a);
      case Judge(w) => JudgeKeepsPlaces(st, w);
      case Effect(w) => HandlerStepKeepsPlaces(st, w, a);
      case _ => QuietStepKeepsPlaces(st, a);
    }
  }

  // Runs.

  predicate Legal(st: State, run: seq<Action>)
    decreases |run|
  {
    run != [] ==> Enabled(st, run[0]) && Legal(Next(st, run[0]), run[1..])
  }

  function After(st: State, run: seq<Action>): State
    requires Legal(st, run)
    decreases |run|
  {
    if run == [] then st else After(Next(st, run[0]), run[1..])
  }

  lemma {:induction false} RunKeepsPlaces(st: State, run: seq<Action>)
    requires Placed(st) && Legal(st, run)
    ensures Placed(After(st, run))
    decreases |run|
  {
    if run != [] {
      StepKeepsPlaces(st, run[0]);
      RunKeepsPlaces(Next(st, run[0]), run[1..]);
    }
  }

  /** In every reachable state every registered connection is armed, reported in the current
      batch, queued, or held by a worker, and no socket, registered or not, is in two of
      these or twice in one: nobody is stranded, and no two workers share a connection. */
  lemma NobodyStrandedOrShared(run: seq<Action>, s: Socket)
    requires Legal(INITIAL, run)
    ensures var st := After(INITIAL, run);
            && (s in st.net.connections ==>
                 IsArmed(st, s) || InBatch(st, s) || InQueue(st, s) || exists w :: HeldBy(st, w, s))
            && !(IsArmed(st, s) && InBatch(st, s)) && !(IsArmed(st, s) && InQueue(st, s))
            && !(InBatch(st, s) && InQueue(st, s))
            && (forall w :: HeldBy(st, w, s) ==> !IsArmed(st, s) && !InBatch(st, s) && !InQueue(st, s))
            && (forall w, v :: HeldBy(st, w, s) && HeldBy(st, v, s) ==> w == v)
            && DistinctEvents(st.batch)
            && (forall i, j :: 0 <= i < j < |st.net.jobs| ==> st.net.jobs[i] != st.net.jobs[j])
  {
    RunKeepsPlaces(INITIAL, run);
    var st := After(INITIAL, run);
    forall w | HeldBy(st, w, s) ensures HasPlace(st, s, Held(w)) {
    }
    assert IsArmed(st, s) ==> HasPlace(st, s, Armed);
    assert InBatch(st, s) ==> HasPlace(st, s, Reported);
    assert InQueue(st, s) ==> HasPlace(st, s, Queued);
    if s in st.net.connections {
      assert Kept(st, s);
    }
  }
}
