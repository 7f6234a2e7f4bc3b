/** What the dispatch protocol is for: each connection's bytes are processed as if one worker
    served it alone, whatever the interleaving. */
module SerialExecution {
  import opened KeyValue
  import opened Protocol
  import opened Connections
  import opened Dispatching

  const FRESH := Session(true, "", [])

  /** The connection as a single handler would have left it after the received chunks. */
  function Alone(m: Stream): Session
    requires m.count <= |m.arrived|
  {
    ReceiveAll(FRESH, m.arrived[..m.count])
  }

  /** The same before the chunk received last. */
  function Before(m: Stream): Session
    requires 0 < m.count <= |m.arrived|
  {
    ReceiveAll(FRESH, m.arrived[..m.count - 1])
  }

  /** Nothing half done: buffer and executed messages are those of the lone handler. */
  predicate Settled(m: Stream) {
    m.count <= |m.arrived|
    && var h := Alone(m);
       h.executed == m.executed && (h.open ==> h.buffer == m.buffer)
  }

  /** A worker that has received a chunk is at the matching point of the lone handler's
      step. */
  predicate MidStep(m: Stream, stage: Stage) {
    match stage
    case Taken => Settled(m)
    case Received(chunk) =>
      && 0 < m.count <= |m.arrived| && chunk == m.arrived[m.count - 1]
      && Before(m) == Session(true, m.buffer, m.executed)
    case Appended =>
      && 0 < m.count <= |m.arrived|
      && var b := Before(m);
         b.open && b.executed == m.executed && m.buffer == b.buffer + m.arrived[m.count - 1]
    case Executing(message) =>
      && m.count <= |m.arrived|
      && m.buffer == "" && Alone(m) == Session(true, "", m.executed + [message])
    case Acted(message) => Settled(m)
  }

  /** A socket still registered has not overrun its buffer, unless a worker is about to find
      out. */
  predicate StillOpen(m: Stream) {
    m.count <= |m.arrived| && Alone(m).open
  }

  predicate MayJudge(stage: Stage) {
    stage.Received? || stage.Appended?
  }

  /** What the worker holding the socket, if any, is doing. */
  function WorkOn(st: State, s: Socket): Option<Stage> {
    if s in st.place && st.place[s].Held? && HeldBy(st, st.place[s].w, s)
    then Some(st.running[st.place[s].w].stage) else None
  }

  predicate Consistent(m: Stream, work: Option<Stage>, registered: bool) {
    && (if work.Some? then MidStep(m, work.value) else Settled(m))
    && (registered && !(work.Some? && MayJudge(work.value)) ==> StillOpen(m))
  }

  ghost predicate Serial(st: State) {
    forall s :: s in st.streams ==> Consistent(st.streams[s], WorkOn(st, s), s in st.net.connections)
  }

  lemma AloneStep(m: Stream)
    requires 0 < m.count <= |m.arrived|
    ensures Alone(m) == Receive(Before(m), m.arrived[m.count - 1])
  {
    var a, c := m.arrived[..m.count - 1], m.arrived[m.count - 1];
    assert m.arrived[..m.count] == a + [c];
    ReceiveAllConcat(FRESH, a, [c]);
    assert [c][1..] == [];
  }

  lemma ArrivalIsLater(m: Stream, chunk: string)
    requires m.count <= |m.arrived|
    ensures var n := m.(arrived := m.arrived + [chunk]);
            && n.arrived[..n.count] == m.arrived[..m.count]
            && (m.count > 0 ==> n.arrived[..n.count - 1] == m.arrived[..m.count - 1])
  {
  }

  // The worker's own steps, on the stream alone.

  lemma RecvStep(m: Stream)
    requires Settled(m) && StillOpen(m) && m.count < |m.arrived|
    ensures MidStep(m.(count := m.count + 1), Received(m.arrived[m.count]))
  {
  }

  lemma AppendStep(m: Stream, chunk: string)
    requires MidStep(m, Received(chunk))
    ensures MidStep(m.(buffer := m.buffer + chunk), Appended)
  {
  }

  lemma JudgeStep(m: Stream)
    requires MidStep(m, Appended)
    ensures if |m.buffer| > MAX_COMMAND_BUFFER_LENGTH then Settled(m)
            else if Text.NoNewline(m.buffer) then Settled(m) && StillOpen(m)
            else MidStep(m.(buffer := ""), Executing(m.buffer)) && StillOpen(m)
  {
    AloneStep(m);
    assert Alone(m.(buffer := "")) == Alone(m);
  }

  lemma EffectStep(m: Stream, message: string)
    requires MidStep(m, Executing(message))
    ensures MidStep(m.(executed := m.executed + [message]), Acted(message))
    ensures StillOpen(m)
  {
  }

  // The same inside the whole system: first what a step changes, then that it is right.

  /** The other sockets keep their streams and workers, and none of them gets registered. */
  predicate Untouched(st: State, t: State, s: Socket) {
    forall x :: x in t.streams && x != s ==>
      && x in st.streams && t.streams[x] == st.streams[x] && WorkOn(t, x) == WorkOn(st, x)
      && (x in t.net.connections ==> x in st.net.connections)
  }

  lemma HolderWorks(st: State, w: Worker)
    requires Placed(st) && w in st.running
    ensures var s := st.running[w].socket;
            s in st.streams && HasPlace(st, s, Held(w)) && WorkOn(st, s) == Some(st.running[w].stage)
  {
    assert HasPlace(st, st.running[w].socket, Held(w));
  }

  /** Only worker w has changed, and it is on socket s or on none. */
  lemma SameWork(st: State, t: State, w: Worker, s: Socket)
    requires forall v :: v != w ==> (v in t.running <==> v in st.running)
    requires forall v :: v != w && v in t.running ==> v in st.running && t.running[v] == st.running[v]
    requires w in t.running ==> t.running[w].socket == s
    requires w in st.running ==> st.running[w].socket == s
    requires forall x :: x != s && x in t.place ==> x in st.place && t.place[x] == st.place[x]
    requires t.place.Keys == st.place.Keys
    ensures forall x :: x != s ==> WorkOn(t, x) == WorkOn(st, x)
  {
  }

  lemma AtChanges(st: State, w: Worker, stage: Stage, m: Stream)
    requires Placed(st) && w in st.running
    ensures var t, s := At(st, w, stage, m), st.running[w].socket;
            && Untouched(st, t, s) && s in t.streams && t.streams[s] == m
            && WorkOn(t, s) == Some(stage) && t.net == st.net
  {
    HolderWorks(st, w);
    SameWork(st, At(st, w, stage, m), w, st.running[w].socket);
  }

  lemma ReleaseChanges(st: State, w: Worker)
    requires Placed(st) && w in st.running
    ensures var s := st.running[w].socket;
            && Untouched(st, ReleaseClosed(st, w), s) && WorkOn(ReleaseClosed(st, w), s) == None
            && Untouched(st, ReleaseRearmed(st, w), s) && WorkOn(ReleaseRearmed(st, w), s) == None
            && s !in ReleaseClosed(st, w).net.connections
            && (s in ReleaseRearmed(st, w).net.connections ==> s in st.net.connections)
  {
    HolderWorks(st, w);
    assert st.net.watch.Keys == st.net.connections.Keys;
    SameWork(st, ReleaseClosed(st, w), w, st.running[w].socket);
    SameWork(st, ReleaseRearmed(st, w), w, st.running[w].socket);
  }

  lemma CloseNextChanges(st: State)
    requires Enabled(st, CloseNext)
    ensures var t, s := Next(st, CloseNext), st.closing[0];
            && Untouched(st, t, s) && WorkOn(t, s) == WorkOn(st, s) && t.streams == st.streams
            && s !in t.net.connections
  {
  }

  lemma DispatchNextChanges(st: State)
    requires Placed(st) && Enabled(st, DispatchNext)
    ensures var t, s := Next(st, DispatchNext), st.batch[0].socket;
            && Untouched(st, t, s) && WorkOn(t, s) == None && WorkOn(st, s) == None && t.streams == st.streams
            && (s in t.net.connections ==> s in st.net.connections)
  {
    assert HasPlace(st, st.batch[0].socket, Reported);
  }

  lemma TakeJobChanges(st: State, w: Worker)
    requires Placed(st) && Enabled(st, TakeJob(w))
    ensures var t, s := Next(st, TakeJob(w)), st.net.jobs[0];
            && Untouched(st, t, s) && WorkOn(t, s) == Some(Taken) && WorkOn(st, s) == None
            && t.streams == st.streams && t.net.connections == st.net.connections
  {
    var s := st.net.jobs[0];
    assert s in st.net.jobs && HasPlace(st, s, Queued);
    SameWork(st, Next(st, TakeJob(w)), w, s);
  }

  lemma OneSocketChanges(st: State, t: State, s: Socket)
    requires Serial(st) && Untouched(st, t, s)
    requires s in t.streams ==> Consistent(t.streams[s], WorkOn(t, s), s in t.net.connections)
    ensures Serial(t)
  {
  }

  lemma AtKeepsSerial(st: State, w: Worker, stage: Stage, m: Stream)
    requires Placed(st) && Serial(st) && w in st.running
    requires Consistent(m, Some(stage), st.running[w].socket in st.net.connections)
    ensures Serial(At(st, w, stage, m))
  {
    AtChanges(st, w, stage, m);
    OneSocketChanges(st, At(st, w, stage, m), st.running[w].socket);
  }

  lemma ClosedReleaseKeepsSerial(st: State, w: Worker)
    requires Placed(st) && Serial(st) && w in st.running && Settled(StreamOf(st, w))
    ensures Serial(ReleaseClosed(st, w))
  {
    ReleaseChanges(st, w);
    OneSocketChanges(st, ReleaseClosed(st, w), st.running[w].socket);
  }

  lemma RearmedReleaseKeepsSerial(st: State, w: Worker)
    requires Placed(st) && Serial(st) && w in st.running && Settled(StreamOf(st, w))
    requires st.running[w].socket in st.net.connections ==> StillOpen(StreamOf(st, w))
    ensures Serial(ReleaseRearmed(st, w))
  {
    ReleaseChanges(st, w);
    OneSocketChanges(st, ReleaseRearmed(st, w), st.running[w].socket);
  }

  lemma HolderIsConsistent(st: State, w: Worker)
    requires Placed(st) && Serial(st) && w in st.running
    ensures Consistent(StreamOf(st, w), Some(st.running[w].stage), st.running[w].socket in st.net.connections)
  {
    HolderWorks(st, w);
  }

  lemma JudgeKeepsSerial(st: State, w: Worker)
    requires Placed(st) && Serial(st) && Enabled(st, Judge(w))
    ensures Serial(Next(st, Judge(w)))
  {
    HolderIsConsistent(st, w);
    var m := StreamOf(st, w);
    JudgeStep(m);
    if |m.buffer| > MAX_COMMAND_BUFFER_LENGTH {
      ClosedReleaseKeepsSerial(st, w);
    } else if Text.NoNewline(m.buffer) {
      RearmedReleaseKeepsSerial(st, w);
    } else {
      AtKeepsSerial(st, w, Executing(m.buffer), m.(buffer := ""));
    }
  }

  lemma RecvKeepsSerial(st: State, w: Worker)
    requires Placed(st) && Serial(st) && Enabled(st, Recv(w))
    ensures Serial(Next(st, Recv(w)))
  {
    HolderWorks(st, w);
    HolderIsConsistent(st, w);
    var m := StreamOf(st, w);
    RecvStep(m);
    AtKeepsSerial(st, w, Received(m.arrived[m.count]), m.(count := m.count + 1));
  }

  lemma AppendChunkKeepsSerial(st: State, w: Worker)
    requires Placed(st) && Serial(st) && Enabled(st, AppendChunk(w))
    ensures Serial(Next(st, AppendChunk(w)))
  {
    HolderIsConsistent(st, w);
    var m, chunk := StreamOf(st, w), st.running[w].stage.chunk;
    AppendStep(m, chunk);
    AtKeepsSerial(st, w, Appended, m.(buffer := m.buffer + chunk));
  }

  lemma EffectKeepsSerial(st: State, w: Worker)
    requires Placed(st) && Serial(st) && Enabled(st, Effect(w))
    ensures Serial(Next(st, Effect(w)))
  {
    HolderIsConsistent(st, w);
    var m, message := StreamOf(st, w), st.running[w].stage.message;
    EffectStep(m, message);
    AtKeepsSerial(st, w, Acted(message), m.(executed := m.executed + [message]));
  }

  lemma ReturnKeepsSerial(st: State, a: Action, w: Worker)
    requires Placed(st) && Serial(st) && Enabled(st, a)
    requires a == RecvNothing(w) || a == RecvEnd(w) || a == Finish(w)
    ensures Serial(Next(st, a))
  {
    HolderIsConsistent(st, w);
    if a.RecvEnd? {
      ClosedReleaseKeepsSerial(st, w);
    } else {
      RearmedReleaseKeepsSerial(st, w);
    }
  }

  lemma ArriveStep(m: Stream, work: Option<Stage>, registered: bool, chunk: string)
    requires Consistent(m, work, registered)
    ensures Consistent(m.(arrived := m.arrived + [chunk]), work, registered)
  {
    ArrivalIsLater(m, chunk);
  }

  lemma ArriveKeepsSerial(st: State, s: Socket, chunk: string)
    requires Serial(st) && Enabled(st, Arrive(s, chunk))
    ensures Serial(Next(st, Arrive(s, chunk)))
  {
    ArriveStep(st.streams[s], WorkOn(st, s), s in st.net.connections, chunk);
    OneSocketChanges(st, Next(st, Arrive(s, chunk)), s);
  }

  lemma NewClientKeepsSerial(st: State, s: Socket, key: SessionKey)
    requires Placed(st) && Serial(st) && Enabled(st, NewClient(s, key))
    ensures Serial(Next(st, NewClient(s, key)))
  {
    OneSocketChanges(st, Next(st, NewClient(s, key)), s);
  }

  lemma LoopKeepsSerial(st: State, a: Action)
    requires Placed(st) && Serial(st) && Enabled(st, a)
    requires a.CloseNext? || a.DispatchNext? || a.TakeJob?
    ensures Serial(Next(st, a))
  {
    match a {
      case CloseNext =>
        CloseNextChanges(st);
        OneSocketChanges(st, Next(st, a), st.closing[0]);
      case DispatchNext =>
        DispatchNextChanges(st);
        OneSocketChanges(st, Next(st, a), st.batch[0].socket);
      case TakeJob(w) =>
        TakeJobChanges(st, w);
        OneSocketChanges(st, Next(st, a), st.net.jobs[0]);
    }
  }

  lemma ReportLeavesWork(st: State, events: seq<Event>, x: Socket)
    requires Placed(st) && Enabled(st, Report(events)) && x in st.place
    ensures WorkOn(Next(st, Report(events)), x) == WorkOn(st, x)
  {
    if st.place[x].Held? {
      ReportSkips(st, events, x, st.place[x]);
    }
  }

  lemma ReportKeepsSerial(st: State, events: seq<Event>)
    requires Placed(st) && Serial(st) && Enabled(st, Report(events))
    ensures Serial(Next(st, Report(events)))
  {
    var t := Next(st, Report(events));
    forall x | x in t.streams ensures Consistent(t.streams[x], WorkOn(t, x), x in t.net.connections) {
      ReportLeavesWork(st, events, x);
    }
  }

  lemma StepKeepsSerial(st: State, a: Action)
    requires Placed(st) && Serial(st) && Enabled(st, a)
    ensures Serial(Next(st, a))
  {
    match a {
      case NewClient(s, key) => NewClientKeepsSerial(st, s, key);
      case Arrive(s, chunk) => ArriveKeepsSerial(st, s, chunk);
      case CloseNext => LoopKeepsSerial(st, a);
      case DispatchNext => LoopKeepsSerial(st, a);
      case TakeJob(w) => LoopKeepsSerial(st, a);
      case Report(events) => ReportKeepsSerial(st, events);
      case Recv(w) => RecvKeepsSerial(st, w);
      case AppendChunk(w) => AppendChunkKeepsSerial(st, w);
      case Judge(w) => JudgeKeepsSerial(st, w);
      case Effect(w) => EffectKeepsSerial(st, w);
      case RecvNothing(w) => ReturnKeepsSerial(st, a, w);
      case RecvEnd(w) => ReturnKeepsSerial(st, a, w);
      case Finish(w) => ReturnKeepsSerial(st, a, w);
      case _ =>
    }
  }

  lemma {:induction false} RunKeepsSerial(st: State, run: seq<Action>)
    requires Placed(st) && Serial(st) && Legal(st, run)
    ensures Serial(After(st, run))
    decreases |run|
  {
    if run != [] {
      StepKeepsSerial(st, run[0]);
      StepKeepsPlaces(st, run[0]);
      RunKeepsSerial(Next(st, run[0]), run[1..]);
    }
  }

  /** In every run with any number of workers, whenever no worker is handling a connection,
      its buffer and the messages executed for it are those of a single handler fed its
      chunks one by one in the order they arrived. */
  lemma ConnectionsAreServedSerially(run: seq<Action>, s: Socket)
    requires Legal(INITIAL, run) && s in After(INITIAL, run).streams
    requires forall w :: !HeldBy(After(INITIAL, run), w, s)
    ensures var m := After(INITIAL, run).streams[s];
            && m.count <= |m.arrived|
            && var h := ReceiveAll(FRESH, m.arrived[..m.count]);
               h.executed == m.executed && (h.open ==> h.buffer == m.buffer)
  {
    RunKeepsSerial(INITIAL, run);
  }

  lemma MoreExecutes(a: seq<string>, b: seq<string>)
    ensures ReceiveAll(FRESH, a).executed <= ReceiveAll(FRESH, a + b).executed
    ensures !ReceiveAll(FRESH, a).open ==> ReceiveAll(FRESH, a) == ReceiveAll(FRESH, a + b)
  {
    var h := ReceiveAll(FRESH, a);
    ReceiveAllConcat(FRESH, a, b);
    ExecutedGrows(h, b);
    if !h.open {
      ClosedStaysClosed(h, b);
    }
  }

  lemma PrefixExecutes(chunks: seq<string>, n: nat)
    requires n <= |chunks|
    ensures ReceiveAll(FRESH, chunks[..n]).executed <= ReceiveAll(FRESH, chunks).executed
    ensures !ReceiveAll(FRESH, chunks[..n]).open ==> ReceiveAll(FRESH, chunks[..n]) == ReceiveAll(FRESH, chunks)
  {
    var a, b := chunks[..n], chunks[n..];
    assert chunks == a + b;
    MoreExecutes(a, b);
  }

  lemma ReceiveAddsAtMostOne(h: Session, chunk: string)
    ensures var t := Receive(h, chunk);
            h.executed <= t.executed && |t.executed| <= |h.executed| + 1
  {
  }

  /** Messages that have been received in full and are yet to be executed. */
  function Owed(m: Stream): seq<string>
    requires m.count <= |m.arrived| && m.executed <= Alone(m).executed
  {
    Alone(m).executed[|m.executed|..]
  }

  /** There is at most one, and none without a worker at work. */
  lemma OwedIsAtMostOne(m: Stream, work: Option<Stage>, registered: bool)
    requires Consistent(m, work, registered)
    ensures m.count <= |m.arrived| && m.executed <= Alone(m).executed
    ensures |Owed(m)| <= 1 && (work.None? ==> Owed(m) == [])
  {
    if work.Some? && MayJudge(work.value) {
      AloneStep(m);
      ReceiveAddsAtMostOne(Before(m), m.arrived[m.count - 1]);
    }
  }

  /** In the middle of the handler as well as between its runs, the lone handler fed all that
      has arrived has executed no less. */
  lemma ExecutedIsPrefix(m: Stream, work: Option<Stage>, registered: bool)
    requires Consistent(m, work, registered)
    ensures m.executed <= ReceiveAll(FRESH, m.arrived).executed
  {
    PrefixExecutes(m.arrived, m.count);
    if m.count > 0 {
      PrefixExecutes(m.arrived, m.count - 1);
    }
  }

  lemma StreamOfLinesIsAccepted(cuts: seq<seq<string>>, lines: seq<string>)
    requires |cuts| == |lines|
    requires forall i :: 0 <= i < |lines| ==> IsLine(lines[i]) && CutOf(cuts[i], lines[i])
    ensures ReceiveAll(FRESH, ConcatAll(cuts)).executed == Accepted(lines)
  {
    StreamOfLines([], cuts, lines);
    assert [] + Accepted(lines) == Accepted(lines);
  }

  /** The client sends lines, each cut at will.  At every moment, however much of them has
      arrived or been received, and whatever workers are doing, what has been executed is a
      first part of the lines before the first overlong one. */
  lemma OnlyAcceptedLinesAreExecuted(run: seq<Action>, s: Socket, cuts: seq<seq<string>>, lines: seq<string>)
    requires Legal(INITIAL, run) && s in After(INITIAL, run).streams
    requires After(INITIAL, run).streams[s].arrived <= ConcatAll(cuts)
    requires |cuts| == |lines|
    requires forall i :: 0 <= i < |lines| ==> IsLine(lines[i]) && CutOf(cuts[i], lines[i])
    ensures After(INITIAL, run).streams[s].executed <= Accepted(lines)
  {
    RunKeepsSerial(INITIAL, run);
    var st := After(INITIAL, run);
    var arrived := st.streams[s].arrived;
    ExecutedIsPrefix(st.streams[s], WorkOn(st, s), s in st.net.connections);
    ArrivedIsAccepted(arrived, cuts, lines);
    PrefixTransitive(st.streams[s].executed, ReceiveAll(FRESH, arrived).executed, Accepted(lines));
  }

  lemma PrefixTransitive(a: seq<string>, b: seq<string>, c: seq<string>)
    requires a <= b <= c
    ensures a <= c
  {
  }

  lemma PrefixAndRest<T>(a: seq<T>, b: seq<T>)
    requires a <= b
    ensures b == a + b[|a|..]
  {
  }

  lemma ArrivedIsAccepted(arrived: seq<string>, cuts: seq<seq<string>>, lines: seq<string>)
    requires arrived <= ConcatAll(cuts)
    requires |cuts| == |lines|
    requires forall i :: 0 <= i < |lines| ==> IsLine(lines[i]) && CutOf(cuts[i], lines[i])
    ensures ReceiveAll(FRESH, arrived).executed <= Accepted(lines)
  {
    var all := ConcatAll(cuts);
    PrefixAndRest(arrived, all);
    MoreExecutes(arrived, all[|arrived|..]);
    StreamOfLinesIsAccepted(cuts, lines);
  }

  /** And once all of them have arrived and no worker holds the connection, with everything
      received or with as much received as overflows the buffer, the lines executed are
      exactly those before the first overlong one, once each and in order. */
  lemma LinesAreExecutedInOrder(run: seq<Action>, s: Socket, cuts: seq<seq<string>>, lines: seq<string>)
    requires Legal(INITIAL, run) && s in After(INITIAL, run).streams
    requires forall w :: !HeldBy(After(INITIAL, run), w, s)
    requires var m := After(INITIAL, run).streams[s];
             m.arrived == ConcatAll(cuts)
             && (m.count < |m.arrived| ==> !ReceiveAll(FRESH, m.arrived[..m.count]).open)
    requires |cuts| == |lines|
    requires forall i :: 0 <= i < |lines| ==> IsLine(lines[i]) && CutOf(cuts[i], lines[i])
    ensures After(INITIAL, run).streams[s].executed == Accepted(lines)
  {
    ConnectionsAreServedSerially(run, s);
    var m := After(INITIAL, run).streams[s];
    assert m.count == |m.arrived| ==> m.arrived[..m.count] == m.arrived;
    PrefixExecutes(m.arrived, m.count);
    StreamOfLinesIsAccepted(cuts, lines);
  }
}
