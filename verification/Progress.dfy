/** The dispatch protocol gets its work done: left alone by clients and timers, the server can
    take only so many steps, and as long as an open connection has something to be read it can
    take another one. */
module Progress {
  import opened KeyValue
  import opened Protocol
  import opened Connections
  import opened Dispatching
  import opened SerialExecution

  predicate HasData(st: State, s: Socket) {
    s in st.streams && st.streams[s].count < |st.streams[s].arrived|
  }

  /** Something to be read: bytes, or that the peer is gone. */
  predicate Ready(st: State, ended: set<Socket>, s: Socket) {
    HasData(st, s) || s in ended
  }

  /** A step of the event loop or of one of N workers. */
  predicate ServerStep(a: Action, N: nat) {
    match a
    case NewClient(_, _) => false
    case RefuseClient(_) => false
    case Arrive(_, _) => false
    case ExpireSession(_) => false
    case SwapExpired => true
    case CloseNext => true
    case Report(_) => true
    case DispatchNext => true
    case TakeJob(w) => w < N
    case Recv(w) => w < N
    case RecvNothing(w) => w < N
    case RecvEnd(w) => w < N
    case AppendChunk(w) => w < N
    case Judge(w) => w < N
    case Effect(w) => w < N
    case Finish(w) => w < N
  }

  /** The kernel reports as readable only what is, and does not find a registered socket empty
      that is not; turns of the event loop with nothing to do are not counted as steps. */
  predicate Honest(st: State, ended: set<Socket>, a: Action)
    requires Enabled(st, a)
  {
    match a
    case SwapExpired => st.net.expired != []
    case Report(events) =>
      && events != []
      && forall i :: 0 <= i < |events| && events[i].event.Readable? ==> Ready(st, ended, events[i].socket)
    case RecvNothing(w) => st.running[w].socket in st.net.connections ==> !Ready(st, ended, st.running[w].socket)
    case _ => true
  }

  ghost predicate Steps(st: State, ended: set<Socket>, N: nat, a: Action) {
    ServerStep(a, N) && Enabled(st, a) && Honest(st, ended, a)
  }

  // A measure of the work left.

  function StageWeight(stage: Stage): nat {
    match stage
    case Taken => 3
    case Received(_) => 11
    case Appended => 10
    case Executing(_) => 9
    case Acted(_) => 8
  }

  predicate ReportedReadable(st: State, s: Socket) {
    exists i :: 0 <= i < |st.batch| && st.batch[i].socket == s && st.batch[i].event.Readable?
  }

  function PlaceWeight(st: State, ended: set<Socket>, s: Socket): nat
    requires s in st.place
  {
    match st.place[s]
    case Armed => if Ready(st, ended, s) then 6 else 2
    case Reported => if ReportedReadable(st, s) then 5 else 1
    case Queued => 4
    case Held(w) => if HeldBy(st, w, s) then StageWeight(st.running[w].stage) else 0
    case Gone => 0
  }

  function Unreceived(st: State, s: Socket): nat {
    if HasData(st, s) then |st.streams[s].arrived| - st.streams[s].count else 0
  }

  /** Nine for each chunk still to be received, and something for where the socket stands. */
  function Weight(st: State, ended: set<Socket>, s: Socket): nat
    requires s in st.place
  {
    9 * Unreceived(st, s) + PlaceWeight(st, ended, s)
  }

  function Weights(st: State, ended: set<Socket>): map<Socket, nat> {
    map s | s in st.place :: Weight(st, ended, s)
  }

  ghost function Sum(m: map<Socket, nat>): nat
    decreases m.Keys
  {
    if m == map[] then 0
    else
      var k :| k in m;
      m[k] + Sum(m - {k})
  }

  /** The work left: at most so many steps will be taken. */
  ghost function Measure(st: State, ended: set<Socket>): nat {
    2 * |st.net.expired| + |st.closing| + Sum(Weights(st, ended))
  }

  lemma {:induction false} SumRemove(m: map<Socket, nat>, k: Socket)
    requires k in m
    ensures Sum(m) == m[k] + Sum(m - {k})
    decreases m.Keys
  {
    var x :| x in m && Sum(m) == m[x] + Sum(m - {x});
    if x != k {
      SumRemove(m - {x}, k);
      SumRemove(m - {k}, x);
      assert m - {x} - {k} == m - {k} - {x};
    }
  }

  lemma {:induction false} SumAtMost(m: map<Socket, nat>, n: map<Socket, nat>)
    requires m.Keys == n.Keys && forall k :: k in m ==> n[k] <= m[k]
    ensures Sum(n) <= Sum(m)
    decreases m.Keys
  {
    if m != map[] {
      var k :| k in m;
      SumRemove(m, k);
      SumRemove(n, k);
      SumAtMost(m - {k}, n - {k});
    } else {
      assert n == map[];
    }
  }

  lemma SumLess(m: map<Socket, nat>, n: map<Socket, nat>, k: Socket)
    requires m.Keys == n.Keys && (forall x :: x in m ==> n[x] <= m[x])
    requires k in m && n[k] < m[k]
    ensures Sum(n) < Sum(m)
  {
    SumRemove(m, k);
    SumRemove(n, k);
    SumAtMost(m - {k}, n - {k});
  }

  /** One socket is further on, none further back. */
  predicate Lighter(st: State, t: State, ended: set<Socket>, s: Socket) {
    && t.place.Keys == st.place.Keys && s in st.place
    && Weight(t, ended, s) < Weight(st, ended, s)
    && forall x :: x in st.place && x != s ==> Weight(t, ended, x) <= Weight(st, ended, x)
  }

  lemma LighterIsLess(st: State, t: State, ended: set<Socket>, s: Socket)
    requires Lighter(st, t, ended, s)
    requires t.net.expired == st.net.expired && |t.closing| <= |st.closing|
    ensures Measure(t, ended) < Measure(st, ended)
  {
    SumLess(Weights(st, ended), Weights(t, ended), s);
  }

  lemma SameWeights(st: State, t: State, ended: set<Socket>)
    requires t.place.Keys == st.place.Keys
    requires forall x :: x in st.place ==> Weight(t, ended, x) <= Weight(st, ended, x)
    ensures Sum(Weights(t, ended)) <= Sum(Weights(st, ended))
  {
    SumAtMost(Weights(st, ended), Weights(t, ended));
  }

  // Every step makes it smaller.

  /** A worker moving on within the handler. */
  lemma AtIsLighter(st: State, ended: set<Socket>, w: Worker, stage: Stage, m: Stream)
    requires Placed(st) && w in st.running
    requires var s := st.running[w].socket;
             var old' := StreamOf(st, w);
             && m.arrived == old'.arrived && old'.count <= m.count
             && 9 * (if m.count < |m.arrived| then |m.arrived| - m.count else 0) + StageWeight(stage)
                < 9 * Unreceived(st, s) + StageWeight(st.running[w].stage)
    ensures Lighter(st, At(st, w, stage, m), ended, st.running[w].socket)
  {
    var s, t := st.running[w].socket, At(st, w, stage, m);
    assert HasPlace(st, s, Held(w));
    forall x | x in st.place && x != s ensures Weight(t, ended, x) <= Weight(st, ended, x) {
      assert ReportedReadable(t, x) == ReportedReadable(st, x);
    }
  }

  /** Whether it is re-armed or closed, a socket let go leaves the others where they are. */
  lemma ReleaseSparesOthers(st: State, t: State, ended: set<Socket>, w: Worker)
    requires Placed(st) && w in st.running && (t == ReleaseClosed(st, w) || t == ReleaseRearmed(st, w))
    ensures t.place.Keys == st.place.Keys
    ensures forall x :: x in st.place && x != st.running[w].socket ==> Weight(t, ended, x) <= Weight(st, ended, x)
  {
    var s := st.running[w].socket;
    assert HasPlace(st, s, Held(w));
    forall x | x in st.place && x != s ensures Weight(t, ended, x) <= Weight(st, ended, x) {
      assert ReportedReadable(t, x) == ReportedReadable(st, x);
    }
  }

  lemma ClosedIsLighter(st: State, ended: set<Socket>, w: Worker)
    requires Placed(st) && w in st.running
    ensures Lighter(st, ReleaseClosed(st, w), ended, st.running[w].socket)
  {
    assert HasPlace(st, st.running[w].socket, Held(w));
    ReleaseSparesOthers(st, ReleaseClosed(st, w), ended, w);
  }

  lemma RearmedIsLighter(st: State, ended: set<Socket>, w: Worker)
    requires Placed(st) && w in st.running
    requires StageWeight(st.running[w].stage) > 6
          || (st.running[w].socket in st.net.connections ==> !Ready(st, ended, st.running[w].socket))
    ensures Lighter(st, ReleaseRearmed(st, w), ended, st.running[w].socket)
  {
    assert HasPlace(st, st.running[w].socket, Held(w));
    ReleaseSparesOthers(st, ReleaseRearmed(st, w), ended, w);
  }

  lemma ReportIsLighter(st: State, ended: set<Socket>, events: seq<Event>)
    requires Placed(st) && Enabled(st, Report(events)) && Honest(st, ended, Report(events))
    ensures Lighter(st, Next(st, Report(events)), ended, events[0].socket)
  {
    var t := Next(st, Report(events));
    assert t.place.Keys == st.place.Keys;
    forall i | 0 <= i < |events|
      ensures HasPlace(st, events[i].socket, Armed)
      ensures Weight(t, ended, events[i].socket) < Weight(st, ended, events[i].socket)
    {
      assert IsArmed(st, events[i].socket);
      ReportedOnce(st, ended, events, i);
    }
    forall x | x in st.place && x != events[0].socket ensures Weight(t, ended, x) <= Weight(st, ended, x) {
      if j :| 0 <= j < |events| && events[j].socket == x {
      } else {
        NotReported(st, ended, events, x);
      }
    }
  }

  lemma ReportedOnce(st: State, ended: set<Socket>, events: seq<Event>, i: nat)
    requires Placed(st) && Enabled(st, Report(events)) && Honest(st, ended, Report(events)) && i < |events|
    requires HasPlace(st, events[i].socket, Armed)
    ensures var s, t := events[i].socket, Next(st, Report(events));
            s in t.place && Weight(t, ended, s) < Weight(st, ended, s)
  {
    var s, t := events[i].socket, Next(st, Report(events));
    assert t.place[s] == Reported && Unreceived(t, s) == Unreceived(st, s);
    if ReportedReadable(t, s) {
      var j :| 0 <= j < |t.batch| && t.batch[j].socket == s && t.batch[j].event.Readable?;
      assert i == j;
    }
  }

  lemma NotReported(st: State, ended: set<Socket>, events: seq<Event>, x: Socket)
    requires Placed(st) && Enabled(st, Report(events)) && x in st.place
    requires forall i :: 0 <= i < |events| ==> events[i].socket != x
    ensures var t := Next(st, Report(events)); x in t.place && Weight(t, ended, x) <= Weight(st, ended, x)
  {
    var t := Next(st, Report(events));
    assert t.place[x] == st.place[x] && !ReportedReadable(t, x);
  }

  /** A socket whose place is untouched and whose holder, batch entry and stream are too. */
  lemma StandsStill(st: State, t: State, ended: set<Socket>, x: Socket)
    requires x in st.place && x in t.place && t.place[x] == st.place[x]
    requires t.streams == st.streams
    requires ReportedReadable(t, x) == ReportedReadable(st, x)
    requires st.place[x].Held? ==>
      (HeldBy(t, st.place[x].w, x) ==> HeldBy(st, st.place[x].w, x) && t.running[st.place[x].w] == st.running[st.place[x].w])
    ensures Weight(t, ended, x) <= Weight(st, ended, x)
  {
  }

  lemma DispatchIsLighter(st: State, ended: set<Socket>)
    requires Placed(st) && Enabled(st, DispatchNext)
    ensures Lighter(st, Next(st, DispatchNext), ended, st.batch[0].socket)
  {
    var e, t := st.batch[0], Next(st, DispatchNext);
    assert HasPlace(st, e.socket, Reported);
    assert e.event.Readable? ==> ReportedReadable(st, e.socket);
    assert t.place.Keys == st.place.Keys;
    forall x | x in st.place && x != e.socket ensures Weight(t, ended, x) <= Weight(st, ended, x) {
      LeavesBatch(st, x);
      StandsStill(st, t, ended, x);
    }
  }

  lemma LeavesBatch(st: State, x: Socket)
    requires Enabled(st, DispatchNext) && x != st.batch[0].socket
    ensures ReportedReadable(Next(st, DispatchNext), x) == ReportedReadable(st, x)
  {
    var t := Next(st, DispatchNext);
    assert forall i :: 0 <= i < |t.batch| ==> t.batch[i] == st.batch[i + 1];
    if i :| 0 <= i < |st.batch| && st.batch[i].socket == x && st.batch[i].event.Readable? {
      assert t.batch[i - 1] == st.batch[i];
    }
  }

  lemma TakeIsLighter(st: State, ended: set<Socket>, w: Worker)
    requires Placed(st) && Enabled(st, TakeJob(w))
    ensures Lighter(st, Next(st, TakeJob(w)), ended, st.net.jobs[0])
  {
    var s, t := st.net.jobs[0], Next(st, TakeJob(w));
    assert s in st.net.jobs && HasPlace(st, s, Queued);
    assert t.place.Keys == st.place.Keys;
    forall x | x in st.place && x != s ensures Weight(t, ended, x) <= Weight(st, ended, x) {
      assert ReportedReadable(t, x) == ReportedReadable(st, x);
      StandsStill(st, t, ended, x);
    }
  }

  lemma ClosingIsLess(st: State, ended: set<Socket>, a: Action)
    requires Placed(st) && Enabled(st, a) && Honest(st, ended, a) && (a.SwapExpired? || a.CloseNext?)
    ensures Measure(Next(st, a), ended) < Measure(st, ended)
  {
    var t := Next(st, a);
    assert t.place.Keys == st.place.Keys;
    forall x | x in st.place ensures Weight(t, ended, x) <= Weight(st, ended, x) {
      assert ReportedReadable(t, x) == ReportedReadable(st, x);
    }
    SameWeights(st, t, ended);
  }

  lemma LoopStepIsLess(st: State, ended: set<Socket>, a: Action)
    requires Placed(st) && Enabled(st, a) && Honest(st, ended, a)
    requires a.Report? || a.DispatchNext? || a.TakeJob?
    ensures Measure(Next(st, a), ended) < Measure(st, ended)
  {
    if a.Report? {
      ReportIsLighter(st, ended, a.events);
      LighterIsLess(st, Next(st, a), ended, a.events[0].socket);
    } else if a.DispatchNext? {
      DispatchIsLighter(st, ended);
      LighterIsLess(st, Next(st, a), ended, st.batch[0].socket);
    } else {
      TakeIsLighter(st, ended, a.w);
      LighterIsLess(st, Next(st, a), ended, st.net.jobs[0]);
    }
  }

  lemma HandlerStepIsLess(st: State, ended: set<Socket>, a: Action)
    requires Placed(st) && Enabled(st, a) && (a.Recv? || a.AppendChunk? || a.Effect?)
    ensures Measure(Next(st, a), ended) < Measure(st, ended)
  {
    var w, t := a.w, Next(st, a);
    assert HasPlace(st, st.running[w].socket, Held(w));
    AtIsLighter(st, ended, w, t.running[w].stage, t.streams[st.running[w].socket]);
    LighterIsLess(st, t, ended, st.running[w].socket);
  }

  lemma ClosedIsLess(st: State, ended: set<Socket>, w: Worker)
    requires Placed(st) && w in st.running
    ensures Measure(ReleaseClosed(st, w), ended) < Measure(st, ended)
  {
    ClosedIsLighter(st, ended, w);
    LighterIsLess(st, ReleaseClosed(st, w), ended, st.running[w].socket);
  }

  lemma RearmedIsLess(st: State, ended: set<Socket>, w: Worker)
    requires Placed(st) && w in st.running
    requires StageWeight(st.running[w].stage) > 6
          || (st.running[w].socket in st.net.connections ==> !Ready(st, ended, st.running[w].socket))
    ensures Measure(ReleaseRearmed(st, w), ended) < Measure(st, ended)
  {
    RearmedIsLighter(st, ended, w);
    LighterIsLess(st, ReleaseRearmed(st, w), ended, st.running[w].socket);
  }

  lemma PassedOnIsLess(st: State, ended: set<Socket>, w: Worker, m: Stream)
    requires Placed(st) && w in st.running && st.running[w].stage.Appended?
    requires m == StreamOf(st, w).(buffer := "")
    ensures Measure(At(st, w, Executing(StreamOf(st, w).buffer), m), ended) < Measure(st, ended)
  {
    var t := At(st, w, Executing(StreamOf(st, w).buffer), m);
    assert HasPlace(st, st.running[w].socket, Held(w));
    AtIsLighter(st, ended, w, Executing(StreamOf(st, w).buffer), m);
    LighterIsLess(st, t, ended, st.running[w].socket);
  }

  lemma JudgeIsLess(st: State, ended: set<Socket>, w: Worker)
    requires Placed(st) && Enabled(st, Judge(w))
    ensures Measure(Next(st, Judge(w)), ended) < Measure(st, ended)
  {
    var m := StreamOf(st, w);
    if |m.buffer| > MAX_COMMAND_BUFFER_LENGTH {
      ClosedIsLess(st, ended, w);
    } else if Text.NoNewline(m.buffer) {
      RearmedIsLess(st, ended, w);
    } else {
      PassedOnIsLess(st, ended, w, m.(buffer := ""));
    }
  }

  lemma ReturnIsLess(st: State, ended: set<Socket>, a: Action)
    requires Placed(st) && Enabled(st, a) && Honest(st, ended, a)
    requires a.RecvNothing? || a.RecvEnd? || a.Finish?
    ensures Measure(Next(st, a), ended) < Measure(st, ended)
  {
    if a.RecvEnd? {
      ClosedIsLess(st, ended, a.w);
    } else {
      RearmedIsLess(st, ended, a.w);
    }
  }

  /** Every step of the server leaves less work. */
  lemma StepIsLess(st: State, ended: set<Socket>, N: nat, a: Action)
    requires Placed(st) && Steps(st, ended, N, a)
    ensures Measure(Next(st, a), ended) < Measure(st, ended)
  {
    match a {
      case SwapExpired => ClosingIsLess(st, ended, a);
      case CloseNext => ClosingIsLess(st, ended, a);
      case Judge(w) => JudgeIsLess(st, ended, w);
      case Recv(_) => HandlerStepIsLess(st, ended, a);
      case AppendChunk(_) => HandlerStepIsLess(st, ended, a);
      case Effect(_) => HandlerStepIsLess(st, ended, a);
      case Report(_) => LoopStepIsLess(st, ended, a);
      case DispatchNext => LoopStepIsLess(st, ended, a);
      case TakeJob(_) => LoopStepIsLess(st, ended, a);
      case _ => ReturnIsLess(st, ended, a);
    }
  }

  // And there is always one more to be taken.

  /** A worker at work can go on. */
  lemma WorkerSteps(st: State, ended: set<Socket>, N: nat, w: Worker) returns (a: Action)
    requires Placed(st) && w in st.running && w < N
    ensures Steps(st, ended, N, a)
  {
    var s := st.running[w].socket;
    assert HasPlace(st, s, Held(w));
    match st.running[w].stage {
      case Taken =>
        if s in st.net.connections && HasData(st, s) {
          a := Recv(w);
        } else if s in ended {
          a := RecvEnd(w);
        } else {
          a := RecvNothing(w);
        }
      case Received(_) => a := AppendChunk(w);
      case Appended => a := Judge(w);
      case Executing(_) => a := Effect(w);
      case Acted(_) => a := Finish(w);
    }
  }

  /** While some registered socket is anywhere but armed with nothing to be read, the server
      can take a step. */
  lemma SomebodySteps(st: State, ended: set<Socket>, N: nat, s: Socket) returns (a: Action)
    requires Placed(st) && N > 0 && (forall w :: w in st.running ==> w < N)
    requires s in st.net.connections && (st.place[s].Armed? ==> Ready(st, ended, s))
    ensures Steps(st, ended, N, a)
  {
    assert Kept(st, s);
    if st.closing != [] {
      a := CloseNext;
    } else if st.batch != [] {
      a := DispatchNext;
    } else {
      match st.place[s] {
        case Armed => a := Report([Event(s, Readable)]);
        case Queued =>
          if 0 in st.running {
            a := WorkerSteps(st, ended, N, 0);
          } else {
            a := TakeJob(0);
          }
        case Held(w) => a := WorkerSteps(st, ended, N, w);
      }
    }
  }

  // Runs of the server alone.

  ghost predicate ServerRun(st: State, ended: set<Socket>, N: nat, run: seq<Action>)
    decreases |run|
  {
    run != [] ==> Steps(st, ended, N, run[0]) && ServerRun(Next(st, run[0]), ended, N, run[1..])
  }

  lemma {:induction false} ServerRunsAreShort(st: State, ended: set<Socket>, N: nat, run: seq<Action>)
    requires Placed(st) && ServerRun(st, ended, N, run) && (forall w :: w in st.running ==> w < N)
    ensures Legal(st, run) && Placed(After(st, run))
    ensures |run| + Measure(After(st, run), ended) <= Measure(st, ended)
    ensures forall w :: w in After(st, run).running ==> w < N
    decreases |run|
  {
    if run != [] {
      var t := Next(st, run[0]);
      StepIsLess(st, ended, N, run[0]);
      StepKeepsPlaces(st, run[0]);
      FewWorkers(st, N, run[0]);
      ServerRunsAreShort(t, ended, N, run[1..]);
    }
  }

  lemma FewWorkers(st: State, N: nat, a: Action)
    requires Enabled(st, a) && ServerStep(a, N) && (forall w :: w in st.running ==> w < N)
    ensures forall w :: w in Next(st, a).running ==> w < N
  {
  }

  ghost predicate Done(st: State, ended: set<Socket>, N: nat) {
    forall a :: !Steps(st, ended, N, a)
  }

  /** And it does come to that point. */
  lemma {:induction false} TheServerFinishes(st: State, ended: set<Socket>, N: nat) returns (run: seq<Action>)
    requires Placed(st)
    ensures ServerRun(st, ended, N, run) && Legal(st, run) && Done(After(st, run), ended, N)
    decreases Measure(st, ended)
  {
    if Done(st, ended, N) {
      run := [];
    } else {
      var a :| Steps(st, ended, N, a);
      StepIsLess(st, ended, N, a);
      StepKeepsPlaces(st, a);
      var rest := TheServerFinishes(Next(st, a), ended, N);
      run := [a] + rest;
      assert run[1..] == rest;
    }
  }

  /** From any reachable state, with any positive number of workers and nothing new from
      clients and timers: the server takes at most as many steps as the measure says, and
      when it can take no more, every connection still open is armed, its peer is there, and
      all that has arrived on it has been received and processed, as by a lone handler. */
  lemma TheServerCatchesUp(before: seq<Action>, run: seq<Action>, ended: set<Socket>, N: nat)
    requires Legal(INITIAL, before) && N > 0
    requires forall w :: w in After(INITIAL, before).running ==> w < N
    requires ServerRun(After(INITIAL, before), ended, N, run)
    ensures var st := After(INITIAL, before);
            && |run| <= Measure(st, ended)
            && Legal(st, run)
            && var t := After(st, run);
               Done(t, ended, N) ==> forall s :: s in t.net.connections ==>
                 && IsArmed(t, s) && s !in ended && s in t.streams
                 && t.streams[s].count == |t.streams[s].arrived|
                 && t.streams[s].executed == ReceiveAll(FRESH, t.streams[s].arrived).executed
  {
    RunKeepsPlaces(INITIAL, before);
    RunKeepsSerial(INITIAL, before);
    var st := After(INITIAL, before);
    ServerRunsAreShort(st, ended, N, run);
    RunKeepsSerial(st, run);
    var t := After(st, run);
    if Done(t, ended, N) {
      forall s | s in t.net.connections
        ensures IsArmed(t, s) && s !in ended && s in t.streams
        ensures t.streams[s].count == |t.streams[s].arrived|
        ensures t.streams[s].executed == ReceiveAll(FRESH, t.streams[s].arrived).executed
      {
        ArmedAndRead(t, ended, N, s);
      }
    }
  }

  lemma ArmedAndRead(t: State, ended: set<Socket>, N: nat, s: Socket)
    requires Placed(t) && Serial(t) && N > 0 && (forall w :: w in t.running ==> w < N)
    requires Done(t, ended, N) && s in t.net.connections
    ensures IsArmed(t, s) && s !in ended && s in t.streams
    ensures t.streams[s].count == |t.streams[s].arrived|
    ensures t.streams[s].executed == ReceiveAll(FRESH, t.streams[s].arrived).executed
  {
    assert Kept(t, s);
    if t.place[s].Armed? ==> Ready(t, ended, s) {
      var a := SomebodySteps(t, ended, N, s);
      assert false;
    }
    var m := t.streams[s];
    assert Consistent(m, WorkOn(t, s), true);
    assert m.arrived[..m.count] == m.arrived;
  }
}
