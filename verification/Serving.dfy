/** The message handler over many calls: it collects the bytes of each client as the lone
    handler of one connection does, executes exactly the messages that makes, and closes the
    connection exactly when that one would. */
module Serving {
  import opened Text
  import opened KeyValue
  import opened Buckets
  import opened Protocol
  import opened SequentialServer

  /** One call with bytes: the buffer, the message executed if any, and whether the socket is
      kept are those of the connection on its own. */
  lemma HandleIsReceive(s: Session, table: Table, log: string, chunk: string)
    requires s.open && |table| > 0
    ensures var o, t := Handle(s.buffer, table, log, Bytes(chunk)), Receive(s, chunk);
            && o.keep == t.open
            && (t.open ==> o.buffer == t.buffer)
            && t.executed == s.executed + Executed(s.buffer, Bytes(chunk))
  {
  }

  /** One call without bytes: nothing is touched or answered, and the socket is kept only if
      there was merely nothing to read. */
  lemma HandleWithoutBytes(buffer: string, table: Table, log: string, received: Received)
    requires |table| > 0 && !received.Bytes?
    ensures Handle(buffer, table, log, received)
         == Outcome(buffer, table, log, None, received == WouldBlock)
    ensures Executed(buffer, received) == []
  {
  }

  /** What executing messages leaves: the table, the log, and the replies sent. */
  datatype Done = Done(table: Table, log: string, replies: seq<string>)

  function ExecuteOne(d: Done, message: string): (r: Done)
    requires |d.table| > 0
    ensures |r.table| > 0
  {
    var e := Execution(d.table, d.log, message);
    Done(e.table, e.log, d.replies + [e.reply])
  }

  function ExecuteAll(d: Done, messages: seq<string>): (r: Done)
    requires |d.table| > 0
    ensures |r.table| > 0
    decreases |messages|
  {
    if messages == [] then d else ExecuteAll(ExecuteOne(d, messages[0]), messages[1..])
  }

  lemma {:induction false} ExecuteMore(d: Done, a: seq<string>, b: seq<string>)
    requires |d.table| > 0
    ensures ExecuteAll(d, a + b) == ExecuteAll(ExecuteAll(d, a), b)
    decreases |a|
  {
    if a == [] {
      assert a + b == b;
    } else {
      assert (a + b)[1..] == a[1..] + b;
      ExecuteMore(ExecuteOne(d, a[0]), a[1..], b);
    }
  }

  /** A handler called with one chunk after the other until it closes the socket: its buffer,
      the messages it has executed, and what that has left. */
  datatype Fed = Fed(keep: bool, buffer: string, executed: seq<string>, done: Done)

  function FeedOne(f: Fed, chunk: string): (r: Fed)
    requires |f.done.table| > 0
    ensures |r.done.table| > 0
  {
    var o := Handle(f.buffer, f.done.table, f.done.log, Bytes(chunk));
    Fed(o.keep, o.buffer, f.executed + Executed(f.buffer, Bytes(chunk)),
        Done(o.table, o.log, f.done.replies + if o.reply.Some? then [o.reply.value] else []))
  }

  function Feed(f: Fed, chunks: seq<string>): (r: Fed)
    requires |f.done.table| > 0
    decreases |chunks|
  {
    if chunks == [] || !f.keep then f else Feed(FeedOne(f, chunks[0]), chunks[1..])
  }

  /** A call executes what it says it does, and replies to that. */
  lemma CallExecutes(f: Fed, chunk: string)
    requires |f.done.table| > 0
    ensures FeedOne(f, chunk).done == ExecuteAll(f.done, Executed(f.buffer, Bytes(chunk)))
  {
    var now := Executed(f.buffer, Bytes(chunk));
    if now == [] {
      assert f.done.replies + [] == f.done.replies;
    } else {
      assert now[1..] == [];
      assert ExecuteAll(f.done, now) == ExecuteOne(f.done, now[0]);
    }
  }

  /** The handler so far is as the connection on its own, and all it has done to table and log
      is to execute its messages. */
  predicate InStep(d: Done, f: Fed, h: Session)
    requires |d.table| > 0
  {
    && |f.done.table| > 0
    && f.keep == h.open && (h.open ==> f.buffer == h.buffer)
    && f.executed == h.executed && f.done == ExecuteAll(d, f.executed)
  }

  lemma FeedOneInStep(d: Done, f: Fed, h: Session, chunk: string)
    requires |d.table| > 0 && InStep(d, f, h) && h.open
    ensures InStep(d, FeedOne(f, chunk), Receive(h, chunk))
  {
    HandleIsReceive(h, f.done.table, f.done.log, chunk);
    CallExecutes(f, chunk);
    ExecuteMore(d, f.executed, Executed(f.buffer, Bytes(chunk)));
  }

  /** Any number of chunks. */
  lemma {:induction false} FeedInStep(d: Done, f: Fed, h: Session, chunks: seq<string>)
    requires |d.table| > 0 && InStep(d, f, h)
    ensures InStep(d, Feed(f, chunks), ReceiveAll(h, chunks))
    decreases |chunks|
  {
    if !h.open {
      ClosedStaysClosed(h, chunks);
    } else if chunks != [] {
      FeedOneInStep(d, f, h, chunks[0]);
      FeedInStep(d, FeedOne(f, chunks[0]), Receive(h, chunks[0]), chunks[1..]);
    }
  }

  /** A line of at most 2024 bytes, however cut: executed once, whole, answered once, the
      buffer empty again and the socket kept.  A longer one: nothing is executed, and the
      socket is closed. */
  lemma CutLineIsExecutedOnce(table: Table, log: string, chunks: seq<string>, line: string)
    requires |table| > 0 && IsLine(line) && CutOf(chunks, line)
    ensures var f, e := Feed(Fed(true, "", [], Done(table, log, [])), chunks), Execution(table, log, line);
            if |line| <= 2024
            then f == Fed(true, "", [line], Done(e.table, e.log, [e.reply]))
            else !f.keep && f.executed == [] && f.done == Done(table, log, [])
  {
    var d := Done(table, log, []);
    FeedInStep(d, Fed(true, "", [], d), Session(true, "", []), chunks);
    FragmentationIndependence([], chunks, line);
    assert [] + [line] == [line] && [line][1..] == [];
    assert ExecuteAll(d, [line]) == ExecuteOne(d, line);
    assert [] + [Execution(table, log, line).reply] == [Execution(table, log, line).reply];
  }

  // Many clients at once.

  /** One client as the lone handler of its connection would see it: fresh when it connects,
      closed when it ends, fails, overflows or the server restarts. */
  function Track(h: Session, events: seq<Event>, s: Socket): Session
    decreases |events|
  {
    if events == [] then h else Track(TrackOne(h, events[0], s), events[1..], s)
  }

  function TrackOne(h: Session, e: Event, s: Socket): Session {
    match e
    case Connect(x) => if x == s then Session(true, "", []) else h
    case Message(x, received) =>
      if x != s || !h.open then h
      else (match received
            case Bytes(chunk) => Receive(h, chunk)
            case WouldBlock => h
            case _ => h.(open := false))
    case TakeSnapshot => h
    case Restart => h.(open := false)
  }

  /** The messages a run executes for the client since it last connected. */
  function ExecutedFor(w: World, done: seq<string>, events: seq<Event>, s: Socket): seq<string>
    requires |w.table| > 0
    decreases |events|
  {
    if events == [] then done
    else
      var more := if events[0].Message? && events[0].s == s && s in w.buffers
                  then done + Executed(w.buffers[s], events[0].received) else done;
      ExecutedFor(Step(w, events[0]), if events[0] == Connect(s) then [] else more, events[1..], s)
  }

  predicate Tracks(w: World, h: Session, s: Socket) {
    (s in w.buffers <==> h.open) && (h.open ==> w.buffers[s] == h.buffer)
  }

  lemma StepTracks(w: World, h: Session, e: Event, s: Socket)
    requires |w.table| > 0 && Tracks(w, h, s)
    ensures Tracks(Step(w, e), TrackOne(h, e, s), s)
    ensures e.Message? && e.s == s && s in w.buffers ==>
      TrackOne(h, e, s).executed == h.executed + Executed(w.buffers[s], e.received)
  {
    if e.Message? && e.s == s && s in w.buffers {
      if e.received.Bytes? {
        HandleIsReceive(h, w.table, w.log, e.received.chunk);
      } else {
        HandleWithoutBytes(h.buffer, w.table, w.log, e.received);
        assert h.executed + [] == h.executed;
      }
    }
  }

  lemma {:induction false} RunTracks(w: World, h: Session, events: seq<Event>, s: Socket)
    requires |w.table| > 0 && Tracks(w, h, s)
    ensures Tracks(Run(w, events), Track(h, events, s), s)
    ensures ExecutedFor(w, h.executed, events, s) == Track(h, events, s).executed
    decreases |events|
  {
    if events != [] {
      StepTracks(w, h, events[0], s);
      RunTracks(Step(w, events[0]), TrackOne(h, events[0], s), events[1..], s);
    }
  }

  /** In every run, whatever the other clients send meanwhile: each client is registered, has
      the buffer, and has had executed the messages of the connection on its own. */
  lemma EveryClientIsServed(events: seq<Event>, s: Socket)
    ensures var w, h := Run(INITIAL, events), Track(Session(false, "", []), events, s);
            && (s in w.buffers <==> h.open)
            && (h.open ==> w.buffers[s] == h.buffer)
            && ExecutedFor(INITIAL, [], events, s) == h.executed
  {
    RunTracks(INITIAL, Session(false, "", []), events, s);
  }

  function ChunksOf(events: seq<Event>, s: Socket): seq<string>
    decreases |events|
  {
    if events == [] then []
    else
      (if events[0].Message? && events[0].s == s && events[0].received.Bytes? then [events[0].received.chunk] else [])
      + ChunksOf(events[1..], s)
  }

  /** The server stays up, and the client neither reconnects nor ends. */
  predicate Undisturbed(events: seq<Event>, s: Socket) {
    forall i :: 0 <= i < |events| ==>
      && events[i] != Restart && events[i] != Connect(s)
      && events[i] != Message(s, Finished) && events[i] != Message(s, Failed)
  }

  lemma {:induction false} TrackIsReceiveAll(h: Session, events: seq<Event>, s: Socket)
    requires Undisturbed(events, s)
    ensures Track(h, events, s) == ReceiveAll(h, ChunksOf(events, s))
    decreases |events|
  {
    if events != [] {
      var rest := ChunksOf(events[1..], s);
      assert events[0] != Restart && events[0] != Connect(s);
      assert events[0] != Message(s, Finished) && events[0] != Message(s, Failed);
      assert forall i :: 0 <= i < |events[1..]| ==> events[1..][i] == events[i + 1];
      TrackIsReceiveAll(TrackOne(h, events[0], s), events[1..], s);
      if events[0].Message? && events[0].s == s && events[0].received.Bytes? {
        assert ([events[0].received.chunk] + rest)[1..] == rest;
        if !h.open {
          assert TrackOne(h, events[0], s) == h;
        }
      } else {
        assert [] + rest == rest;
      }
    }
  }

  lemma FreshLines(cuts: seq<seq<string>>, lines: seq<string>)
    requires |cuts| == |lines|
    requires forall i :: 0 <= i < |lines| ==> IsLine(lines[i]) && CutOf(cuts[i], lines[i])
    ensures var t := ReceiveAll(Session(true, "", []), ConcatAll(cuts));
            t.executed == Accepted(lines) && (t.open <==> Accepted(lines) == lines) && (t.open ==> t.buffer == "")
  {
    StreamOfLines([], cuts, lines);
    assert [] + Accepted(lines) == Accepted(lines);
  }

  /** A client that connects and sends lines, each cut at will, among whatever others do: the
      lines before the first overlong one are executed for it, in order, and it is kept, with
      an empty buffer, exactly when there is no such line. */
  lemma LinesAreServed(before: seq<Event>, events: seq<Event>, s: Socket, cuts: seq<seq<string>>, lines: seq<string>)
    requires Undisturbed(events, s) && ChunksOf(events, s) == ConcatAll(cuts)
    requires |cuts| == |lines|
    requires forall i :: 0 <= i < |lines| ==> IsLine(lines[i]) && CutOf(cuts[i], lines[i])
    ensures var w0 := Step(Run(INITIAL, before), Connect(s));
            var w := Run(w0, events);
            && ExecutedFor(w0, [], events, s) == Accepted(lines)
            && (s in w.buffers <==> Accepted(lines) == lines)
            && (s in w.buffers ==> w.buffers[s] == "")
  {
    var w0, h := Step(Run(INITIAL, before), Connect(s)), Session(true, "", []);
    RunTracks(w0, h, events, s);
    TrackIsReceiveAll(h, events, s);
    FreshLines(cuts, lines);
  }
}
