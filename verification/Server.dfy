/** One command at a time: the message handler, the snapshot, the startup, and whole runs of
    them down to the bytes of the two files. */
module SequentialServer {
  import opened Text
  import opened KeyValue
  import opened LogFormat
  import opened Buckets
  import opened HashTable
  import opened Storage
  import opened Protocol
  import C = Connections

  const TABLE_SIZE := 100

  /** What `recv` reported. */
  datatype Received = Bytes(chunk: string) | Finished | WouldBlock | Failed

  /** What the handler leaves behind: the command buffer, the table, the log, the reply sent
      (if any), and whether the socket is re-armed or closed. */
  datatype Outcome = Outcome(buffer: string, table: Table, log: string, reply: Option<string>, keep: bool)

  function Handle(buffer: string, table: Table, log: string, received: Received): (o: Outcome)
    requires |table| > 0
    ensures |o.table| == |table|
  {
    match received
    case Finished => Outcome(buffer, table, log, None, false)
    case Failed => Outcome(buffer, table, log, None, false)
    case WouldBlock => Outcome(buffer, table, log, None, true)
    case Bytes(chunk) =>
      match Frame(buffer, chunk)
      case TooLong => Outcome(buffer + chunk, table, log, None, false)
      case Wait(all) => Outcome(all, table, log, None, true)
      case Execute(message) =>
        var e := Execution(table, log, message);
        Outcome("", e.table, e.log, Some(e.reply), true)
  }

  /** `found` is "" when the table has no value for the key. */
  function GetReply(found: string): string {
    if found != "" then FOUND + found + "\n" else NOT_FOUND
  }

  datatype Effect = Effect(table: Table, log: string, reply: string)

  function Execution(table: Table, log: string, message: string): (e: Effect)
    requires |table| > 0
    ensures |e.table| == |table|
  {
    match Parse(message)
    case PutValue(k, v) => Effect(Put(table, k, v), log + (LogLine("INSERT", k, v) + "\n"), INSERTED)
    case MissingValue => Effect(table, log, EMPTY_VALUE)
    case GetValue(k) =>
      var found := ValueOf(Get(table, k));
      Effect(table, log, GetReply(found))
    case RemoveKey(k) => Effect(Drop(table, k), log + (LogLine("DELETE", k, "") + "\n"), DELETED)
    case Unknown => Effect(table, log, NO_COMMAND)
  }

  /** The disk holds what memory holds: a restart now would rebuild the same store. */
  ghost predicate Durable(table: Table, log: string, snapshot: Option<string>) {
    && WellFormed(table)
    && LineTerminated(log)
    && TokenStore(Abs(table))
    && Recover(snapshot, log) == Abs(table)
  }

  lemma LogKeepsRecovery(snapshot: Option<string>, log: string, op: Op)
    requires LineTerminated(log) && Loggable(op)
    ensures LineTerminated(log + (EncodeOp(op) + "\n"))
    ensures Recover(snapshot, log + (EncodeOp(op) + "\n")) == Apply(Recover(snapshot, log), op)
  {
    LogAppend(log, op);
    var base := if snapshot.Some? then Replay(DecodeSnapshot(Lines(snapshot.value)), map[]) else map[];
    ReplayAppend(DecodeLog(Lines(log)), op, base);
  }

  lemma MutationKeepsDurable(table: Table, log: string, snapshot: Option<string>, op: Op)
    requires Durable(table, log, snapshot)
    requires Loggable(op) && (op.Insert? ==> IsToken(op.key) && IsToken(op.value))
    ensures Durable(ApplyTable(table, op), log + (EncodeOp(op) + "\n"), snapshot)
    ensures Abs(ApplyTable(table, op)) == Apply(Abs(table), op)
  {
    ApplyRefines(table, op);
    LogKeepsRecovery(snapshot, log, op);
    assert TokenStore(Apply(Abs(table), op));
  }

  /** Because no stored value is empty, the test for an empty string decides membership. */
  lemma GetIsDecisive(table: Table, k: string)
    requires WellFormed(table) && TokenStore(Abs(table))
    ensures ValueOf(Get(table, k)) != "" <==> k in Abs(table)
    ensures k in Abs(table) ==> ValueOf(Get(table, k)) == Abs(table)[k]
  {
    AbsLookup(table, k);
  }

  /** Executing a message does to the table what it does to the plain store, replies what
      the plain store calls for (a GET says "dont exist" exactly when the key is absent),
      and leaves the disk in step with memory. */
  lemma ExecutionMeaning(table: Table, log: string, snapshot: Option<string>, message: string)
    requires Durable(table, log, snapshot)
    ensures var e := Execution(table, log, message);
            && Durable(e.table, e.log, snapshot)
            && Abs(e.table) == StoreAfter(Abs(table), message)
            && e.reply == Reply(Abs(table), message)
  {
    var m := MutationOf(message);
    if m.Some? {
      MutationKeepsDurable(table, log, snapshot, m.value);
    } else if Parse(message).GetValue? {
      GetIsDecisive(table, Parse(message).key);
    }
  }

  lemma HandleMeaning(buffer: string, table: Table, log: string, snapshot: Option<string>, received: Received)
    requires Durable(table, log, snapshot)
    ensures var o := Handle(buffer, table, log, received);
            && Durable(o.table, o.log, snapshot)
            && Abs(o.table) == (if received.Bytes? && Frame(buffer, received.chunk).Execute?
                                then StoreAfter(Abs(table), Frame(buffer, received.chunk).message)
                                else Abs(table))
            && o.reply == (if received.Bytes? && Frame(buffer, received.chunk).Execute?
                           then Some(Reply(Abs(table), Frame(buffer, received.chunk).message))
                           else None)
  {
    if received.Bytes? && Frame(buffer, received.chunk).Execute? {
      ExecutionMeaning(table, log, snapshot, Frame(buffer, received.chunk).message);
    }
  }

  lemma EntriesAreTokens(t: Table)
    requires WellFormed(t) && TokenStore(Abs(t))
    ensures TokenEntries(Enumerate(t))
  {
    EnumerateIsComplete(t);
  }

  /** A completed snapshot keeps the disk in step, with an empty log. */
  lemma SnapshotKeepsDurable(table: Table, log: string, snapshot: Option<string>)
    requires Durable(table, log, snapshot)
    ensures Durable(table, "", Some(SnapshotText(Enumerate(table))))
  {
    EnumerateIsComplete(table);
    EntriesAreTokens(table);
    CrashAfterSnapshot(snapshot, log, Abs(table), Enumerate(table));
  }

  /** Starting over from the files rebuilds the store that was live. */
  lemma RestartKeepsDurable(table: Table, log: string, snapshot: Option<string>)
    requires Durable(table, log, snapshot)
    ensures Durable(LoadTable(snapshot, log, EmptyTable(TABLE_SIZE)), log, snapshot)
    ensures Abs(LoadTable(snapshot, log, EmptyTable(TABLE_SIZE))) == Abs(table)
  {
    EmptyTableMeaning(TABLE_SIZE);
    LoadRefinesRecover(snapshot, log, EmptyTable(TABLE_SIZE));
  }

  class Connection {
    const socket: C.Socket
    const sessionKey: C.SessionKey
    var commandBuffer: string

    constructor (s: C.Socket, key: C.SessionKey)
      ensures socket == s && sessionKey == key && commandBuffer == ""
    {
      socket, sessionKey := s, key;
      commandBuffer := "";
    }
  }

  class Server {
    const hashMap: HashMap
    const pers: Persistence
    const net: C.ConnectionServer

    ghost predicate Valid()
      reads this, hashMap, hashMap.Repr, pers
    {
      && hashMap.Valid() && hashMap.capacity == TABLE_SIZE
      && pers !in hashMap.Repr && this as object !in hashMap.Repr
      && net !in hashMap.Repr && net.eventLoop !in hashMap.Repr && net.userSessionManager !in hashMap.Repr
    }

    constructor (persistence: Persistence)
      ensures Valid() && pers == persistence
      ensures fresh(hashMap) && fresh(hashMap.Repr)
      ensures hashMap.contents == EmptyTable(TABLE_SIZE) && hashMap.capacity == 100
      ensures fresh(net) && net.View() == C.Net(map[], map[], map[], [], [])
    {
      pers := persistence;
      net := new C.ConnectionServer();
      hashMap := new HashMap(TABLE_SIZE);
    }

    /** The startup: loads what the files hold. */
    method Start()
      requires Valid()
      modifies hashMap.Repr
      ensures Valid() && fresh(hashMap.Repr - old(hashMap.Repr))
      ensures hashMap.contents == LoadTable(pers.snapshot, pers.log, old(hashMap.contents))
    {
      pers.LoadDataOnStartup(hashMap);
    }

    /** The snapshot callback. */
    method TakeSnapshot()
      requires Valid()
      modifies pers
      ensures Valid() && hashMap.contents == old(hashMap.contents)
      ensures pers.snapshot == Some(SnapshotText(Enumerate(hashMap.contents))) && pers.log == ""
    {
      pers.CreateSnapshot(hashMap);
    }

    /** The whole handler: a complete message counts as activity of the session and is
        executed; in the end the socket is re-armed, or closed with its session. */
    method MessageHandler(conn: Connection, received: Received, now: real)
      returns (reply: Option<string>, keep: bool)
      requires Valid() && conn !in hashMap.Repr
      modifies hashMap.Repr, pers, conn, net, net.eventLoop, net.userSessionManager
      ensures Valid() && fresh(hashMap.Repr - old(hashMap.Repr))
      ensures Outcome(conn.commandBuffer, hashMap.contents, pers.log, reply, keep)
           == Handle(old(conn.commandBuffer), old(hashMap.contents), old(pers.log), received)
      ensures pers.snapshot == old(pers.snapshot)
      ensures net.View() == (if keep then C.Rearm(old(net.View()), conn.socket) else C.Close(old(net.View()), conn.socket))
      ensures forall k :: k in net.userSessionManager.sessions ==> k in old(net.userSessionManager.sessions)
      ensures forall k :: k in net.userSessionManager.sessions ==>
        (k != conn.sessionKey || Executed(old(conn.commandBuffer), received) == [] ==>
           net.userSessionManager.sessions[k] == old(net.userSessionManager.sessions)[k])
      ensures conn.sessionKey in net.userSessionManager.sessions && Executed(old(conn.commandBuffer), received) != [] ==>
        forall later :: net.userSessionManager.sessions[conn.sessionKey].IsExpired(later)
          <==> later - now > old(net.userSessionManager.sessions)[conn.sessionKey].maxIdle
    {
      if received.Bytes? && Frame(conn.commandBuffer, received.chunk).Execute? {
        net.userSessionManager.UpdateActivity(conn.sessionKey, now);
      }
      reply, keep := Process(conn, received);
      if keep {
        net.RearmSocket(conn.socket);
      } else {
        net.CloseConnection(conn.socket);
      }
    }

    /** What the handler does with the bytes; `keep` says whether it ends in a re-arm. */
    method Process(conn: Connection, received: Received) returns (reply: Option<string>, keep: bool)
      requires Valid() && conn !in hashMap.Repr
      modifies hashMap.Repr, pers, conn
      ensures Valid() && fresh(hashMap.Repr - old(hashMap.Repr))
      ensures Outcome(conn.commandBuffer, hashMap.contents, pers.log, reply, keep)
           == Handle(old(conn.commandBuffer), old(hashMap.contents), old(pers.log), received)
      ensures pers.snapshot == old(pers.snapshot)
    {
      reply := None;
      match received {
        case Finished => keep := false;
        case Failed => keep := false;
        case WouldBlock => keep := true;
        case Bytes(chunk) =>
          conn.commandBuffer := conn.commandBuffer + chunk;
          if |conn.commandBuffer| > MAX_COMMAND_BUFFER_LENGTH {
            keep := false;
          } else if NoNewline(conn.commandBuffer) {
            keep := true;
          } else {
            var message := conn.commandBuffer;
            conn.commandBuffer := "";
            var text := ExecuteCommand(message);
            reply, keep := Some(text), true;
          }
      }
    }

    /** The two steps of a mutation: first the map, then the log.  `between` is what table and
        log are in the meantime. */
    method MutateThenLog(op: Op) returns (ghost between: (Table, string))
      requires Valid()
      modifies hashMap.Repr, pers
      ensures Valid() && fresh(hashMap.Repr - old(hashMap.Repr))
      ensures hashMap.contents == ApplyTable(old(hashMap.contents), op)
      ensures pers.log == old(pers.log) + (EncodeOp(op) + "\n") && pers.snapshot == old(pers.snapshot)
      ensures between == (ApplyTable(old(hashMap.contents), op), old(pers.log))
    {
      match op {
        case Insert(key, value) =>
          hashMap.Insert(key, value);
          between := (hashMap.contents, pers.log);
          pers.AppendToLog("INSERT", key, value);
        case Delete(key) =>
          hashMap.Remove(key);
          between := (hashMap.contents, pers.log);
          pers.AppendToLog("DELETE", key, "");
      }
    }

    /** Reads the words of a message; the value only if the command is INSERT. */
    static method Words(message: string) returns (request: Request)
      ensures request == Parse(message)
    {
      var (command, r1) := Extract(message);
      var (key, r2) := Extract(r1);
      if command == "INSERT" {
        var (value, _) := Extract(r2);
        request := if value == "" then MissingValue else PutValue(key, value);
      } else if command == "GET" {
        request := GetValue(key);
      } else if command == "DELETE" {
        request := RemoveKey(key);
      } else {
        request := Unknown;
      }
    }

    method ExecuteCommand(message: string) returns (reply: string)
      requires Valid()
      modifies hashMap.Repr, pers
      ensures Valid() && fresh(hashMap.Repr - old(hashMap.Repr))
      ensures Effect(hashMap.contents, pers.log, reply) == Execution(old(hashMap.contents), old(pers.log), message)
      ensures pers.snapshot == old(pers.snapshot)
    {
      var request := Words(message);
      match request {
        case PutValue(key, value) =>
          ghost var _ := MutateThenLog(Op.Insert(key, value));
          reply := INSERTED;
        case MissingValue => reply := EMPTY_VALUE;
        case GetValue(key) =>
          var resultGet := hashMap.Get(key);
          reply := GetReply(resultGet);
        case RemoveKey(key) =>
          ghost var _ := MutateThenLog(Delete(key));
          reply := DELETED;
        case Unknown => reply := NO_COMMAND;
      }
    }
  }

  // Whole runs.

  type Socket = nat

  /** Memory, disk, and the messages executed so far. */
  datatype World = World(table: Table, log: string, snapshot: Option<string>,
                         buffers: map<Socket, string>, executed: seq<string>)

  datatype Event = Connect(s: Socket) | Message(s: Socket, received: Received) | TakeSnapshot | Restart

  const INITIAL := World(EmptyTable(TABLE_SIZE), "", None, map[], [])

  function Step(w: World, e: Event): (w': World)
    requires |w.table| > 0
    ensures |w'.table| > 0
  {
    match e
    case Connect(s) => w.(buffers := w.buffers[s := ""])
    case Message(s, received) =>
      if s !in w.buffers then w
      else
        var o := Handle(w.buffers[s], w.table, w.log, received);
        w.(table := o.table, log := o.log,
           buffers := if o.keep then w.buffers[s := o.buffer] else w.buffers - {s},
           executed := w.executed + Executed(w.buffers[s], received))
    case TakeSnapshot => w.(log := "", snapshot := Some(SnapshotText(Enumerate(w.table))))
    case Restart =>
      w.(table := LoadTable(w.snapshot, w.log, EmptyTable(TABLE_SIZE)), buffers := map[])
  }

  function Executed(buffer: string, received: Received): seq<string> {
    if received.Bytes? && Frame(buffer, received.chunk).Execute?
    then [Frame(buffer, received.chunk).message] else []
  }

  function Run(w: World, events: seq<Event>): (w': World)
    requires |w.table| > 0
    ensures |w'.table| > 0
    decreases |events|
  {
    if events == [] then w else Run(Step(w, events[0]), events[1..])
  }

  /** The plain store a list of messages builds, one after the other, from nothing. */
  function Effects(messages: seq<string>): Store {
    if messages == [] then map[]
    else StoreAfter(Effects(messages[..|messages| - 1]), messages[|messages| - 1])
  }

  /** Memory is what the executed messages say, and the disk would bring it back. */
  ghost predicate Faithful(w: World) {
    && |w.table| == TABLE_SIZE
    && Durable(w.table, w.log, w.snapshot)
    && Abs(w.table) == Effects(w.executed)
  }

  lemma EffectsSnoc(messages: seq<string>, m: string)
    ensures Effects(messages + [m]) == StoreAfter(Effects(messages), m)
  {
    assert (messages + [m])[..|messages|] == messages;
  }

  lemma StepKeepsFaithful(w: World, e: Event)
    requires Faithful(w)
    ensures Faithful(Step(w, e))
  {
    match e {
      case Connect(s) =>
      case Message(s, received) =>
        if s in w.buffers {
          HandleMeaning(w.buffers[s], w.table, w.log, w.snapshot, received);
          if Executed(w.buffers[s], received) != [] {
            EffectsSnoc(w.executed, Frame(w.buffers[s], received.chunk).message);
          } else {
            assert w.executed + [] == w.executed;
          }
        }
      case TakeSnapshot =>
        SnapshotKeepsDurable(w.table, w.log, w.snapshot);
      case Restart =>
        RestartKeepsDurable(w.table, w.log, w.snapshot);
    }
  }

  lemma {:induction false} RunKeepsFaithful(w: World, events: seq<Event>)
    requires Faithful(w)
    ensures Faithful(Run(w, events))
    decreases |events|
  {
    if events != [] {
      StepKeepsFaithful(w, events[0]);
      RunKeepsFaithful(Step(w, events[0]), events[1..]);
    }
  }

  lemma InitialIsFaithful()
    ensures Faithful(INITIAL)
  {
    EmptyTableMeaning(TABLE_SIZE);
    assert Lines("") == [] && DecodeLog([]) == [];
  }

  /** After any messages, snapshots and restarts whatever, memory holds exactly what the
      executed commands add up to, and reading the bytes of the two files back into a fresh
      table rebuilds exactly that. */
  lemma RecoveryEqualsLive(events: seq<Event>)
    ensures var w := Run(INITIAL, events);
            && WellFormed(w.table)
            && Abs(w.table) == Effects(w.executed)
            && Recover(w.snapshot, w.log) == Effects(w.executed)
            && var fresh' := LoadTable(w.snapshot, w.log, EmptyTable(TABLE_SIZE));
               WellFormed(fresh') && Abs(fresh') == Effects(w.executed)
  {
    InitialIsFaithful();
    RunKeepsFaithful(INITIAL, events);
    var w := Run(INITIAL, events);
    RestartKeepsDurable(w.table, w.log, w.snapshot);
  }

  /** In every reachable state the next command gets the reply the plain store calls for; in
      particular a GET says "dont exist" exactly when the key is absent. */
  lemma RepliesAreRight(events: seq<Event>, buffer: string, chunk: string)
    requires Frame(buffer, chunk).Execute?
    ensures var w := Run(INITIAL, events);
            Handle(buffer, w.table, w.log, Bytes(chunk)).reply
              == Some(Reply(Effects(w.executed), Frame(buffer, chunk).message))
  {
    InitialIsFaithful();
    RunKeepsFaithful(INITIAL, events);
    var w := Run(INITIAL, events);
    HandleMeaning(buffer, w.table, w.log, w.snapshot, Bytes(chunk));
  }

  lemma CrashInWorld(w: World, a: seq<Entry>, b: seq<Entry>)
    requires Faithful(w) && Enumerate(w.table) == a + b
    ensures var live, recovered := Effects(w.executed), Recover(Some(SnapshotText(a)), w.log);
            var mentioned := Touched(DecodeLog(Lines(w.log)));
            && (forall k :: k in recovered ==> k in live && live[k] == recovered[k])
            && (forall k :: k in mentioned ==> Lookup(recovered, k) == Lookup(live, k))
            && (recovered == live <==> Keys(b) <= mentioned)
  {
    EnumerateIsComplete(w.table);
    EntriesAreTokens(w.table);
    assert forall i :: 0 <= i < |a| ==> a[i] == (a + b)[i];
    CrashInsideSnapshotFile(w.snapshot, w.log, Abs(w.table), a, b);
  }

  /** A crash during a snapshot in any reachable state, after the lines `a` and before the
      lines `b`: exactly the keys of `b` the log does not mention are lost. */
  lemma CrashDuringSnapshotInRun(events: seq<Event>, a: seq<Entry>, b: seq<Entry>)
    requires Enumerate(Run(INITIAL, events).table) == a + b
    ensures var w := Run(INITIAL, events);
            var live, recovered := Effects(w.executed), Recover(Some(SnapshotText(a)), w.log);
            var mentioned := Touched(DecodeLog(Lines(w.log)));
            && (forall k :: k in recovered ==> k in live && live[k] == recovered[k])
            && (forall k :: k in mentioned ==> Lookup(recovered, k) == Lookup(live, k))
            && (recovered == live <==> Keys(b) <= mentioned)
  {
    InitialIsFaithful();
    RunKeepsFaithful(INITIAL, events);
    CrashInWorld(Run(INITIAL, events), a, b);
  }

  function OneCycle(w: World): (w': World)
    requires |w.table| > 0
    ensures |w'.table| > 0
  {
    Step(Step(w, TakeSnapshot), Restart)
  }

  lemma CycleRuns(w: World, rest: seq<Event>)
    requires |w.table| > 0
    ensures Run(w, [TakeSnapshot, Restart] + rest) == Run(OneCycle(w), rest)
  {
    assert ([TakeSnapshot, Restart] + rest)[1..] == [Restart] + rest;
    assert ([Restart] + rest)[1..] == rest;
  }

  lemma OneCycleTable(w: World)
    requires Faithful(w)
    ensures OneCycle(w).table == Reversed(w.table)
  {
    EntriesAreTokens(w.table);
    SnapshotCycleReverses(w.table);
  }

  /** Two rounds of snapshot and restart bring back, from the bytes of the files, the very
      chains that were in memory. */
  lemma SnapshotAndRestartTwice(events: seq<Event>)
    ensures var w := Run(INITIAL, events);
            Run(w, [TakeSnapshot, Restart] + [TakeSnapshot, Restart]).table == w.table
  {
    InitialIsFaithful();
    RunKeepsFaithful(INITIAL, events);
    var w := Run(INITIAL, events);
    var once := OneCycle(w);
    OneCycleTable(w);
    StepKeepsFaithful(w, TakeSnapshot);
    StepKeepsFaithful(Step(w, TakeSnapshot), Restart);
    OneCycleTable(once);
    CycleRuns(w, [TakeSnapshot, Restart]);
    CycleRuns(once, []);
    assert [TakeSnapshot, Restart] + [] == [TakeSnapshot, Restart];
    ReversedTwice(w.table);
  }
}
