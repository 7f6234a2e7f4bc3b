/** The text of the two files: `appendonly.log`, one line per mutation, and
    `snapshot.log`, one line per stored pair. */
module LogFormat {
  import opened Text
  import opened KeyValue

  /** Every stored key and value is a token, so no stored value is empty. */
  predicate TokenStore(m: Store) {
    forall k :: k in m ==> IsToken(k) && IsToken(m[k])
  }

  /** The line `appendToLog` writes, without its newline. */
  function LogLine(command: string, key: string, value: string): string {
    command + " " + key + " " + value
  }

  function EncodeOp(op: Op): string {
    match op
    case Insert(k, v) => LogLine("INSERT", k, v)
    case Delete(k) => LogLine("DELETE", k, "")
  }

  /** How the startup code reads one log line: anything that is not INSERT removes. */
  function DecodeLogLine(line: string): Op {
    var (command, r1) := Extract(line);
    var (key, r2) := Extract(r1);
    if command == "INSERT" then Insert(key, Extract(r2).0) else Delete(key)
  }

  /** How the startup code reads one snapshot line: the command word is not looked at. */
  function DecodeSnapshotLine(line: string): Op {
    var (command, r1) := Extract(line);
    var (key, r2) := Extract(r1);
    Insert(key, Extract(r2).0)
  }

  function DecodeLog(lines: seq<string>): (ops: seq<Op>)
    ensures |ops| == |lines|
  {
    seq(|lines|, i requires 0 <= i < |lines| => DecodeLogLine(lines[i]))
  }

  function DecodeSnapshot(lines: seq<string>): (ops: seq<Op>)
    ensures |ops| == |lines|
  {
    seq(|lines|, i requires 0 <= i < |lines| => DecodeSnapshotLine(lines[i]))
  }

  function SnapshotLines(entries: seq<Entry>): (lines: seq<string>)
    ensures |lines| == |entries|
  {
    seq(|entries|, i requires 0 <= i < |entries| => LogLine("INSERT", entries[i].key, entries[i].value))
  }

  /** The store a restart rebuilds from the two files; a missing snapshot reads as empty. */
  function Recover(snapshot: Option<string>, log: string): Store {
    var base := if snapshot.Some? then Replay(DecodeSnapshot(Lines(snapshot.value)), map[]) else map[];
    Replay(DecodeLog(Lines(log)), base)
  }

  /** Mutations whose log line reads back as the same mutation. */
  predicate Loggable(op: Op) {
    match op
    case Insert(k, v) => (IsToken(k) && (v == "" || IsToken(v))) || (k == "" && v == "")
    case Delete(k) => k == "" || IsToken(k)
  }

  /** A line of three words separated by blanks, the third possibly missing. */
  lemma ThreeWords(command: string, key: string, value: string)
    requires IsToken(command)
    requires IsToken(key) && (value == "" || IsToken(value))
    ensures var (c, r1) := Extract(LogLine(command, key, value));
            var (k, r2) := Extract(r1);
            c == command && k == key && Extract(r2).0 == value
  {
    var line := LogLine(command, key, value);
    var r1, r2 := " " + key + " " + value, " " + value;
    assert line == "" + command + r1;
    ExtractToken("", command, r1);
    assert r1 == " " + key + r2;
    ExtractToken(" ", key, r2);
    if value == "" {
      ExtractBlank(r2);
    } else {
      assert r2 == " " + value + "";
      ExtractToken(" ", value, "");
    }
  }

  lemma OneWord(command: string)
    requires IsToken(command)
    ensures var (c, r1) := Extract(LogLine(command, "", ""));
            c == command && Extract(r1) == ("", "")
  {
    assert LogLine(command, "", "") == "" + command + "  ";
    ExtractToken("", command, "  ");
    ExtractBlank("  ");
  }

  /** A log line reads back as the mutation that was logged exactly when its key and value
      are words `>>` can deliver (a DELETE may have no key, an INSERT no value). */
  lemma LogLineRoundTrip(op: Op)
    ensures DecodeLogLine(EncodeOp(op)) == op <==> Loggable(op)
  {
    if Loggable(op) {
      var command := if op.Insert? then "INSERT" else "DELETE";
      assert IsToken(command);
      if op.key == "" {
        OneWord(command);
      } else {
        ThreeWords(command, op.key, if op.Insert? then op.value else "");
      }
    }
  }

  lemma SnapshotLineRoundTrip(e: Entry)
    requires IsToken(e.key) && IsToken(e.value)
    ensures DecodeSnapshotLine(LogLine("INSERT", e.key, e.value)) == Insert(e.key, e.value)
    ensures NoNewline(LogLine("INSERT", e.key, e.value))
  {
    ThreeWords("INSERT", e.key, e.value);
    LogLineIsOneLine(Insert(e.key, e.value));
  }

  lemma LogLineIsOneLine(op: Op)
    requires Loggable(op)
    ensures NoNewline(EncodeOp(op))
  {
  }

  lemma DecodeLogSnoc(lines: seq<string>, line: string)
    ensures DecodeLog(lines + [line]) == DecodeLog(lines) + [DecodeLogLine(line)]
  {
  }

  /** Appending a loggable mutation to a complete log file appends it to what is replayed. */
  lemma LogAppend(log: string, op: Op)
    requires LineTerminated(log) && Loggable(op)
    ensures DecodeLog(Lines(log + (EncodeOp(op) + "\n"))) == DecodeLog(Lines(log)) + [op]
  {
    LogLineIsOneLine(op);
    LogLineRoundTrip(op);
    LinesAppend(log, EncodeOp(op));
    DecodeLogSnoc(Lines(log), EncodeOp(op));
  }

  /** The text of a log holding the given mutations in order. */
  function LogText(ops: seq<Op>): string {
    Unlines(seq(|ops|, i requires 0 <= i < |ops| => EncodeOp(ops[i])))
  }

  /** A whole log file reads back as the list of mutations written to it. */
  lemma LogRoundTrip(ops: seq<Op>)
    requires forall i :: 0 <= i < |ops| ==> Loggable(ops[i])
    ensures DecodeLog(Lines(LogText(ops))) == ops
  {
    var lines := seq(|ops|, i requires 0 <= i < |ops| => EncodeOp(ops[i]));
    forall i | 0 <= i < |ops| ensures NoNewline(lines[i]) && DecodeLogLine(lines[i]) == ops[i] {
      LogLineIsOneLine(ops[i]);
      LogLineRoundTrip(ops[i]);
    }
    LinesOfUnlines(lines);
  }

  /** A snapshot file of token pairs reads back as inserts of those pairs in order. */
  lemma SnapshotRoundTrip(entries: seq<Entry>)
    requires forall i :: 0 <= i < |entries| ==> IsToken(entries[i].key) && IsToken(entries[i].value)
    ensures DecodeSnapshot(Lines(Unlines(SnapshotLines(entries)))) == Inserts(entries)
  {
    var lines := SnapshotLines(entries);
    forall i | 0 <= i < |entries|
      ensures NoNewline(lines[i])
      ensures DecodeSnapshotLine(lines[i]) == Insert(entries[i].key, entries[i].value)
    {
      SnapshotLineRoundTrip(entries[i]);
    }
    LinesOfUnlines(lines);
  }
}
