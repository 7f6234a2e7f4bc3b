/** The command path of one connection: collecting bytes into a command, and what a command
    asks for. */
module Protocol {
  import opened Text
  import opened KeyValue
  import opened LogFormat

  const MAX_COMMAND_BUFFER_LENGTH := 2024

  // The replies.
  const INSERTED := "Insert command was successful\n"
  const EMPTY_VALUE := "Empty Value Recieved, Try again\n"
  const FOUND := "Get command was successful: "
  const NOT_FOUND := "Get command was successful but key dont exist\n"
  const DELETED := "Delete command was successful\n"
  const NO_COMMAND := "No command was received\n"

  /** What the handler decides after appending a received chunk to the command buffer. */
  datatype Framing = TooLong | Wait(buffer: string) | Execute(message: string)

  function Frame(buffer: string, chunk: string): Framing {
    var all := buffer + chunk;
    if |all| > MAX_COMMAND_BUFFER_LENGTH then TooLong
    else if NoNewline(all) then Wait(all)
    else Execute(all)
  }

  datatype Request = PutValue(key: string, value: string) | MissingValue | GetValue(key: string)
                   | RemoveKey(key: string) | Unknown

  /** The first words of the message; whatever follows them is ignored. */
  function Parse(message: string): (r: Request)
    ensures r.PutValue? ==> IsToken(r.key) && IsToken(r.value)
    ensures r.RemoveKey? ==> r.key == "" || IsToken(r.key)
  {
    var (command, r1) := Extract(message);
    var (key, r2) := Extract(r1);
    var (value, _) := Extract(r2);
    if command == "INSERT" then (if value == "" then MissingValue else PutValue(key, value))
    else if command == "GET" then GetValue(key)
    else if command == "DELETE" then RemoveKey(key)
    else Unknown
  }

  /** The mutation a message carries out, if any. */
  function MutationOf(message: string): (m: Option<Op>)
    ensures m.Some? ==> Loggable(m.value)
    ensures m.Some? && m.value.Insert? ==> IsToken(m.value.key) && IsToken(m.value.value)
  {
    match Parse(message)
    case PutValue(k, v) => Some(Insert(k, v))
    case RemoveKey(k) => Some(Delete(k))
    case _ => None
  }

  /** The store after a message took effect. */
  function StoreAfter(live: Store, message: string): Store {
    var m := MutationOf(message);
    if m.Some? then Apply(live, m.value) else live
  }

  /** The reply a client is owed, in terms of the store before the command. */
  function Reply(live: Store, message: string): string {
    match Parse(message)
    case PutValue(_, _) => INSERTED
    case MissingValue => EMPTY_VALUE
    case GetValue(k) =>
      if k in live then FOUND + live[k] + "\n"
      else NOT_FOUND
    case RemoveKey(_) => DELETED
    case Unknown => NO_COMMAND
  }

  /** A message of a command word, a key and a value, however spaced, and with anything
      behind it, is an insertion of that pair: later commands in the buffer are dropped. */
  lemma InsertMessage(gap: string, key: string, gap': string, value: string, rest: string)
    requires Blank(gap) && gap != "" && Blank(gap') && gap' != ""
    requires IsToken(key) && IsToken(value)
    requires rest == "" || IsSpace(rest[0])
    ensures MutationOf("INSERT" + gap + key + gap' + value + rest) == Some(Insert(key, value))
  {
    var m := "INSERT" + gap + key + gap' + value + rest;
    var r1, r2 := gap + key + gap' + value + rest, gap' + value + rest;
    assert IsToken("INSERT");
    assert m == "" + "INSERT" + r1;
    ExtractToken("", "INSERT", r1);
    assert r1 == gap + key + r2;
    ExtractToken(gap, key, r2);
    ExtractToken(gap', value, rest);
  }

  // One connection over a whole stream of chunks.

  /** A connection, and the messages it has had executed so far. */
  datatype Session = Session(open: bool, buffer: string, executed: seq<string>)

  function Receive(s: Session, chunk: string): Session {
    if !s.open then s
    else match Frame(s.buffer, chunk)
      case TooLong => s.(open := false)
      case Wait(b) => s.(buffer := b)
      case Execute(m) => s.(buffer := "", executed := s.executed + [m])
  }

  function ReceiveAll(s: Session, chunks: seq<string>): Session
    decreases |chunks|
  {
    if chunks == [] then s else ReceiveAll(Receive(s, chunks[0]), chunks[1..])
  }

  function Concat(chunks: seq<string>): string {
    if chunks == [] then "" else chunks[0] + Concat(chunks[1..])
  }

  function ConcatAll(cuts: seq<seq<string>>): seq<string> {
    if cuts == [] then [] else cuts[0] + ConcatAll(cuts[1..])
  }

  /** A command line: one newline, at the end. */
  predicate IsLine(l: string) {
    l != "" && l[|l| - 1] == '\n' && NoNewline(l[..|l| - 1])
  }

  /** A line cut into nonempty chunks. */
  predicate CutOf(chunks: seq<string>, line: string) {
    Concat(chunks) == line && forall i :: 0 <= i < |chunks| ==> chunks[i] != ""
  }

  lemma {:induction false} ReceiveAllConcat(s: Session, a: seq<string>, b: seq<string>)
    ensures ReceiveAll(s, a + b) == ReceiveAll(ReceiveAll(s, a), b)
    decreases |a|
  {
    if a == [] {
      assert a + b == b;
    } else {
      assert (a + b)[1..] == a[1..] + b;
      ReceiveAllConcat(Receive(s, a[0]), a[1..], b);
    }
  }

  /** What has been executed stays executed. */
  lemma {:induction false} ExecutedGrows(s: Session, chunks: seq<string>)
    ensures s.executed <= ReceiveAll(s, chunks).executed
    decreases |chunks|
  {
    if chunks != [] {
      ExecutedGrows(Receive(s, chunks[0]), chunks[1..]);
    }
  }

  /** What was executed earlier makes no difference to what will be. */
  lemma {:induction false} ExecutedShift(s: Session, earlier: seq<string>, chunks: seq<string>)
    ensures ReceiveAll(s.(executed := earlier + s.executed), chunks).executed
         == earlier + ReceiveAll(s, chunks).executed
    decreases |chunks|
  {
    if chunks != [] {
      var t := Receive(s, chunks[0]);
      assert Receive(s.(executed := earlier + s.executed), chunks[0]).executed == earlier + t.executed;
      ExecutedShift(t, earlier, chunks[1..]);
    }
  }

  lemma {:induction false} ClosedStaysClosed(s: Session, chunks: seq<string>)
    requires !s.open
    ensures ReceiveAll(s, chunks) == s
    decreases |chunks|
  {
    if chunks != [] {
      ClosedStaysClosed(s, chunks[1..]);
    }
  }

  lemma {:induction false} RestOfLine(s: Session, chunks: seq<string>)
    requires s.open && |s.buffer| <= MAX_COMMAND_BUFFER_LENGTH && NoNewline(s.buffer)
    requires IsLine(s.buffer + Concat(chunks))
    requires forall i :: 0 <= i < |chunks| ==> chunks[i] != ""
    ensures var line := s.buffer + Concat(chunks);
            var t := ReceiveAll(s, chunks);
            if |line| <= MAX_COMMAND_BUFFER_LENGTH
            then t == Session(true, "", s.executed + [line])
            else !t.open && t.executed == s.executed
    decreases |chunks|
  {
    var line := s.buffer + Concat(chunks);
    assert chunks != [] by {
      assert s.buffer + "" == s.buffer;
    }
    var all, rest := s.buffer + chunks[0], Concat(chunks[1..]);
    assert line == all + rest;
    if rest == "" {
      NothingLeft(chunks[1..]);
      assert all == line;
      assert !NoNewline(all) by {
        assert all[|all| - 1] == '\n';
      }
    } else {
      assert NoNewline(all) by {
        assert forall i :: 0 <= i < |all| ==> all[i] == line[..|line| - 1][i];
      }
      if |all| <= MAX_COMMAND_BUFFER_LENGTH {
        RestOfLine(s.(buffer := all), chunks[1..]);
      } else {
        ClosedStaysClosed(s.(open := false), chunks[1..]);
      }
    }
  }

  lemma NothingLeft(chunks: seq<string>)
    requires Concat(chunks) == ""
    requires forall i :: 0 <= i < |chunks| ==> chunks[i] != ""
    ensures chunks == []
  {
  }

  /** How a line is cut makes no difference: it is executed once, whole, when it has at most
      2024 bytes, and otherwise closes the connection unexecuted. */
  lemma FragmentationIndependence(executed: seq<string>, chunks: seq<string>, line: string)
    requires IsLine(line) && CutOf(chunks, line)
    ensures var t := ReceiveAll(Session(true, "", executed), chunks);
            if |line| <= 2024
            then t == Session(true, "", executed + [line])
            else !t.open && t.executed == executed
  {
    assert "" + Concat(chunks) == line;
    RestOfLine(Session(true, "", executed), chunks);
  }

  /** The lines before the first one that is too long. */
  function Accepted(lines: seq<string>): seq<string> {
    if lines == [] || |lines[0]| > MAX_COMMAND_BUFFER_LENGTH then []
    else [lines[0]] + Accepted(lines[1..])
  }

  lemma AcceptedCons(lines: seq<string>)
    requires lines != [] && |lines[0]| <= MAX_COMMAND_BUFFER_LENGTH
    ensures Accepted(lines) == [lines[0]] + Accepted(lines[1..])
    ensures Accepted(lines) == lines <==> Accepted(lines[1..]) == lines[1..]
  {
    assert [lines[0]] + lines[1..] == lines;
    assert Accepted(lines)[1..] == Accepted(lines[1..]);
  }

  /** A whole stream of lines, each cut at will but no chunk crossing a line end: exactly the
      lines before the first overlong one are executed, in order. */
  lemma {:induction false} StreamOfLines(executed: seq<string>, cuts: seq<seq<string>>, lines: seq<string>)
    requires |cuts| == |lines|
    requires forall i :: 0 <= i < |lines| ==> IsLine(lines[i]) && CutOf(cuts[i], lines[i])
    ensures var t := ReceiveAll(Session(true, "", executed), ConcatAll(cuts));
            && t.executed == executed + Accepted(lines)
            && (t.open <==> Accepted(lines) == lines)
            && (t.open ==> t.buffer == "")
    decreases |lines|
  {
    var s := Session(true, "", executed);
    if lines != [] {
      ReceiveAllConcat(s, cuts[0], ConcatAll(cuts[1..]));
      FragmentationIndependence(executed, cuts[0], lines[0]);
      if |lines[0]| <= MAX_COMMAND_BUFFER_LENGTH {
        StreamOfLines(executed + [lines[0]], cuts[1..], lines[1..]);
        AcceptedCons(lines);
        assert executed + [lines[0]] + Accepted(lines[1..]) == executed + Accepted(lines);
      } else {
        ClosedStaysClosed(ReceiveAll(s, cuts[0]), ConcatAll(cuts[1..]));
      }
    }
  }
}
