/** The two files behind the store, how they are written, replayed at startup, and what a
    crash in the middle of a snapshot leaves behind. */
module Storage {
  import opened Text
  import opened KeyValue
  import opened LogFormat
  import opened Buckets
  import opened HashTable

  /** The concrete table a startup builds from the two files on top of `t`. */
  function LoadTable(snapshot: Option<string>, log: string, t: Table): (r: Table)
    requires |t| > 0
    ensures |r| == |t|
  {
    var base := if snapshot.Some? then ReplayTable(DecodeSnapshot(Lines(snapshot.value)), t) else t;
    ReplayTable(DecodeLog(Lines(log)), base)
  }

  function SnapshotText(entries: seq<Entry>): string {
    Unlines(SnapshotLines(entries))
  }

  /** The two files at one moment. */
  datatype Disk = Disk(snapshot: Option<string>, log: string)

  /** The two files after each of the lines of a snapshot. */
  function LineMoments(entries: seq<Entry>, log: string): (moments: seq<Disk>)
    ensures |moments| == |entries|
  {
    seq(|entries|, i requires 0 <= i < |entries| => Disk(Some(SnapshotText(entries[..i + 1])), log))
  }

  /** The moments of a snapshot, as a crash may find them: the file truncated, then one line
      more at a time, all with the log still whole, and in the end with the log emptied. */
  function SnapshotMoments(entries: seq<Entry>, log: string): (moments: seq<Disk>)
    ensures |moments| == |entries| + 2
  {
    [Disk(Some(""), log)] + LineMoments(entries, log) + [Disk(Some(SnapshotText(entries)), "")]
  }

  lemma SnapshotMomentAt(entries: seq<Entry>, log: string, n: nat)
    requires n <= |entries|
    ensures SnapshotMoments(entries, log)[n] == Disk(Some(SnapshotText(entries[..n])), log)
  {
    if n == 0 {
      assert entries[..0] == [] && SnapshotLines([]) == [];
    } else {
      assert SnapshotMoments(entries, log)[n] == LineMoments(entries, log)[n - 1];
    }
  }

  lemma LineMomentsSnoc(entries: seq<Entry>, log: string, i: nat)
    requires i < |entries|
    ensures LineMoments(entries[..i + 1], log)
         == LineMoments(entries[..i], log) + [Disk(Some(SnapshotText(entries[..i + 1])), log)]
  {
    forall j | 0 <= j < i ensures LineMoments(entries[..i + 1], log)[j] == LineMoments(entries[..i], log)[j] {
      assert entries[..i + 1][..j + 1] == entries[..j + 1] == entries[..i][..j + 1];
    }
    assert entries[..i + 1][..i + 1] == entries[..i + 1];
  }

  class Persistence {
    var log: string               // appendonly.log, open for appending
    var snapshot: Option<string>  // snapshot.log, if it exists
    ghost var moments: seq<Disk>  // the two files after each change to them

    /** Opening the log for appending creates it when it is missing. */
    constructor (logOnDisk: Option<string>, snapshotOnDisk: Option<string>)
      ensures log == (if logOnDisk.Some? then logOnDisk.value else "")
      ensures snapshot == snapshotOnDisk
    {
      log := if logOnDisk.Some? then logOnDisk.value else "";
      snapshot := snapshotOnDisk;
      moments := [];
    }

    method AppendToLog(command: string, key: string, value: string)
      modifies this
      ensures log == old(log) + (LogLine(command, key, value) + "\n")
      ensures snapshot == old(snapshot)
      ensures moments == old(moments) + [Disk(snapshot, log)]
    {
      log := log + (LogLine(command, key, value) + "\n");
      moments := moments + [Disk(snapshot, log)];
    }

    method LoadDataOnStartup(hashmap: HashMap)
      requires hashmap.Valid() && this !in hashmap.Repr
      modifies hashmap.Repr
      ensures hashmap.Valid() && fresh(hashmap.Repr - old(hashmap.Repr))
      ensures hashmap.contents == LoadTable(snapshot, log, old(hashmap.contents))
    {
      if snapshot.Some? {
        ReadSnapshot(snapshot.value, hashmap);
      }
      ReadLog(log, hashmap);
    }

    static method ReadSnapshot(file: string, hashmap: HashMap)
      requires hashmap.Valid()
      modifies hashmap.Repr
      ensures hashmap.Valid() && fresh(hashmap.Repr - old(hashmap.Repr))
      ensures hashmap.contents == ReplayTable(DecodeSnapshot(Lines(file)), old(hashmap.contents))
    {
      ghost var target := ReplayTable(DecodeSnapshot(Lines(file)), hashmap.contents);
      var rest := file;
      while rest != ""
        invariant hashmap.Valid() && fresh(hashmap.Repr - old(hashmap.Repr))
        invariant ReplayTable(DecodeSnapshot(Lines(rest)), hashmap.contents) == target
        decreases |rest|
      {
        SnapshotCons(rest, hashmap.contents);
        ReadSnapshotLine(rest[..LineEnd(rest)], hashmap);
        rest := AfterLine(rest);
      }
    }

    static method ReadSnapshotLine(line: string, hashmap: HashMap)
      requires hashmap.Valid()
      modifies hashmap.Repr
      ensures hashmap.Valid() && fresh(hashmap.Repr - old(hashmap.Repr))
      ensures hashmap.contents == ApplyTable(old(hashmap.contents), DecodeSnapshotLine(line))
    {
      var (command, r1) := Extract(line);
      var (key, r2) := Extract(r1);
      var (value, _) := Extract(r2);
      hashmap.Insert(key, value);
    }

    static method ReadLog(file: string, hashmap: HashMap)
      requires hashmap.Valid()
      modifies hashmap.Repr
      ensures hashmap.Valid() && fresh(hashmap.Repr - old(hashmap.Repr))
      ensures hashmap.contents == ReplayTable(DecodeLog(Lines(file)), old(hashmap.contents))
    {
      ghost var target := ReplayTable(DecodeLog(Lines(file)), hashmap.contents);
      var rest := file;
      while rest != ""
        invariant hashmap.Valid() && fresh(hashmap.Repr - old(hashmap.Repr))
        invariant ReplayTable(DecodeLog(Lines(rest)), hashmap.contents) == target
        decreases |rest|
      {
        LogCons(rest, hashmap.contents);
        ReadLogLine(rest[..LineEnd(rest)], hashmap);
        rest := AfterLine(rest);
      }
    }

    static method ReadLogLine(line: string, hashmap: HashMap)
      requires hashmap.Valid()
      modifies hashmap.Repr
      ensures hashmap.Valid() && fresh(hashmap.Repr - old(hashmap.Repr))
      ensures hashmap.contents == ApplyTable(old(hashmap.contents), DecodeLogLine(line))
    {
      var (command, r1) := Extract(line);
      var (key, r2) := Extract(r1);
      if command == "INSERT" {
        var (value, _) := Extract(r2);
        hashmap.Insert(key, value);
      } else {
        hashmap.Remove(key);
      }
    }

    /** Truncates the snapshot, writes one line per pair the table reports, then empties the
        log. */
    method CreateSnapshot(hashmap: HashMap)
      requires hashmap.Valid() && this !in hashmap.Repr
      modifies this
      ensures snapshot == Some(SnapshotText(Enumerate(hashmap.contents)))
      ensures log == ""
      ensures moments == old(moments) + SnapshotMoments(Enumerate(hashmap.contents), old(log))
    {
      Truncate();
      var visited := hashmap.ForEach();
      WriteLines(visited);
      EmptyLog();
      ghost var first, lines := [Disk(Some(""), old(log))], LineMoments(visited, old(log));
      Regroup(old(moments), first, lines);
      Regroup(old(moments), first + lines, [Disk(Some(SnapshotText(visited)), "")]);
    }

    method Truncate()
      modifies this`snapshot, this`moments
      ensures snapshot == Some("") && moments == old(moments) + [Disk(snapshot, log)]
    {
      snapshot := Some("");
      moments := moments + [Disk(snapshot, log)];
    }

    method EmptyLog()
      modifies this`log, this`moments
      ensures log == "" && moments == old(moments) + [Disk(snapshot, log)]
    {
      log := "";
      moments := moments + [Disk(snapshot, log)];
    }

    /** The callback of the walk: one line per pair onto the truncated snapshot. */
    method WriteLines(visited: seq<Entry>)
      requires snapshot == Some("")
      modifies this`snapshot, this`moments
      ensures snapshot == Some(SnapshotText(visited))
      ensures moments == old(moments) + LineMoments(visited, log)
    {
      assert visited[..0] == [] && SnapshotLines([]) == [];
      assert LineMoments(visited[..0], log) == [] && old(moments) + [] == old(moments);
      for i := 0 to |visited|
        invariant snapshot == Some(SnapshotText(visited[..i]))
        invariant moments == old(moments) + LineMoments(visited[..i], log)
      {
        WriteLine(visited, i);
        LineMomentsSnoc(visited, log, i);
        Regroup(old(moments), LineMoments(visited[..i], log), [Disk(snapshot, log)]);
      }
      assert visited[..|visited|] == visited;
    }

    method WriteLine(visited: seq<Entry>, i: nat)
      requires i < |visited| && snapshot == Some(SnapshotText(visited[..i]))
      modifies this`snapshot, this`moments
      ensures snapshot == Some(SnapshotText(visited[..i + 1]))
      ensures moments == old(moments) + [Disk(snapshot, log)]
    {
      var line := LogLine("INSERT", visited[i].key, visited[i].value);
      SnapshotTextSnoc(visited, i);
      snapshot := Some(snapshot.value + (line + "\n"));
      moments := moments + [Disk(snapshot, log)];
    }
  }

  lemma ReplayTableCons(op: Op, ops: seq<Op>, t: Table)
    requires |t| > 0
    ensures ReplayTable([op] + ops, t) == ReplayTable(ops, ApplyTable(t, op))
  {
    assert ([op] + ops)[1..] == ops;
  }

  lemma DecodeSnapshotCons(line: string, lines: seq<string>)
    ensures DecodeSnapshot([line] + lines) == [DecodeSnapshotLine(line)] + DecodeSnapshot(lines)
  {
    var all := [line] + lines;
    forall i | 0 <= i < |lines| ensures all[i + 1] == lines[i] {
    }
    assert DecodeSnapshot(all)[0] == DecodeSnapshotLine(line);
    assert DecodeSnapshot(all)[1..] == DecodeSnapshot(lines);
  }

  lemma DecodeLogCons(line: string, lines: seq<string>)
    ensures DecodeLog([line] + lines) == [DecodeLogLine(line)] + DecodeLog(lines)
  {
    var all := [line] + lines;
    forall i | 0 <= i < |lines| ensures all[i + 1] == lines[i] {
    }
    assert DecodeLog(all)[0] == DecodeLogLine(line);
    assert DecodeLog(all)[1..] == DecodeLog(lines);
  }

  lemma SnapshotCons(file: string, t: Table)
    requires file != "" && |t| > 0
    ensures ReplayTable(DecodeSnapshot(Lines(file)), t)
         == ReplayTable(DecodeSnapshot(Lines(AfterLine(file))),
                        ApplyTable(t, DecodeSnapshotLine(file[..LineEnd(file)])))
  {
    var line, rest := file[..LineEnd(file)], Lines(AfterLine(file));
    DecodeSnapshotCons(line, rest);
    ReplayTableCons(DecodeSnapshotLine(line), DecodeSnapshot(rest), t);
  }

  lemma LogCons(file: string, t: Table)
    requires file != "" && |t| > 0
    ensures ReplayTable(DecodeLog(Lines(file)), t)
         == ReplayTable(DecodeLog(Lines(AfterLine(file))),
                        ApplyTable(t, DecodeLogLine(file[..LineEnd(file)])))
  {
    var line, rest := file[..LineEnd(file)], Lines(AfterLine(file));
    DecodeLogCons(line, rest);
    ReplayTableCons(DecodeLogLine(line), DecodeLog(rest), t);
  }

  lemma SnapshotTextSnoc(es: seq<Entry>, i: nat)
    requires i < |es|
    ensures SnapshotText(es[..i + 1])
         == SnapshotText(es[..i]) + (LogLine("INSERT", es[i].key, es[i].value) + "\n")
  {
    var line := LogLine("INSERT", es[i].key, es[i].value);
    assert SnapshotLines(es[..i + 1]) == SnapshotLines(es[..i]) + [line];
    UnlinesSnoc(SnapshotLines(es[..i]), line);
  }

  /** Loading the files into a fresh table builds a table that stands for `Recover`. */
  lemma LoadRefinesRecover(snapshot: Option<string>, log: string, t: Table)
    requires WellFormed(t) && Abs(t) == map[]
    ensures WellFormed(LoadTable(snapshot, log, t))
    ensures Abs(LoadTable(snapshot, log, t)) == Recover(snapshot, log)
  {
    var base := t;
    if snapshot.Some? {
      ReplayRefines(DecodeSnapshot(Lines(snapshot.value)), t);
      base := ReplayTable(DecodeSnapshot(Lines(snapshot.value)), t);
    }
    ReplayRefines(DecodeLog(Lines(log)), base);
  }

  /** A snapshot read back with an empty log into an empty table of the same capacity: the
      same map, every chain reversed. */
  lemma SnapshotCycleReverses(t: Table)
    requires WellFormed(t) && TokenEntries(Enumerate(t))
    ensures LoadTable(Some(SnapshotText(Enumerate(t))), "", EmptyTable(|t|)) == Reversed(t)
    ensures WellFormed(Reversed(t)) && Abs(Reversed(t)) == Abs(t)
  {
    SnapshotRoundTrip(Enumerate(t));
    ReloadReverses(t);
    assert Lines("") == [] && DecodeLog([]) == [];
  }

  // Crashes.

  predicate TokenEntries(es: seq<Entry>) {
    forall i :: 0 <= i < |es| ==> IsToken(es[i].key) && IsToken(es[i].value)
  }

  /** Key by key: with lines `a` written and lines `b` not, a key is recovered right if the
      log mentions it or its line is written, and is missing otherwise. */
  lemma CrashAtKey(base: Store, ops: seq<Op>, live: Store, a: seq<Entry>, b: seq<Entry>, k: string)
    requires Replay(ops, base) == live && Enumerates(a + b, live)
    ensures var recovered := Replay(ops, Replay(Inserts(a), map[]));
            if k in Touched(ops) || k !in Keys(b)
            then Lookup(recovered, k) == Lookup(live, k)
            else Lookup(recovered, k) == None && k in live
  {
    Absorption(ops, Replay(Inserts(a), map[]), base, k);
    ReloadPart(a, b, live, k);
  }

  /** A snapshot is being taken of `live`, which the log `ops` had brought about on some
      earlier base; the lines `a` are on disk, the lines `b` are not yet, and the log is
      still whole.  Recovery then yields part of the live store, right on every key the log
      mentions; it yields all of it exactly when the log mentions every key not yet
      written. */
  lemma CrashInsideSnapshot(base: Store, ops: seq<Op>, live: Store, a: seq<Entry>, b: seq<Entry>)
    requires Replay(ops, base) == live && Enumerates(a + b, live)
    ensures var recovered := Replay(ops, Replay(Inserts(a), map[]));
            && (forall k :: k in recovered ==> k in live && live[k] == recovered[k])
            && (forall k :: k in Touched(ops) ==> Lookup(recovered, k) == Lookup(live, k))
            && (recovered == live <==> Keys(b) <= Touched(ops))
  {
    var recovered := Replay(ops, Replay(Inserts(a), map[]));
    forall k
      ensures if k in Touched(ops) || k !in Keys(b) then Lookup(recovered, k) == Lookup(live, k)
              else Lookup(recovered, k) == None && k in live
    {
      CrashAtKey(base, ops, live, a, b, k);
    }
    forall k | k in recovered ensures k in live && live[k] == recovered[k] {
      assert Lookup(recovered, k) == Lookup(live, k);
    }
    if Keys(b) <= Touched(ops) {
      StoreEquality(recovered, live);
    } else {
      var k :| k in Keys(b) && k !in Touched(ops);
      assert Lookup(recovered, k) == None;
    }
  }

  /** The same on the bytes of the files. */
  lemma CrashInsideSnapshotFile(before: Option<string>, log: string, live: Store, a: seq<Entry>, b: seq<Entry>)
    requires Recover(before, log) == live
    requires Enumerates(a + b, live) && TokenEntries(a)
    ensures var recovered := Recover(Some(SnapshotText(a)), log);
            var mentioned := Touched(DecodeLog(Lines(log)));
            && (forall k :: k in recovered ==> k in live && live[k] == recovered[k])
            && (forall k :: k in mentioned ==> Lookup(recovered, k) == Lookup(live, k))
            && (recovered == live <==> Keys(b) <= mentioned)
  {
    var base := if before.Some? then Replay(DecodeSnapshot(Lines(before.value)), map[]) else map[];
    CrashInsideSnapshot(base, DecodeLog(Lines(log)), live, a, b);
    SnapshotRoundTrip(a);
  }

  /** Once every line is written, neither a crash before the log is emptied nor one after
      loses anything. */
  lemma CrashAfterSnapshot(before: Option<string>, log: string, live: Store, es: seq<Entry>)
    requires Recover(before, log) == live
    requires Enumerates(es, live) && TokenEntries(es)
    ensures Recover(Some(SnapshotText(es)), log) == live
    ensures Recover(Some(SnapshotText(es)), "") == live
  {
    assert es + [] == es;
    CrashInsideSnapshotFile(before, log, live, es, []);
    SnapshotRoundTrip(es);
    ReloadEnumeration(es, live);
  }

  /** Whichever moment of the snapshot a crash finds: a part of the live store is recovered,
      and all of it exactly if the log mentions every key whose line is missing, or the log is
      already empty, when no line is. */
  lemma CrashAtAnyMoment(before: Option<string>, log: string, live: Store, es: seq<Entry>, n: nat)
    requires Recover(before, log) == live
    requires Enumerates(es, live) && TokenEntries(es)
    requires n < |SnapshotMoments(es, log)|
    ensures var disk := SnapshotMoments(es, log)[n];
            var recovered := Recover(disk.snapshot, disk.log);
            && (forall k :: k in recovered ==> k in live && live[k] == recovered[k])
            && (recovered == live <==> n > |es| || Keys(es[n..]) <= Touched(DecodeLog(Lines(log))))
  {
    if n > |es| {
      CrashAfterSnapshot(before, log, live, es);
    } else {
      SnapshotMomentAt(es, log, n);
      assert es == es[..n] + es[n..];
      CrashInsideSnapshotFile(before, log, live, es[..n], es[n..]);
    }
  }

  /** Recovery across crashes is promised, but the old snapshot is truncated before its
      replacement is written: with the log still empty since the last snapshot, a crash at
      that moment recovers an empty store. */
  lemma TruncationLosesEverything(live: Store, es: seq<Entry>)
    requires Enumerates(es, live) && TokenEntries(es)
    ensures Recover(Some(SnapshotText(es)), "") == live
    ensures Recover(Some(SnapshotText([])), "") == map[]
  {
    SnapshotRoundTrip(es);
    ReloadEnumeration(es, live);
    SnapshotRoundTrip([]);
  }

  lemma SnapshotCrashLosesData()
    ensures var before := SnapshotText([Entry("a", "1")]);
            Recover(Some(before), "") == map["a" := "1"] && Recover(Some(SnapshotText([])), "") == map[]
  {
    var es := [Entry("a", "1")];
    assert Keys(es) == {"a"} by {
      assert es[0].key in Keys(es);
    }
    TruncationLosesEverything(map["a" := "1"], es);
  }
}
