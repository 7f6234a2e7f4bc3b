/** The whole system comes to rest: workers, event loop and snapshotter, left alone by clients
    and timers, can take only so many steps, never block each other for good, and in the end
    have processed everything and have nothing in flight. */
module Settling {
  import opened KeyValue
  import opened Protocol
  import opened Connections
  import opened SerialExecution
  import opened WholeSystem
  import D = Dispatching
  import P = Progress
  import U = Durability

  /** A step of the event loop or of one of N workers, its log append, or a step of a snapshot
      that has begun. */
  ghost predicate Steps(s: System, ended: set<Socket>, N: nat, a: Action) {
    Enabled(s, a)
    && match a
       case Handle(b) => P.Steps(s.d, ended, N, b)
       case LogAppend(_) => true
       case Snapshot(b) => !b.Truncate?
       case Crash => false
  }

  // A measure of the work left.

  function SnapshotLeft(u: U.State): nat {
    match u.snap
    case Idle => 0
    case Truncated => |u.live.Keys| + 4
    case Scanning(rest) => |rest| + 2
    case Scanned => 1
  }

  /** Three for each step of dispatch, as it may bring an append and a line of the snapshot. */
  ghost function Measure(s: System, ended: set<Socket>): nat {
    3 * P.Measure(s.d, ended) + |s.u.pending.Keys| + SnapshotLeft(s.u)
  }

  lemma {:induction false} DistinctCount(entries: seq<Entry>)
    requires DistinctKeys(entries)
    ensures |Keys(entries)| == |entries|
    decreases |entries|
  {
    if entries == [] {
      assert Keys(entries) == {};
    } else {
      var n := |entries| - 1;
      var rest, e := entries[..n], entries[n];
      assert rest + [e] == entries;
      EntriesConcat(rest, [e]);
      assert Keys([e]) == {e.key} by {
        assert [e][0].key in Keys([e]);
      }
      DistinctCount(rest);
    }
  }

  lemma OneKeyMore(m: Store, op: Op)
    ensures |Apply(m, op).Keys| <= |m.Keys| + 1
  {
    if op.Insert? {
      assert Apply(m, op).Keys == m.Keys + {op.key};
    } else {
      assert Apply(m, op).Keys == m.Keys - {op.key};
    }
  }

  lemma MapWriteAddsLittle(u: U.State, w: D.Worker, op: Op)
    requires U.Enabled(u, U.MapWrite(w, op))
    ensures var v := U.Next(u, U.MapWrite(w, op));
            |v.pending.Keys| + SnapshotLeft(v) <= |u.pending.Keys| + SnapshotLeft(u) + 2
  {
    var v := U.Next(u, U.MapWrite(w, op));
    assert v.pending.Keys == u.pending.Keys + {w};
    OneKeyMore(u.live, op);
  }

  lemma AppendIsLess(u: U.State, w: D.Worker)
    requires U.Enabled(u, U.Append(w))
    ensures var v := U.Next(u, U.Append(w));
            |v.pending.Keys| < |u.pending.Keys| && SnapshotLeft(v) == SnapshotLeft(u)
  {
    assert U.Next(u, U.Append(w)).pending.Keys == u.pending.Keys - {w};
  }

  lemma SnapshotIsLess(u: U.State, a: U.Action)
    requires U.Enabled(u, a) && SnapshotAction(a) && !a.Truncate?
    ensures var v := U.Next(u, a); v.pending == u.pending && SnapshotLeft(v) < SnapshotLeft(u)
  {
    if a.LockTable? {
      DistinctCount(a.order);
    }
  }

  lemma HandleIsLess(s: System, ended: set<Socket>, N: nat, b: D.Action)
    requires D.Placed(s.d) && Steps(s, ended, N, Handle(b))
    ensures Measure(Next(s, Handle(b)), ended) < Measure(s, ended)
  {
    P.StepIsLess(s.d, ended, N, b);
    var m := MutationAt(s.d, b);
    if m.Some? {
      MapWriteAddsLittle(s.u, b.w, m.value);
    }
  }

  /** Every step leaves less work. */
  lemma StepIsLess(s: System, ended: set<Socket>, N: nat, a: Action)
    requires D.Placed(s.d) && Steps(s, ended, N, a)
    ensures Measure(Next(s, a), ended) < Measure(s, ended)
  {
    match a {
      case Handle(b) => HandleIsLess(s, ended, N, b);
      case LogAppend(w) => AppendIsLess(s.u, w);
      case Snapshot(b) => SnapshotIsLess(s.u, b);
    }
  }

  // Nobody waits for good.

  /** Any table can be walked. */
  lemma {:induction false} SomeOrder(m: Store) returns (order: seq<Entry>)
    ensures Enumerates(order, m)
    decreases m.Keys
  {
    if m.Keys == {} {
      order := [];
    } else {
      var k :| k in m;
      var rest := SomeOrder(m - {k});
      var first := [Entry(k, m[k])];
      order := rest + first;
      EntriesConcat(rest, first);
      assert Keys(first) == {k} by {
        assert first[0].key in Keys(first);
      }
      assert forall i :: 0 <= i < |rest| ==> rest[i].key in Keys(rest) && order[i] == rest[i];
    }
  }

  lemma SnapshotSteps(s: System, ended: set<Socket>, N: nat) returns (a: Action)
    requires !s.u.snap.Idle?
    ensures Steps(s, ended, N, a)
  {
    match s.u.snap {
      case Truncated =>
        var order := SomeOrder(s.u.live);
        a := Snapshot(U.LockTable(order));
      case Scanning(rest) =>
        a := Snapshot(if rest == [] then U.EndScan else U.WriteLine);
      case Scanned => a := Snapshot(U.Reset);
    }
  }

  /** With nothing in flight, no step of dispatch has to wait. */
  lemma NothingToWaitFor(s: System, ended: set<Socket>, N: nat, b: D.Action)
    requires U.Quiescent(s.u) && P.Steps(s.d, ended, N, b)
    ensures Steps(s, ended, N, Handle(b))
  {
  }

  /** While something is in flight, or an open connection is not armed or has something to be
      read, somebody can take a step. */
  lemma SomebodySteps(s: System, ended: set<Socket>, N: nat, r: Socket) returns (a: Action)
    requires D.Placed(s.d) && N > 0 && (forall w :: w in s.d.running ==> w < N)
    requires U.Quiescent(s.u) ==>
      r in s.d.net.connections && (D.HasPlace(s.d, r, D.Armed) ==> P.Ready(s.d, ended, r))
    ensures Steps(s, ended, N, a)
  {
    if s.u.pending != map[] {
      var w :| w in s.u.pending;
      a := LogAppend(w);
    } else if !s.u.snap.Idle? {
      a := SnapshotSteps(s, ended, N);
    } else {
      var b := P.SomebodySteps(s.d, ended, N, r);
      NothingToWaitFor(s, ended, N, b);
      a := Handle(b);
    }
  }

  // Runs of the system alone.

  ghost predicate OwnRun(s: System, ended: set<Socket>, N: nat, run: seq<Action>)
    decreases |run|
  {
    run != [] ==> Steps(s, ended, N, run[0]) && OwnRun(Next(s, run[0]), ended, N, run[1..])
  }

  ghost predicate Done(s: System, ended: set<Socket>, N: nat) {
    forall a :: !Steps(s, ended, N, a)
  }

  predicate FewWorkers(s: System, N: nat) {
    forall w :: w in s.d.running ==> w < N
  }

  lemma StepKeepsFewWorkers(s: System, ended: set<Socket>, N: nat, a: Action)
    requires FewWorkers(s, N) && Steps(s, ended, N, a)
    ensures FewWorkers(Next(s, a), N)
  {
    if a.Handle? {
      P.FewWorkers(s.d, N, a.step);
    }
  }

  lemma {:induction false} OwnRunsAreShort(s: System, ended: set<Socket>, N: nat, run: seq<Action>)
    requires Kept(s) && FewWorkers(s, N) && OwnRun(s, ended, N, run)
    ensures Legal(s, run) && Kept(After(s, run)) && FewWorkers(After(s, run), N)
    ensures |run| + Measure(After(s, run), ended) <= Measure(s, ended)
    decreases |run|
  {
    if run != [] {
      StepIsLess(s, ended, N, run[0]);
      StepKeepsAll(s, run[0]);
      StepKeepsFewWorkers(s, ended, N, run[0]);
      OwnRunsAreShort(Next(s, run[0]), ended, N, run[1..]);
    }
  }

  /** It does come to the point where nobody has anything left to do. */
  lemma {:induction false} TheSystemCanSettle(s: System, ended: set<Socket>, N: nat) returns (run: seq<Action>)
    requires Kept(s)
    ensures OwnRun(s, ended, N, run) && Legal(s, run) && Done(After(s, run), ended, N)
    decreases Measure(s, ended)
  {
    if Done(s, ended, N) {
      run := [];
    } else {
      var a :| Steps(s, ended, N, a);
      StepIsLess(s, ended, N, a);
      StepKeepsAll(s, a);
      var rest := TheSystemCanSettle(Next(s, a), ended, N);
      run := [a] + rest;
      assert run[1..] == rest;
    }
  }

  /** At that point nothing is in flight, and every open connection is armed, its peer there,
      and all that has arrived on it received, processed and executed. */
  ghost predicate Settled(s: System, ended: set<Socket>) {
    && U.Quiescent(s.u)
    && forall r :: r in s.d.net.connections ==>
         && D.IsArmed(s.d, r) && r !in ended && r in s.d.streams
         && s.d.streams[r].count == |s.d.streams[r].arrived|
         && Of(s.effects, r) == ReceiveAll(FRESH, s.d.streams[r].arrived).executed
  }

  lemma DoneIsQuiescent(s: System, ended: set<Socket>, N: nat)
    requires Done(s, ended, N)
    ensures U.Quiescent(s.u)
  {
    forall w ensures w !in s.u.pending {
      assert !Steps(s, ended, N, LogAppend(w));
    }
    assert s.u.pending == map[];
    if !s.u.snap.Idle? {
      var a := SnapshotSteps(s, ended, N);
    }
  }

  lemma DoneConnection(s: System, ended: set<Socket>, N: nat, r: Socket)
    requires Kept(s) && FewWorkers(s, N) && N > 0 && Done(s, ended, N) && r in s.d.net.connections
    ensures D.IsArmed(s.d, r) && r !in ended && r in s.d.streams
    ensures s.d.streams[r].count == |s.d.streams[r].arrived|
    ensures Of(s.effects, r) == ReceiveAll(FRESH, s.d.streams[r].arrived).executed
  {
    DoneIsQuiescent(s, ended, N);
    forall b ensures !P.Steps(s.d, ended, N, b) {
      if P.Steps(s.d, ended, N, b) {
        NothingToWaitFor(s, ended, N, b);
      }
    }
    P.ArmedAndRead(s.d, ended, N, r);
  }

  /** From any reachable state, with any positive number of workers: left alone, the system
      takes at most as many steps as the measure says, and when nobody can take another one
      it has settled. */
  lemma TheSystemSettles(before: seq<Action>, run: seq<Action>, ended: set<Socket>, N: nat)
    requires WholeSystem.Legal(INITIAL, before) && N > 0 && FewWorkers(After(INITIAL, before), N)
    requires OwnRun(After(INITIAL, before), ended, N, run)
    ensures var s := After(INITIAL, before);
            && |run| <= Measure(s, ended) && WholeSystem.Legal(s, run)
            && (Done(After(s, run), ended, N) ==> Settled(After(s, run), ended))
  {
    InitialIsKept();
    RunKeepsAll(INITIAL, before);
    var s := After(INITIAL, before);
    OwnRunsAreShort(s, ended, N, run);
    var t := After(s, run);
    if Done(t, ended, N) {
      DoneIsQuiescent(t, ended, N);
      forall r | r in t.d.net.connections
        ensures D.IsArmed(t.d, r) && r !in ended && r in t.d.streams
        ensures t.d.streams[r].count == |t.d.streams[r].arrived|
        ensures Of(t.effects, r) == ReceiveAll(FRESH, t.d.streams[r].arrived).executed
      {
        DoneConnection(t, ended, N, r);
      }
    }
  }
}
