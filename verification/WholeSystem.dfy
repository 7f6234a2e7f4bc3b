/** The dispatch protocol and the durable store running together: workers carry messages from
    connections into the table and the log while snapshots come and go. */
module WholeSystem {
  import opened KeyValue
  import opened LogFormat
  import opened Protocol
  import opened Connections
  import opened SerialExecution
  import Storage
  import Text
  import SequentialServer
  import D = Dispatching
  import U = Durability

  /** The two protocols side by side; all messages executed since the server started, in the
      order in which they took effect, with the replies computed for them; and the store it
      started with. */
  datatype System = System(d: D.State, u: U.State, effects: seq<Executed>, base: Store)

  datatype Executed = Executed(socket: Socket, message: string, reply: string)

  /** A dispatch step, a log append by a worker, a step of the snapshotter, or a crash with the
      restart after it.  A message that mutates takes effect together with its map write, one
      that reads with its lookup. */
  datatype Action =
    | Handle(step: D.Action) | LogAppend(worker: D.Worker) | Snapshot(scan: U.Action) | Crash

  const INITIAL := System(D.INITIAL, U.INITIAL, [], map[])

  predicate SnapshotAction(a: U.Action) {
    a.Truncate? || a.LockTable? || a.WriteLine? || a.EndScan? || a.Reset?
  }

  /** The mutation that comes with an Effect step, if its message has one. */
  function MutationAt(st: D.State, a: D.Action): Option<Op>
    requires D.Enabled(st, a)
  {
    if a.Effect? then MutationOf(st.running[a.w].stage.message) else None
  }

  /** The reply as the handler computes it: a GET looks only at whether the string found is
      empty. */
  function Answer(live: Store, message: string): string {
    match Parse(message)
    case PutValue(_, _) => INSERTED
    case MissingValue => EMPTY_VALUE
    case GetValue(k) => SequentialServer.GetReply(if k in live then live[k] else "")
    case RemoveKey(_) => DELETED
    case Unknown => NO_COMMAND
  }

  function EffectOf(s: System, w: D.Worker): Executed
    requires D.Enabled(s.d, D.Effect(w))
  {
    var work := s.d.running[w];
    Executed(work.socket, work.stage.message, Answer(s.u.live, work.stage.message))
  }

  /** A worker with a map write behind it appends to the log before it finishes. */
  ghost predicate Enabled(s: System, a: Action) {
    match a
    case Handle(b) =>
      && D.Enabled(s.d, b)
      && (b.Finish? ==> b.w !in s.u.pending)
      && (MutationAt(s.d, b).Some? ==> U.Enabled(s.u, U.MapWrite(b.w, MutationAt(s.d, b).value)))
    case LogAppend(w) => U.Enabled(s.u, U.Append(w))
    case Snapshot(b) => SnapshotAction(b) && U.Enabled(s.u, b)
    case Crash => true
  }

  ghost function Next(s: System, a: Action): System
    requires Enabled(s, a)
  {
    match a
    case Handle(b) =>
      var m := MutationAt(s.d, b);
      System(D.Next(s.d, b),
             if m.Some? then U.Next(s.u, U.MapWrite(b.w, m.value)) else s.u,
             if b.Effect? then s.effects + [EffectOf(s, b.w)] else s.effects,
             s.base)
    case LogAppend(w) => s.(u := U.Next(s.u, U.Append(w)))
    case Snapshot(b) => s.(u := U.Next(s.u, b))
    case Crash => System(D.INITIAL, U.Next(s.u, U.Crash), [], U.Disk(s.u))
  }

  /** The durability step inside, if any. */
  ghost function Inside(s: System, a: Action): Option<U.Action>
    requires Enabled(s, a)
  {
    match a
    case Handle(b) =>
      var m := MutationAt(s.d, b);
      if m.Some? then Some(U.MapWrite(b.w, m.value)) else None
    case LogAppend(w) => Some(U.Append(w))
    case Snapshot(b) => Some(b)
    case Crash => Some(U.Crash)
  }

  lemma InsideStep(s: System, a: Action)
    requires Enabled(s, a)
    ensures var i := Inside(s, a);
            && (i.Some? ==> U.Enabled(s.u, i.value) && Next(s, a).u == U.Next(s.u, i.value))
            && (i.None? ==> Next(s, a).u == s.u)
  {
  }

  // One order for all effects.

  /** Executing messages one after the other on a plain store. */
  function OneByOne(base: Store, effects: seq<Executed>): Store {
    if effects == [] then base
    else StoreAfter(OneByOne(base, effects[..|effects| - 1]), effects[|effects| - 1].message)
  }

  function Of(effects: seq<Executed>, s: Socket): seq<string> {
    if effects == [] then []
    else
      var n := |effects| - 1;
      Of(effects[..n], s) + if effects[n].socket == s then [effects[n].message] else []
  }

  lemma OneByOneSnoc(base: Store, effects: seq<Executed>, e: Executed)
    ensures OneByOne(base, effects + [e]) == StoreAfter(OneByOne(base, effects), e.message)
  {
    assert (effects + [e])[..|effects|] == effects;
  }

  lemma OfSnoc(effects: seq<Executed>, e: Executed, s: Socket)
    ensures Of(effects + [e], s) == Of(effects, s) + if e.socket == s then [e.message] else []
  {
    assert (effects + [e])[..|effects|] == effects;
  }

  lemma {:induction false} OfConcat(a: seq<Executed>, b: seq<Executed>, s: Socket)
    ensures Of(a + b, s) == Of(a, s) + Of(b, s)
    decreases |b|
  {
    if b == [] {
      assert a + b == a;
    } else {
      var b', e := b[..|b| - 1], b[|b| - 1];
      var last := if e.socket == s then [e.message] else [];
      assert b == b' + [e];
      OfConcat(a, b', s);
      Text.Regroup(a, b', [e]);
      OfSnoc(a + b', e, s);
      OfSnoc(b', e, s);
      Text.Regroup(Of(a, s), Of(b', s), last);
    }
  }

  /** Each reply is what a plain store calls for on which exactly the effects before it have
      been executed. */
  predicate RightReplies(base: Store, effects: seq<Executed>) {
    forall i :: 0 <= i < |effects| ==>
      effects[i].reply == Reply(OneByOne(base, effects[..i]), effects[i].message)
  }

  lemma RightRepliesSnoc(base: Store, effects: seq<Executed>, e: Executed)
    requires RightReplies(base, effects) && e.reply == Reply(OneByOne(base, effects), e.message)
    ensures RightReplies(base, effects + [e])
  {
    var all := effects + [e];
    forall i | 0 <= i < |all| ensures all[i].reply == Reply(OneByOne(base, all[..i]), all[i].message) {
      assert all[..i] == effects[..i];
      assert i == |effects| ==> effects[..i] == effects;
    }
  }

  /** No stored value is empty, so the test for an empty string decides. */
  lemma AnswerIsReply(live: Store, message: string)
    requires TokenStore(live)
    ensures Answer(live, message) == Reply(live, message)
  {
  }

  /** The live store is that of the effects executed one by one, the replies are right for
      that order, and the effects of one connection are its executed messages. */
  ghost predicate Linear(s: System) {
    && s.u.live == OneByOne(s.base, s.effects)
    && RightReplies(s.base, s.effects)
    && forall r :: Of(s.effects, r) == if r in s.d.streams then s.d.streams[r].executed else []
  }

  /** Only an Effect step changes what has been executed, and for its own socket only. */
  lemma ExecutedChanges(st: D.State, a: D.Action, r: Socket)
    requires D.Placed(st) && D.Enabled(st, a)
    ensures var t := D.Next(st, a);
            var before := if r in st.streams then st.streams[r].executed else [];
            var after := if r in t.streams then t.streams[r].executed else [];
            after == if a.Effect? && st.running[a.w].socket == r
                     then before + [st.running[a.w].stage.message] else before
  {
    if a.Recv? || a.AppendChunk? || a.Judge? || a.Effect? {
      assert D.HasPlace(st, st.running[a.w].socket, D.Held(a.w));
    }
  }

  lemma EffectIsOrdered(s: System, w: D.Worker, r: Socket)
    requires Linear(s) && D.Placed(s.d) && Enabled(s, Handle(D.Effect(w)))
    ensures var t := Next(s, Handle(D.Effect(w)));
            Of(t.effects, r) == if r in t.d.streams then t.d.streams[r].executed else []
  {
    ExecutedChanges(s.d, D.Effect(w), r);
    OfSnoc(s.effects, EffectOf(s, w), r);
  }

  lemma EffectIsAnswered(s: System, w: D.Worker)
    requires Linear(s) && U.CleanState(s.u) && Enabled(s, Handle(D.Effect(w)))
    ensures var t := Next(s, Handle(D.Effect(w)));
            t.u.live == OneByOne(t.base, t.effects) && RightReplies(t.base, t.effects)
  {
    var e := EffectOf(s, w);
    AnswerIsReply(s.u.live, e.message);
    RightRepliesSnoc(s.base, s.effects, e);
    OneByOneSnoc(s.base, s.effects, e);
  }

  lemma EffectKeepsLinear(s: System, w: D.Worker)
    requires Linear(s) && D.Placed(s.d) && U.CleanState(s.u) && Enabled(s, Handle(D.Effect(w)))
    ensures Linear(Next(s, Handle(D.Effect(w))))
  {
    var t := Next(s, Handle(D.Effect(w)));
    EffectIsAnswered(s, w);
    forall r ensures Of(t.effects, r) == if r in t.d.streams then t.d.streams[r].executed else [] {
      EffectIsOrdered(s, w, r);
    }
  }

  lemma QuietHandleKeepsLinear(s: System, b: D.Action)
    requires Linear(s) && D.Placed(s.d) && Enabled(s, Handle(b)) && !b.Effect?
    ensures Linear(Next(s, Handle(b)))
  {
    var t := Next(s, Handle(b));
    forall r ensures Of(t.effects, r) == if r in t.d.streams then t.d.streams[r].executed else [] {
      ExecutedChanges(s.d, b, r);
    }
  }

  // A worker past its effect and its pending mutation.

  predicate HasActed(st: D.State, w: D.Worker) {
    w in st.running && st.running[w].stage.Acted?
  }

  /** A mutation in flight is that of the message its worker has just put into effect. */
  predicate Coupled(s: System) {
    forall w :: w in s.u.pending ==>
      HasActed(s.d, w) && MutationOf(s.d.running[w].stage.message) == Some(s.u.pending[w])
  }

  /** A dispatch step leaves a worker past its effect alone, unless it is that worker's return. */
  lemma ActedStays(st: D.State, a: D.Action, v: D.Worker)
    requires D.Enabled(st, a) && HasActed(st, v)
    requires !(a.Finish? && a.w == v)
    ensures v in D.Next(st, a).running && D.Next(st, a).running[v] == st.running[v]
  {
  }

  lemma HandleKeepsCoupled(s: System, b: D.Action)
    requires Coupled(s) && Enabled(s, Handle(b))
    ensures Coupled(Next(s, Handle(b)))
  {
    var t := Next(s, Handle(b));
    forall v | v in t.u.pending
      ensures HasActed(t.d, v) && MutationOf(t.d.running[v].stage.message) == Some(t.u.pending[v])
    {
      if v in s.u.pending {
        ActedStays(s.d, b, v);
      }
    }
  }

  lemma StepKeepsCoupled(s: System, a: Action)
    requires Coupled(s) && Enabled(s, a)
    ensures Coupled(Next(s, a))
  {
    if a.Handle? {
      HandleKeepsCoupled(s, a.step);
    } else if !a.Crash? {
      FilesKeepCoupled(s, a);
    }
  }

  /** Appends and snapshots put no mutation in flight. */
  lemma FilesKeepCoupled(s: System, a: Action)
    requires Coupled(s) && Enabled(s, a) && (a.LogAppend? || a.Snapshot?)
    ensures Coupled(Next(s, a))
  {
    var t := Next(s, a);
    assert t.d == s.d;
    forall v | v in t.u.pending ensures v in s.u.pending && t.u.pending[v] == s.u.pending[v] {
    }
  }

  // What holds in every run.

  ghost predicate Kept(s: System) {
    D.Placed(s.d) && Serial(s.d) && Linear(s) && Coupled(s) && U.Inv(s.u) && U.CleanState(s.u)
  }

  lemma StepKeepsDispatch(s: System, a: Action)
    requires D.Placed(s.d) && Serial(s.d) && Enabled(s, a)
    ensures D.Placed(Next(s, a).d) && Serial(Next(s, a).d)
  {
    if a.Handle? {
      D.StepKeepsPlaces(s.d, a.step);
      StepKeepsSerial(s.d, a.step);
    }
  }

  lemma StepKeepsLinear(s: System, a: Action)
    requires Linear(s) && D.Placed(s.d) && U.CleanState(s.u) && Enabled(s, a)
    ensures Linear(Next(s, a))
  {
    if a.Handle? {
      if a.step.Effect? {
        EffectKeepsLinear(s, a.step.w);
      } else {
        QuietHandleKeepsLinear(s, a.step);
      }
    } else if a.Crash? {
      CrashKeepsLinear(s);
    } else {
      FilesKeepStore(s, a);
      LinearAgain(s, Next(s, a));
    }
  }

  lemma CrashKeepsLinear(s: System)
    ensures Linear(Next(s, Crash))
  {
    var t := Next(s, Crash);
    assert t.effects == [] && t.d.streams == map[];
    assert OneByOne(t.base, []) == t.base;
  }

  lemma FilesKeepStore(s: System, a: Action)
    requires Enabled(s, a) && (a.LogAppend? || a.Snapshot?)
    ensures var t := Next(s, a);
            t.u.live == s.u.live && t.d == s.d && t.effects == s.effects && t.base == s.base
  {
  }

  lemma LinearAgain(s: System, t: System)
    requires Linear(s) && t.u.live == s.u.live && t.d == s.d && t.effects == s.effects && t.base == s.base
    ensures Linear(t)
  {
  }

  lemma StepKeepsDurability(s: System, a: Action)
    requires U.Inv(s.u) && U.CleanState(s.u) && Enabled(s, a)
    ensures U.Inv(Next(s, a).u) && U.CleanState(Next(s, a).u)
  {
    InsideStep(s, a);
    if Inside(s, a).Some? {
      U.StepKeepsInv(s.u, Inside(s, a).value);
      U.StepKeepsClean(s.u, Inside(s, a).value);
    }
  }

  lemma StepKeepsAll(s: System, a: Action)
    requires Kept(s) && Enabled(s, a)
    ensures Kept(Next(s, a))
  {
    StepKeepsDispatch(s, a);
    StepKeepsLinear(s, a);
    StepKeepsCoupled(s, a);
    StepKeepsDurability(s, a);
  }

  ghost predicate Legal(s: System, run: seq<Action>)
    decreases |run|
  {
    run != [] ==> Enabled(s, run[0]) && Legal(Next(s, run[0]), run[1..])
  }

  ghost function After(s: System, run: seq<Action>): System
    requires Legal(s, run)
    decreases |run|
  {
    if run == [] then s else After(Next(s, run[0]), run[1..])
  }

  lemma {:induction false} RunKeepsAll(s: System, run: seq<Action>)
    requires Kept(s) && Legal(s, run)
    ensures Kept(After(s, run))
    decreases |run|
  {
    if run != [] {
      StepKeepsAll(s, run[0]);
      RunKeepsAll(Next(s, run[0]), run[1..]);
    }
  }

  lemma InitialIsKept()
    ensures Kept(INITIAL)
  {
    U.InitialInv();
  }

  /** In every run, whatever workers and snapshotter do: there is one order of all messages
      executed since the last start in which those of each connection are exactly what a lone handler fed its
      chunks would have executed so far, every reply is what a plain store calls for at that
      place of the order, and the live store is what the whole order makes of the one the
      server started with. */
  lemma EffectsAreLinear(run: seq<Action>)
    requires Legal(INITIAL, run)
    ensures var s := After(INITIAL, run);
            && s.u.live == OneByOne(s.base, s.effects)
            && (forall i :: 0 <= i < |s.effects| ==>
                  s.effects[i].reply == Reply(OneByOne(s.base, s.effects[..i]), s.effects[i].message))
            && forall r :: r in s.d.streams && (forall w :: !D.HeldBy(s.d, w, r)) ==>
                 var m := s.d.streams[r];
                 m.count <= |m.arrived| && Of(s.effects, r) == ReceiveAll(FRESH, m.arrived[..m.count]).executed
  {
    InitialIsKept();
    RunKeepsAll(INITIAL, run);
    var s := After(INITIAL, run);
    forall r | r in s.d.streams && (forall w :: !D.HeldBy(s.d, w, r))
      ensures var m := s.d.streams[r];
              m.count <= |m.arrived| && Of(s.effects, r) == ReceiveAll(FRESH, m.arrived[..m.count]).executed
    {
      IdleIsSettled(s, r);
    }
  }

  lemma IdleIsSettled(s: System, r: Socket)
    requires Linear(s) && Serial(s.d) && r in s.d.streams && forall w :: !D.HeldBy(s.d, w, r)
    ensures var m := s.d.streams[r];
            && m.count <= |m.arrived| && Of(s.effects, r) == Alone(m).executed
            && Alone(m) == ReceiveAll(FRESH, m.arrived[..m.count])
  {
  }

  // The order extends real time.

  predicate NoCrash(run: seq<Action>) {
    forall i :: 0 <= i < |run| ==> !run[i].Crash?
  }

  lemma {:induction false} EffectsOnlyGrow(s: System, run: seq<Action>)
    requires Legal(s, run) && NoCrash(run)
    ensures s.effects <= After(s, run).effects
    decreases |run|
  {
    if run != [] {
      var t := Next(s, run[0]);
      assert s.effects <= t.effects;
      EffectsOnlyGrow(t, run[1..]);
      ExtendFurther(s.effects, t.effects, After(s, run).effects);
    }
  }

  lemma ExtendFurther<T>(a: seq<T>, b: seq<T>, c: seq<T>)
    requires a <= b <= c
    ensures a <= c
  {
  }

  predicate Extends(m: D.Stream, n: D.Stream) {
    m.arrived <= n.arrived && m.count <= n.count
  }

  lemma StepExtends(st: D.State, a: D.Action, r: Socket)
    requires D.Placed(st) && D.Enabled(st, a) && r in st.streams
    ensures r in D.Next(st, a).streams && Extends(st.streams[r], D.Next(st, a).streams[r])
  {
    if a.Recv? || a.AppendChunk? || a.Judge? || a.Effect? {
      assert D.HasPlace(st, st.running[a.w].socket, D.Held(a.w));
    }
  }

  lemma SystemExtends(s: System, a: Action, r: Socket)
    requires D.Placed(s.d) && Enabled(s, a) && !a.Crash? && r in s.d.streams
    ensures r in Next(s, a).d.streams && Extends(s.d.streams[r], Next(s, a).d.streams[r])
  {
    if a.Handle? {
      StepExtends(s.d, a.step, r);
    }
  }

  lemma StepKeepsPlaced(s: System, a: Action)
    requires D.Placed(s.d) && Enabled(s, a) && !a.Crash?
    ensures D.Placed(Next(s, a).d)
  {
    if a.Handle? {
      D.StepKeepsPlaces(s.d, a.step);
    } else {
      FilesKeepStore(s, a);
    }
  }

  lemma ExtendsFurther(m: D.Stream, n: D.Stream, o: D.Stream)
    requires Extends(m, n) && Extends(n, o)
    ensures Extends(m, o)
  {
    ExtendFurther(m.arrived, n.arrived, o.arrived);
  }

  lemma {:induction false} RunExtends(s: System, run: seq<Action>, r: Socket)
    requires D.Placed(s.d) && Legal(s, run) && NoCrash(run) && r in s.d.streams
    ensures r in After(s, run).d.streams && Extends(s.d.streams[r], After(s, run).d.streams[r])
    decreases |run|
  {
    if run != [] {
      var t := Next(s, run[0]);
      SystemExtends(s, run[0], r);
      StepKeepsPlaced(s, run[0]);
      RunExtends(t, run[1..], r);
      ExtendsFurther(s.d.streams[r], t.d.streams[r], After(s, run).d.streams[r]);
    }
  }

  /** The lone handler going on with the chunks received since. */
  lemma AloneGoesOn(m: D.Stream, n: D.Stream)
    requires Extends(m, n) && m.count <= |m.arrived| && n.count <= |n.arrived|
    ensures m.count <= n.count <= |n.arrived|
    ensures Alone(n).executed
         == Alone(m).executed + ReceiveAll(Alone(m).(executed := []), n.arrived[m.count..n.count]).executed
  {
    var old', new' := m.arrived[..m.count], n.arrived[m.count..n.count];
    assert n.arrived[..n.count] == old' + new' by {
      assert n.arrived[..m.count] == old';
    }
    ReceiveAllConcat(FRESH, old', new');
    var h := Alone(m);
    ExecutedShift(h.(executed := []), h.executed, new');
    assert h.executed + [] == h.executed;
  }

  /** Going on from any reachable state: the order is only extended, so a message answered by
      then stands before everything received later; and what is added for a connection is
      exactly what the chunks received since complete, but for the one message, if any, that a
      worker had or has received in full and not yet executed. */
  lemma OrderExtendsRealTime(before: seq<Action>, since: seq<Action>, r: Socket)
    requires Legal(INITIAL, before) && Legal(After(INITIAL, before), since) && NoCrash(since)
    ensures var s := After(INITIAL, before);
            var t := After(s, since);
            s.effects <= t.effects && (r in s.d.streams ==> Added(s, t, r))
  {
    var s := After(INITIAL, before);
    InitialIsKept();
    RunKeepsAll(INITIAL, before);
    RunKeepsAll(s, since);
    EffectsOnlyGrow(s, since);
    if r in s.d.streams {
      RunExtends(s, since, r);
      AddedSince(s, After(s, since), r);
    }
  }

  predicate Countable(s: System, r: Socket) {
    r in s.d.streams
    && var m := s.d.streams[r];
       && m.count <= |m.arrived| && m.executed <= Alone(m).executed
       && |Owed(m)| <= 1 && (WorkOn(s.d, r) == None ==> Owed(m) == [])
  }

  /** What has become of the chunks of one connection between two states. */
  predicate Added(s: System, t: System, r: Socket) {
    && Countable(s, r) && Countable(t, r) && |s.effects| <= |t.effects|
    && var m, n := s.d.streams[r], t.d.streams[r];
       && m.count <= n.count
       && Of(t.effects[|s.effects|..], r) + Owed(n)
          == Owed(m) + ReceiveAll(Alone(m).(executed := []), n.arrived[m.count..n.count]).executed
  }

  lemma AllIsCountable(s: System, r: Socket)
    requires Serial(s.d) && r in s.d.streams
    ensures Countable(s, r)
  {
    OwedIsAtMostOne(s.d.streams[r], WorkOn(s.d, r), r in s.d.net.connections);
  }

  lemma AddedSince(s: System, t: System, r: Socket)
    requires Linear(s) && Serial(s.d) && Linear(t) && Serial(t.d) && s.effects <= t.effects
    requires r in s.d.streams && r in t.d.streams && Extends(s.d.streams[r], t.d.streams[r])
    ensures Added(s, t, r)
  {
    var m, n := s.d.streams[r], t.d.streams[r];
    AllIsCountable(s, r);
    AllIsCountable(t, r);
    AloneGoesOn(m, n);
    TailOf(s.effects, t.effects, r, m, n,
           ReceiveAll(Alone(m).(executed := []), n.arrived[m.count..n.count]).executed);
  }

  lemma TailOf(a: seq<Executed>, b: seq<Executed>, r: Socket, m: D.Stream, n: D.Stream, added: seq<string>)
    requires a <= b && Of(a, r) == m.executed && Of(b, r) == n.executed
    requires m.count <= |m.arrived| && m.executed <= Alone(m).executed
    requires n.count <= |n.arrived| && n.executed <= Alone(n).executed
    requires Alone(n).executed == Alone(m).executed + added
    ensures Of(b[|a|..], r) + Owed(n) == Owed(m) + added
  {
    var tail := Of(b[|a|..], r);
    PrefixAndRest(a, b);
    OfConcat(a, b[|a|..], r);
    PrefixAndRest(m.executed, Alone(m).executed);
    PrefixAndRest(n.executed, Alone(n).executed);
    Text.Regroup(m.executed, tail, Owed(n));
    Text.Regroup(m.executed, Owed(m), added);
    SameTail(m.executed, tail + Owed(n), Owed(m) + added);
  }

  lemma SameTail(a: seq<string>, b: seq<string>, c: seq<string>)
    requires a + b == a + c
    ensures b == c
  {
    assert b == (a + b)[|a|..];
    assert c == (a + c)[|a|..];
  }

  // Recovery.

  /** Memory and disk, key by key, in every run whatever. */
  lemma EveryRunExactly(run: seq<Action>, k: string)
    requires Legal(INITIAL, run) && !U.PendingOn(After(INITIAL, run).u, k)
    ensures var u := After(INITIAL, run).u;
            && (k in Touched(u.log) || k in u.lost ==> k in u.last)
            && (Lookup(U.Disk(u), k) == Lookup(u.live, k) <==>
                if k in Touched(u.log) then Result(LastOn(u.log, k).value) == Result(u.last[k])
                else k !in U.Unwritten(u) && (k in u.lost ==> Lookup(U.Base(u), k) == Result(u.last[k])))
  {
    InitialIsKept();
    RunKeepsAll(INITIAL, run);
    U.AgreementExactly(After(INITIAL, run).u, k);
  }

  function MutatedKey(message: string): Option<string> {
    var m := MutationOf(message);
    if m.Some? then Some(m.value.key) else None
  }

  /** When a mutation takes effect, no other mutation of the same key is still to be logged.
      As replies are sent after that, clients see to it by waiting for the reply before anyone
      mutates the key again, through whatever connection. */
  ghost predicate NoOverlap(s: System, a: Action) {
    a.Handle? && D.Enabled(s.d, a.step) && MutationAt(s.d, a.step).Some? ==>
      forall v :: v in s.u.pending && v != a.step.w ==>
        s.u.pending[v].key != MutationAt(s.d, a.step).value.key
  }

  lemma NoOverlapKeepsExclusive(s: System, a: Action)
    requires U.Exclusive(s.u) && Enabled(s, a) && NoOverlap(s, a)
    ensures U.Exclusive(Next(s, a).u)
  {
    InsideStep(s, a);
  }

  ghost predicate Spaced(s: System, run: seq<Action>)
    requires Legal(s, run)
    decreases |run|
  {
    run != [] ==> NoOverlap(s, run[0]) && Spaced(Next(s, run[0]), run[1..])
  }

  lemma StepKeepsOrderly(s: System, a: Action)
    requires Kept(s) && U.Orderly(s.u) && Enabled(s, a) && NoOverlap(s, a)
    ensures U.Orderly(Next(s, a).u)
  {
    NoOverlapKeepsExclusive(s, a);
    InsideStep(s, a);
    if Inside(s, a).Some? {
      U.StepKeepsOrderly(s.u, Inside(s, a).value);
    }
  }

  lemma {:induction false} RunKeepsOrderly(s: System, run: seq<Action>)
    requires Kept(s) && U.Orderly(s.u) && Legal(s, run) && Spaced(s, run)
    ensures U.Orderly(After(s, run).u)
    decreases |run|
  {
    if run != [] {
      StepKeepsAll(s, run[0]);
      StepKeepsOrderly(s, run[0]);
      RunKeepsOrderly(Next(s, run[0]), run[1..]);
    }
  }

  /** When no key is mutated again before its last mutation has been answered, the exact
      account of what a restart would recover holds in every reachable state, for keys at
      rest and for keys in flight. */
  lemma SpacedKeysAreDurable(run: seq<Action>, k: string)
    requires Legal(INITIAL, run) && Spaced(INITIAL, run)
    ensures var u := After(INITIAL, run).u;
            var agree := Lookup(U.Disk(u), k) == Lookup(u.live, k);
            var stale := k in u.lost && Lookup(U.Base(u), k) != Lookup(u.live, k);
            && U.Exclusive(u)
            && (!U.PendingOn(u, k) ==> (agree <==> k !in U.Unwritten(u) && !stale))
            && (forall w :: w in u.pending && u.pending[w].key == k ==>
                  w in u.over && Lookup(U.Disk(u), k) == U.DiskInFlight(u, w))
  {
    InitialIsKept();
    U.InitialInv();
    RunKeepsAll(INITIAL, run);
    RunKeepsOrderly(INITIAL, run);
    var u := After(INITIAL, run).u;
    if !U.PendingOn(u, k) {
      U.AgreementIffNotExposed(u, k);
    }
    forall w | w in u.pending && u.pending[w].key == k
      ensures w in u.over && Lookup(U.Disk(u), k) == U.DiskInFlight(u, w)
    {
      U.InFlightExactly(u, w);
    }
  }

  /** What a crash leaves, whenever it comes: all connections are gone, and the server starts
      again with the store that the bytes of the files hold.  A key whose mutations are all
      answered then has what the order of messages had made of it, exactly unless its snapshot
      line was still unwritten or a reset had dropped it with another value; a key with a
      mutation not yet logged has what the disk is known to hold in that case. */
  lemma WhatACrashLeaves(run: seq<Action>, k: string)
    requires Legal(INITIAL, run) && Spaced(INITIAL, run)
    ensures var s := After(INITIAL, run);
            var t := Next(s, Crash);
            && t.d == D.INITIAL && t.u.live == t.base
            && t.base == Recover(Some(Storage.SnapshotText(s.u.rdb)), LogText(s.u.log))
            && (!U.PendingOn(s.u, k) ==>
                  (Lookup(t.base, k) == Lookup(OneByOne(s.base, s.effects), k) <==>
                     k !in U.Unwritten(s.u)
                     && !(k in s.u.lost && Lookup(U.Base(s.u), k) != Lookup(OneByOne(s.base, s.effects), k))))
            && (forall w :: w in s.u.pending && s.u.pending[w].key == k ==>
                  w in s.u.over && Lookup(t.base, k) == U.DiskInFlight(s.u, w))
  {
    InitialIsKept();
    RunKeepsAll(INITIAL, run);
    SpacedKeysAreDurable(run, k);
    U.FilesHoldDisk(After(INITIAL, run).u);
  }

  // Clients with keys of their own are one way to get there.

  /** Every mutation of a key comes through the connection that owns the key. */
  predicate OwnKey(owner: string -> Socket, s: System, a: Action) {
    a.Handle? && D.Enabled(s.d, a.step) && MutationAt(s.d, a.step).Some? ==>
      owner(MutationAt(s.d, a.step).value.key) == s.d.running[a.step.w].socket
  }

  ghost predicate OwnedActs(owner: string -> Socket, st: D.State) {
    forall w :: HasActed(st, w) && MutatedKey(st.running[w].stage.message).Some? ==>
      owner(MutatedKey(st.running[w].stage.message).value) == st.running[w].socket
  }

  lemma OneWorkerPerSocket(st: D.State, v: D.Worker, w: D.Worker)
    requires D.Placed(st) && v in st.running && w in st.running
    requires st.running[v].socket == st.running[w].socket
    ensures v == w
  {
    assert D.HasPlace(st, st.running[v].socket, D.Held(v));
    assert D.HasPlace(st, st.running[w].socket, D.Held(w));
  }

  /** What is pending on a key, its owner's worker has made pending. */
  lemma OwnerHolds(owner: string -> Socket, s: System, v: D.Worker)
    requires Coupled(s) && OwnedActs(owner, s.d) && v in s.u.pending
    ensures v in s.d.running && s.d.running[v].socket == owner(s.u.pending[v].key)
  {
    assert HasActed(s.d, v) && MutatedKey(s.d.running[v].stage.message) == Some(s.u.pending[v].key);
  }

  lemma OwnersDiffer(owner: string -> Socket, s: System, w: D.Worker, key: string)
    requires D.Placed(s.d) && Coupled(s) && OwnedActs(owner, s.d)
    requires w in s.d.running && owner(key) == s.d.running[w].socket
    ensures forall v :: v in s.u.pending && v != w ==> s.u.pending[v].key != key
  {
    forall v | v in s.u.pending && v != w ensures s.u.pending[v].key != key {
      OwnerHolds(owner, s, v);
      if s.u.pending[v].key == key {
        OneWorkerPerSocket(s.d, v, w);
      }
    }
  }

  /** One worker per connection and one connection per key leave no overlap. */
  lemma OwnKeysNeverOverlap(owner: string -> Socket, s: System, a: Action)
    requires D.Placed(s.d) && Coupled(s) && OwnedActs(owner, s.d) && Enabled(s, a) && OwnKey(owner, s, a)
    ensures NoOverlap(s, a)
  {
    if a.Handle? && MutationAt(s.d, a.step).Some? {
      OwnersDiffer(owner, s, a.step.w, MutationAt(s.d, a.step).value.key);
    }
  }

  /** A worker past its effect was there before, or has just got there. */
  lemma ActedComesFrom(st: D.State, a: D.Action, w: D.Worker)
    requires D.Enabled(st, a) && HasActed(D.Next(st, a), w)
    ensures w in st.running && D.Next(st, a).running[w].socket == st.running[w].socket
    ensures a == D.Effect(w) || st.running[w] == D.Next(st, a).running[w]
    ensures a == D.Effect(w) ==> D.Next(st, a).running[w].stage.message == st.running[w].stage.message
  {
  }

  lemma StepKeepsOwnedActs(owner: string -> Socket, s: System, a: Action)
    requires OwnedActs(owner, s.d) && Enabled(s, a) && OwnKey(owner, s, a)
    ensures OwnedActs(owner, Next(s, a).d)
  {
    if a.Handle? {
      var t := Next(s, a).d;
      forall w | HasActed(t, w) && MutatedKey(t.running[w].stage.message).Some?
        ensures owner(MutatedKey(t.running[w].stage.message).value) == t.running[w].socket
      {
        ActedComesFrom(s.d, a.step, w);
      }
    }
  }

  ghost predicate OwnKeys(owner: string -> Socket, s: System, run: seq<Action>)
    requires Legal(s, run)
    decreases |run|
  {
    run != [] ==> OwnKey(owner, s, run[0]) && OwnKeys(owner, Next(s, run[0]), run[1..])
  }

  lemma {:induction false} OwnKeysAreSpaced(owner: string -> Socket, s: System, run: seq<Action>)
    requires Kept(s) && OwnedActs(owner, s.d) && Legal(s, run) && OwnKeys(owner, s, run)
    ensures Spaced(s, run)
    decreases |run|
  {
    if run != [] {
      OwnKeysNeverOverlap(owner, s, run[0]);
      StepKeepsAll(s, run[0]);
      StepKeepsOwnedActs(owner, s, run[0]);
      OwnKeysAreSpaced(owner, Next(s, run[0]), run[1..]);
    }
  }

  // The end of the story.

  /** No mutation takes effect between the end of a scan and the log reset. */
  ghost predicate NoWindowWrites(s: System, run: seq<Action>)
    requires Legal(s, run)
    decreases |run|
  {
    run != [] ==>
      && !(s.u.snap.Scanned? && run[0].Handle? && MutationAt(s.d, run[0].step).Some?)
      && NoWindowWrites(Next(s, run[0]), run[1..])
  }

  lemma {:induction false} NothingLost(s: System, run: seq<Action>)
    requires Legal(s, run) && NoWindowWrites(s, run)
    requires s.u.written == {} && s.u.windowed == {} && s.u.lost == {}
    ensures After(s, run).u.lost == {}
    decreases |run|
  {
    if run != [] {
      InsideStep(s, run[0]);
      if Inside(s, run[0]).Some? {
        U.StepLosesNothing(s.u, Inside(s, run[0]).value);
      }
      NothingLost(Next(s, run[0]), run[1..]);
    }
  }

  lemma RestAgrees(run: seq<Action>)
    requires Legal(INITIAL, run) && Spaced(INITIAL, run) && NoWindowWrites(INITIAL, run)
    requires U.Quiescent(After(INITIAL, run).u)
    ensures U.Disk(After(INITIAL, run).u) == After(INITIAL, run).u.live
  {
    var u := After(INITIAL, run).u;
    NothingLost(INITIAL, run);
    forall k ensures Lookup(U.Disk(u), k) == Lookup(u.live, k) {
      SpacedKeysAreDurable(run, k);
    }
    StoreEquality(U.Disk(u), u.live);
  }

  /** Clients that do not mutate a key before its last mutation is answered, and mutations
      that keep out of the window between scan and reset, make every moment of rest a safe
      one: the bytes of the two files recover exactly what one order of all messages executed
      has made of the store the server started with, and of every connection no worker holds those are exactly the
      messages that the bytes received from it amount to. */
  lemma RestIsSafe(run: seq<Action>)
    requires Legal(INITIAL, run) && Spaced(INITIAL, run) && NoWindowWrites(INITIAL, run)
    requires U.Quiescent(After(INITIAL, run).u)
    ensures var s := After(INITIAL, run);
            && Recover(Some(Storage.SnapshotText(s.u.rdb)), LogText(s.u.log)) == OneByOne(s.base, s.effects)
            && forall r :: r in s.d.streams && (forall w :: !D.HeldBy(s.d, w, r)) ==>
                 var m := s.d.streams[r];
                 m.count <= |m.arrived| && Of(s.effects, r) == ReceiveAll(FRESH, m.arrived[..m.count]).executed
  {
    InitialIsKept();
    RunKeepsAll(INITIAL, run);
    EffectsAreLinear(run);
    RestAgrees(run);
    U.FilesHoldDisk(After(INITIAL, run).u);
  }
}
