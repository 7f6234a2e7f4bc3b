/** Workers and the snapshotter interleaving: a mutation is a map write and later a log
    append; a snapshot is a truncation, a scan under the table lock, and later a log reset.
    Which keys can memory and disk disagree on, and when? */
module Durability {
  import opened Text
  import opened KeyValue
  import opened LogFormat
  import opened Storage

  type Worker = nat

  /** Where the snapshot thread is.  While scanning it holds the table lock shared, so map
      writes wait; log appends do not. */
  datatype Snapshotter = Idle | Truncated | Scanning(rest: seq<Entry>) | Scanned

  /** `live` is the table, `rdb` and `log` the files, `pending` the mutations whose map write
      is done and whose append is not.  The rest is history.  `written`: keys map-written since
      the scan ended; `windowed`: those of them also appended since; `lost`: those the last
      reset dropped from the log that way and nothing has logged or scanned again.  `last`: the
      latest map write of each key; `over`: what each pending mutation overwrote in the map;
      `seen`: mutations that were pending when the last scan ended. */
  datatype State = State(live: Store, rdb: seq<Entry>, log: seq<Op>, pending: map<Worker, Op>,
                         snap: Snapshotter,
                         written: set<string>, windowed: set<string>, lost: set<string>,
                         last: map<string, Op>, over: map<Worker, Option<string>>, seen: set<Worker>)

  datatype Action = MapWrite(w: Worker, op: Op) | Append(w: Worker)
                  | Truncate | LockTable(order: seq<Entry>) | WriteLine | EndScan | Reset
                  | Crash

  const INITIAL := State(map[], [], [], map[], Idle, {}, {}, {}, map[], map[], {})

  /** What a restart would rebuild now. */
  function Disk(s: State): Store {
    Replay(s.log, Base(s))
  }

  function Base(s: State): Store {
    Replay(Inserts(s.rdb), map[])
  }

  /** Mutations a parsed command can ask for. */
  predicate Clean(op: Op) {
    Loggable(op) && (op.Insert? ==> IsToken(op.key) && IsToken(op.value))
  }

  ghost predicate Enabled(s: State, a: Action) {
    match a
    case MapWrite(w, op) => w !in s.pending && !s.snap.Scanning? && Clean(op)
    case Append(w) => w in s.pending
    case Truncate => s.snap.Idle?
    case LockTable(order) => s.snap.Truncated? && Enumerates(order, s.live)
    case WriteLine => s.snap.Scanning? && s.snap.rest != []
    case EndScan => s.snap == Scanning([])
    case Reset => s.snap.Scanned?
    case Crash => true
  }

  function Next(s: State, a: Action): State {
    match a
    case MapWrite(w, op) =>
      s.(live := Apply(s.live, op), pending := s.pending[w := op],
         written := if s.snap.Scanned? then s.written + {op.key} else s.written,
         last := s.last[op.key := op], over := s.over[w := Lookup(s.live, op.key)], seen := s.seen - {w})
    case Append(w) =>
      if w !in s.pending then s else
      var op := s.pending[w];
      s.(log := s.log + [op], pending := s.pending - {w},
         windowed := if op.key in s.written then s.windowed + {op.key} else s.windowed,
         lost := s.lost - {op.key})
    case Truncate => s.(rdb := [], snap := Truncated, lost := {})
    case LockTable(order) => s.(snap := Scanning(order))
    case WriteLine =>
      if s.snap.Scanning? && s.snap.rest != []
      then s.(rdb := s.rdb + [s.snap.rest[0]], snap := Scanning(s.snap.rest[1..]))
      else s
    case EndScan => s.(snap := Scanned, written := {}, windowed := {}, seen := s.pending.Keys)
    case Reset => s.(log := [], snap := Idle, lost := s.windowed, written := {}, windowed := {})
    case Crash =>
      s.(live := Disk(s), pending := map[], snap := Idle, written := {}, windowed := {}, lost := {},
         last := map k | k in Touched(s.log) :: LastOn(s.log, k).value, over := map[], seen := {})
  }

  predicate PendingOn(s: State, k: string) {
    exists w :: w in s.pending && s.pending[w].key == k
  }

  /** No two mutations of one key are in flight at once. */
  predicate Exclusive(s: State) {
    forall w, w' :: w in s.pending && w' in s.pending && s.pending[w].key == s.pending[w'].key ==> w == w'
  }

  /** What a restart would make of one key: the last logged mutation decides, or else the
      snapshot. */
  lemma DiskByKey(s: State, k: string)
    ensures Lookup(Disk(s), k)
         == if k in Touched(s.log) then Result(LastOn(s.log, k).value) else Lookup(Base(s), k)
  {
    ReplayByLast(s.log, Base(s), k);
  }

  // What holds in every run, overlapping mutations or not.

  /** The map shows the latest map write of each key, and every key logged, pending or lost
      has been map-written. */
  ghost predicate LastShown(s: State) {
    && (forall k :: k in s.last ==> Lookup(s.live, k) == Result(s.last[k]))
    && Touched(s.log) <= s.last.Keys && s.lost <= s.last.Keys
    && (forall w :: w in s.pending ==> s.pending[w].key in s.last)
  }

  ghost predicate UnloggedAgree(s: State) {
    match s.snap
    case Idle =>
      && s.written == {} && s.windowed == {}
      && s.lost !! Touched(s.log)
      && forall k :: !PendingOn(s, k) && k !in Touched(s.log) && k !in s.lost ==>
           Lookup(Base(s), k) == Lookup(s.live, k)
    case Truncated => s.rdb == [] && s.lost == {} && s.written == {}
    case Scanning(rest) => Enumerates(s.rdb + rest, s.live) && s.lost == {} && s.written == {}
    case Scanned =>
      && s.lost == {}
      && s.windowed <= s.written && s.windowed <= Touched(s.log)
      && (forall k :: k !in s.written ==> Lookup(Base(s), k) == Lookup(s.live, k))
      && (forall k :: k in s.written && !PendingOn(s, k) ==> k in s.windowed)
  }

  ghost predicate Inv(s: State) {
    LastShown(s) && UnloggedAgree(s)
  }

  /** A step of one worker leaves the other keys as much in flight as they were. */
  lemma PendingElsewhere(s: State, a: Action, key: string, k: string)
    requires a.MapWrite? || a.Append?
    requires Enabled(s, a) && k != key
    requires key == if a.MapWrite? then a.op.key else s.pending[a.w].key
    ensures PendingOn(Next(s, a), k) == PendingOn(s, k)
  {
    var t := Next(s, a);
    if PendingOn(s, k) {
      var v :| v in s.pending && s.pending[v].key == k;
      assert v in t.pending && t.pending[v].key == k;
    }
  }

  lemma MapWriteKeepsInv(s: State, w: Worker, op: Op)
    requires Inv(s) && Enabled(s, MapWrite(w, op))
    ensures Inv(Next(s, MapWrite(w, op)))
  {
    var t := Next(s, MapWrite(w, op));
    assert w in t.pending && t.pending[w].key == op.key;
    forall k | k != op.key ensures PendingOn(t, k) == PendingOn(s, k) {
      PendingElsewhere(s, MapWrite(w, op), op.key, k);
    }
  }

  lemma AppendKeepsInv(s: State, w: Worker)
    requires Inv(s) && Enabled(s, Append(w))
    ensures Inv(Next(s, Append(w)))
  {
    var t, op := Next(s, Append(w)), s.pending[w];
    TouchedSnoc(s.log, op);
    assert PendingOn(s, op.key);
    forall k | k != op.key ensures PendingOn(t, k) == PendingOn(s, k) {
      PendingElsewhere(s, Append(w), op.key, k);
    }
  }

  lemma SnapshotLineKeepsInv(s: State, a: Action)
    requires Inv(s) && Enabled(s, a) && (a.LockTable? || a.WriteLine? || a.EndScan?)
    ensures Inv(Next(s, a))
  {
    var t := Next(s, a);
    match a {
      case LockTable(order) => assert [] + order == order;
      case WriteLine => assert t.rdb + t.snap.rest == s.rdb + s.snap.rest;
      case EndScan =>
        assert s.rdb + [] == s.rdb;
        ReloadEnumeration(s.rdb, s.live);
    }
  }

  lemma ResetKeepsInv(s: State)
    requires Inv(s) && Enabled(s, Reset)
    ensures Inv(Next(s, Reset))
  {
    var t := Next(s, Reset);
    assert Touched(t.log) == {};
    assert forall k :: PendingOn(t, k) == PendingOn(s, k);
  }

  lemma CrashKeepsInv(s: State)
    requires Inv(s)
    ensures Inv(Next(s, Crash))
  {
    var t := Next(s, Crash);
    forall k ensures Lookup(t.live, k) == if k in t.last then Result(t.last[k]) else Lookup(Base(t), k) {
      DiskByKey(s, k);
    }
  }

  lemma StepKeepsInv(s: State, a: Action)
    requires Inv(s) && Enabled(s, a)
    ensures Inv(Next(s, a))
  {
    match a {
      case MapWrite(w, op) => MapWriteKeepsInv(s, w, op);
      case Append(w) => AppendKeepsInv(s, w);
      case Truncate =>
      case Reset => ResetKeepsInv(s);
      case Crash => CrashKeepsInv(s);
      case _ => SnapshotLineKeepsInv(s, a);
    }
  }

  /** Live keys whose snapshot line is still to be written after the truncation and that the
      log does not mention. */
  function Unwritten(s: State): set<string> {
    match s.snap
    case Truncated => s.live.Keys - Touched(s.log)
    case Scanning(rest) => Keys(rest) - Touched(s.log)
    case _ => {}
  }

  lemma ScanInProgress(s: State, k: string)
    requires Inv(s) && s.snap.Scanning?
    ensures k in Keys(s.snap.rest) ==> Lookup(Base(s), k) == None && k in s.live
    ensures k !in Keys(s.snap.rest) ==> Lookup(Base(s), k) == Lookup(s.live, k)
  {
    ReloadPart(s.rdb, s.snap.rest, s.live, k);
  }

  /** A key with nothing in flight is recovered right exactly when the mutation logged last
      has the result of the one map-written last; or, if the log does not mention it, when
      its line is not still unwritten and, had a reset dropped it, when the snapshot has the
      value map-written last. */
  lemma AgreementExactly(s: State, k: string)
    requires Inv(s) && !PendingOn(s, k)
    ensures Lookup(Disk(s), k) == Lookup(s.live, k) <==>
      if k in Touched(s.log) then Result(LastOn(s.log, k).value) == Result(s.last[k])
      else k !in Unwritten(s) && (k in s.lost ==> Lookup(Base(s), k) == Result(s.last[k]))
  {
    DiskByKey(s, k);
    if s.snap.Scanning? && k !in Touched(s.log) {
      ScanInProgress(s, k);
    }
  }

  // What holds besides while no two mutations of one key are in flight at once.

  /** What is pending on a key is its latest map write, and with nothing pending the latest
      is the one logged last. */
  ghost predicate InOrder(s: State) {
    && (forall w :: w in s.pending ==> s.pending[w].key in s.last && s.last[s.pending[w].key] == s.pending[w])
    && (forall k :: k in Touched(s.log) && !PendingOn(s, k) ==>
          k in s.last && LastOn(s.log, k) == Some(s.last[k]))
  }

  /** While a mutation is in flight, a log that mentions its key still ends in what it
      overwrote, and the snapshot has what the scan saw. */
  ghost predicate FlightKept(s: State) {
    forall w :: w in s.pending ==> w in s.over && LoggedFlight(s, w) && ScannedFlight(s, w)
  }

  ghost predicate LoggedFlight(s: State, w: Worker)
    requires w in s.pending && w in s.over
  {
    var k := s.pending[w].key;
    k in Touched(s.log) ==> Result(LastOn(s.log, k).value) == s.over[w]
  }

  ghost predicate ScannedFlight(s: State, w: Worker)
    requires w in s.pending && w in s.over
  {
    var k := s.pending[w].key;
    match s.snap
    case Truncated => true
    case Scanning(_) => true
    case Scanned =>
      if w in s.seen then Lookup(Base(s), k) == Result(s.pending[w])
      else k !in s.windowed ==> Lookup(Base(s), k) == s.over[w]
    case Idle =>
      if w in s.seen then Lookup(Base(s), k) == Result(s.pending[w])
      else k !in s.lost && k !in Touched(s.log) ==> Lookup(Base(s), k) == s.over[w]
  }

  ghost predicate Orderly(s: State) {
    Exclusive(s) && InOrder(s) && FlightKept(s)
  }

  lemma MapWriteKeepsInOrder(s: State, w: Worker, op: Op)
    requires Inv(s) && Orderly(s) && Enabled(s, MapWrite(w, op)) && Exclusive(Next(s, MapWrite(w, op)))
    ensures InOrder(Next(s, MapWrite(w, op)))
  {
    var t := Next(s, MapWrite(w, op));
    assert w in t.pending && t.pending[w].key == op.key;
    forall k | k != op.key ensures PendingOn(t, k) == PendingOn(s, k) {
      PendingElsewhere(s, MapWrite(w, op), op.key, k);
    }
    forall v | v in t.pending ensures t.pending[v].key in t.last && t.last[t.pending[v].key] == t.pending[v] {
      assert v != w ==> v in s.pending && s.pending[v].key != op.key;
    }
  }

  /** The new mutation overwrites what its key had, on disk as in memory. */
  lemma MapWriteStartsFlight(s: State, w: Worker, op: Op)
    requires Inv(s) && Orderly(s) && Enabled(s, MapWrite(w, op)) && Exclusive(Next(s, MapWrite(w, op)))
    ensures var t := Next(s, MapWrite(w, op)); w in t.over && LoggedFlight(t, w) && ScannedFlight(t, w)
  {
    var t := Next(s, MapWrite(w, op));
    forall v | v in s.pending ensures s.pending[v].key != op.key {
      assert v in t.pending && t.pending[v] == s.pending[v] && v != w;
      assert w in t.pending && t.pending[w] == op;
    }
    assert !PendingOn(s, op.key);
  }

  lemma MapWriteKeepsOrderly(s: State, w: Worker, op: Op)
    requires Inv(s) && Orderly(s) && Enabled(s, MapWrite(w, op)) && Exclusive(Next(s, MapWrite(w, op)))
    ensures Orderly(Next(s, MapWrite(w, op)))
  {
    var t := Next(s, MapWrite(w, op));
    MapWriteKeepsInOrder(s, w, op);
    MapWriteStartsFlight(s, w, op);
    forall v | v in t.pending ensures v in t.over && LoggedFlight(t, v) && ScannedFlight(t, v) {
      if v != w {
        assert v in s.over && LoggedFlight(s, v) && ScannedFlight(s, v);
      }
    }
  }

  lemma AppendKeepsInOrder(s: State, w: Worker)
    requires Inv(s) && Orderly(s) && Enabled(s, Append(w))
    ensures InOrder(Next(s, Append(w)))
  {
    var t, op := Next(s, Append(w)), s.pending[w];
    TouchedSnoc(s.log, op);
    forall k | k in Touched(t.log) && !PendingOn(t, k) ensures k in t.last && LastOn(t.log, k) == Some(t.last[k]) {
      LastOnSnoc(s.log, op, k);
      if k != op.key {
        PendingElsewhere(s, Append(w), op.key, k);
      }
    }
  }

  lemma AppendKeepsOrderly(s: State, w: Worker)
    requires Inv(s) && Orderly(s) && Enabled(s, Append(w))
    ensures Orderly(Next(s, Append(w)))
  {
    var t, op := Next(s, Append(w)), s.pending[w];
    AppendKeepsInOrder(s, w);
    TouchedSnoc(s.log, op);
    forall v | v in t.pending ensures v in t.over && LoggedFlight(t, v) && ScannedFlight(t, v) {
      assert v in s.over && LoggedFlight(s, v) && ScannedFlight(s, v);
      assert s.pending[v].key != op.key;
      LastOnSnoc(s.log, op, s.pending[v].key);
    }
  }

  lemma SnapshotStepKeepsOrderly(s: State, a: Action)
    requires Inv(s) && Orderly(s) && Enabled(s, a)
    requires a.Truncate? || a.LockTable? || a.WriteLine? || a.EndScan? || a.Reset?
    ensures Orderly(Next(s, a))
  {
    var t := Next(s, a);
    assert forall k :: PendingOn(t, k) == PendingOn(s, k);
    if a.EndScan? {
      assert s.rdb + [] == s.rdb;
      ReloadEnumeration(s.rdb, s.live);
    }
    assert a.Reset? ==> Touched(t.log) == {};
    forall v | v in t.pending ensures v in t.over && LoggedFlight(t, v) && ScannedFlight(t, v) {
      assert v in s.over && LoggedFlight(s, v) && ScannedFlight(s, v);
    }
  }

  lemma StepKeepsOrderly(s: State, a: Action)
    requires Inv(s) && Orderly(s) && Enabled(s, a) && Exclusive(Next(s, a))
    ensures Orderly(Next(s, a))
  {
    match a {
      case MapWrite(w, op) => MapWriteKeepsOrderly(s, w, op);
      case Append(w) => AppendKeepsOrderly(s, w);
      case Crash =>
      case _ => SnapshotStepKeepsOrderly(s, a);
    }
  }

  /** What the disk holds for a key while a mutation of it is in flight: what that mutation
      overwrote, as long as the log mentions the key; otherwise what the snapshot file has,
      which is nothing between truncation and the key's line, the new value once a scan has
      seen it, what a reset has left there for a key it dropped, and in all other cases again
      what was overwritten. */
  function DiskInFlight(s: State, w: Worker): Option<string>
    requires w in s.pending && w in s.over
  {
    var op := s.pending[w];
    if op.key in Touched(s.log) then s.over[w]
    else match s.snap
      case Truncated => None
      case Scanning(rest) => if op.key in Keys(rest) then None else Result(op)
      case _ =>
        if w in s.seen then Result(op)
        else if op.key in s.lost then Lookup(Base(s), op.key)
        else s.over[w]
  }

  lemma InFlightExactly(s: State, w: Worker)
    requires Inv(s) && Orderly(s) && w in s.pending
    ensures w in s.over
    ensures Lookup(Disk(s), s.pending[w].key) == DiskInFlight(s, w)
    ensures Lookup(s.live, s.pending[w].key) == Result(s.pending[w])
  {
    var k := s.pending[w].key;
    DiskByKey(s, k);
    assert LoggedFlight(s, w) && ScannedFlight(s, w);
    if s.snap.Scanning? && k !in Touched(s.log) {
      ScanInProgress(s, k);
    }
  }

  /** Without overlap the log cannot be out of order, so only exposed keys can differ. */
  lemma AgreementIffNotExposed(s: State, k: string)
    requires Inv(s) && InOrder(s) && !PendingOn(s, k)
    ensures Lookup(Disk(s), k) == Lookup(s.live, k)
       <==> k !in Unwritten(s) && (k in s.lost ==> Lookup(Base(s), k) == Lookup(s.live, k))
  {
    AgreementExactly(s, k);
  }

  // Runs.

  function After(s: State, run: seq<Action>): State
    decreases |run|
  {
    if run == [] then s else After(Next(s, run[0]), run[1..])
  }

  /** The actions can be taken one after the other. */
  ghost predicate Possible(s: State, run: seq<Action>)
    decreases |run|
  {
    run != [] ==> Enabled(s, run[0]) && Possible(Next(s, run[0]), run[1..])
  }

  /** So they can, and mutations stay exclusive per key. */
  ghost predicate Legal(s: State, run: seq<Action>)
    decreases |run|
  {
    && Exclusive(s)
    && (run != [] ==> Enabled(s, run[0]) && Legal(Next(s, run[0]), run[1..]))
  }

  lemma {:induction false} LegalIsPossible(s: State, run: seq<Action>)
    requires Legal(s, run)
    ensures Possible(s, run)
    decreases |run|
  {
    if run != [] {
      LegalIsPossible(Next(s, run[0]), run[1..]);
    }
  }

  lemma {:induction false} RunKeepsInv(s: State, run: seq<Action>)
    requires Inv(s) && Possible(s, run)
    ensures Inv(After(s, run))
    decreases |run|
  {
    if run != [] {
      StepKeepsInv(s, run[0]);
      RunKeepsInv(Next(s, run[0]), run[1..]);
    }
  }

  lemma {:induction false} RunKeepsOrderly(s: State, run: seq<Action>)
    requires Inv(s) && Orderly(s) && Legal(s, run)
    ensures Inv(After(s, run)) && Orderly(After(s, run))
    decreases |run|
  {
    if run != [] {
      assert Exclusive(Next(s, run[0]));
      StepKeepsInv(s, run[0]);
      StepKeepsOrderly(s, run[0]);
      RunKeepsOrderly(Next(s, run[0]), run[1..]);
    }
  }

  lemma InitialInv()
    ensures Inv(INITIAL) && Orderly(INITIAL)
  {
    assert Touched([]) == {};
  }

  /** In every run whatever: on a key with nothing in flight, memory and disk agree exactly
      when the mutation logged last has the result of the one map-written last, or the log
      does not mention the key and the snapshot file is right about it. */
  lemma EveryRunExactly(run: seq<Action>, k: string)
    requires Possible(INITIAL, run) && !PendingOn(After(INITIAL, run), k)
    ensures var s := After(INITIAL, run);
            && (k in Touched(s.log) || k in s.lost ==> k in s.last)
            && (Lookup(Disk(s), k) == Lookup(s.live, k) <==>
                if k in Touched(s.log) then Result(LastOn(s.log, k).value) == Result(s.last[k])
                else k !in Unwritten(s) && (k in s.lost ==> Lookup(Base(s), k) == Result(s.last[k])))
  {
    InitialInv();
    RunKeepsInv(INITIAL, run);
    AgreementExactly(After(INITIAL, run), k);
  }

  /** In every run in which no two mutations of one key overlap: whether memory and disk
      agree on a key with nothing in flight, and what the disk holds for one in flight. */
  lemma ExactDurability(run: seq<Action>, k: string)
    requires Legal(INITIAL, run)
    ensures var s := After(INITIAL, run);
            var agree := Lookup(Disk(s), k) == Lookup(s.live, k);
            var stale := k in s.lost && Lookup(Base(s), k) != Lookup(s.live, k);
            && (!PendingOn(s, k) ==> (agree <==> k !in Unwritten(s) && !stale))
            && (forall w :: w in s.pending && s.pending[w].key == k ==>
                  w in s.over && Lookup(Disk(s), k) == DiskInFlight(s, w))
  {
    var s := After(INITIAL, run);
    InitialInv();
    RunKeepsOrderly(INITIAL, run);
    if !PendingOn(s, k) {
      AgreementIffNotExposed(s, k);
    }
    forall w | w in s.pending && s.pending[w].key == k
      ensures w in s.over && Lookup(Disk(s), k) == DiskInFlight(s, w)
    {
      InFlightExactly(s, w);
    }
  }

  predicate Quiescent(s: State) {
    s.pending == map[] && s.snap.Idle?
  }

  /** The log ends, key by key, in the results that were map-written last. */
  predicate LogInOrder(s: State) {
    forall k :: k in Touched(s.log) && k in s.last ==> Result(LastOn(s.log, k).value) == Result(s.last[k])
  }

  /** Each key the last reset dropped has in the snapshot the value it has now. */
  predicate DropsHarmless(s: State) {
    forall k :: k in s.lost ==> Lookup(Base(s), k) == Lookup(s.live, k)
  }

  /** In every run, whenever nothing is in flight a restart would rebuild exactly the live
      store if and only if the log is in order and nothing dropped has changed. */
  lemma QuiescentRecoveryIff(run: seq<Action>)
    requires Possible(INITIAL, run) && Quiescent(After(INITIAL, run))
    ensures var s := After(INITIAL, run);
            Disk(s) == s.live <==> LogInOrder(s) && DropsHarmless(s)
  {
    var s := After(INITIAL, run);
    InitialInv();
    RunKeepsInv(INITIAL, run);
    forall k
      ensures Lookup(Disk(s), k) == Lookup(s.live, k) <==>
        if k in Touched(s.log) then Result(LastOn(s.log, k).value) == Result(s.last[k])
        else k in s.lost ==> Lookup(Base(s), k) == Lookup(s.live, k)
    {
      AgreementExactly(s, k);
    }
    if LogInOrder(s) && DropsHarmless(s) {
      StoreEquality(Disk(s), s.live);
    }
  }

  /** No map write falls between the end of a scan and the log reset. */
  predicate NoWindowWrites(s: State, run: seq<Action>)
    decreases |run|
  {
    run != [] ==> !(s.snap.Scanned? && run[0].MapWrite?) && NoWindowWrites(Next(s, run[0]), run[1..])
  }

  lemma StepLosesNothing(s: State, a: Action)
    requires !(s.snap.Scanned? && a.MapWrite?) && s.written == {} && s.windowed == {} && s.lost == {}
    ensures var t := Next(s, a); t.written == {} && t.windowed == {} && t.lost == {}
  {
  }

  lemma {:induction false} NothingLost(s: State, run: seq<Action>)
    requires NoWindowWrites(s, run) && s.written == {} && s.windowed == {} && s.lost == {}
    ensures After(s, run).lost == {}
    decreases |run|
  {
    if run != [] {
      StepLosesNothing(s, run[0]);
      NothingLost(Next(s, run[0]), run[1..]);
    }
  }

  /** In particular, if no two mutations of one key overlap and none falls into the window
      between scan and reset, then whenever nothing is in flight a restart would rebuild
      exactly the live store. */
  lemma QuiescentRecovery(run: seq<Action>)
    requires Legal(INITIAL, run) && NoWindowWrites(INITIAL, run)
    requires Quiescent(After(INITIAL, run))
    ensures Disk(After(INITIAL, run)) == After(INITIAL, run).live
  {
    InitialInv();
    LegalIsPossible(INITIAL, run);
    RunKeepsOrderly(INITIAL, run);
    NothingLost(INITIAL, run);
    QuiescentRecoveryIff(run);
  }

  // Both hypotheses are needed.

  ghost predicate Leads(s: State, run: seq<Action>, t: State) {
    Possible(s, run) && After(s, run) == t
  }

  lemma {:induction false} LeadsOn(s: State, a: seq<Action>, t: State, b: seq<Action>, u: State)
    requires Leads(s, a, t) && Leads(t, b, u)
    ensures Leads(s, a + b, u)
    ensures Legal(s, a) && Legal(t, b) ==> Legal(s, a + b)
    decreases |a|
  {
    if a == [] {
      assert a + b == b;
    } else {
      assert (a + b)[1..] == a[1..] + b;
      LeadsOn(Next(s, a[0]), a[1..], t, b, u);
    }
  }

  lemma OneStep(s: State, a: Action)
    requires Enabled(s, a)
    ensures Leads(s, [a], Next(s, a))
    ensures Exclusive(s) && Exclusive(Next(s, a)) ==> Legal(s, [a])
  {
    assert [a][1..] == [];
  }

  lemma TwoSteps(s: State, a: Action, b: Action)
    requires Enabled(s, a) && Enabled(Next(s, a), b)
    ensures Leads(s, [a, b], Next(Next(s, a), b))
    ensures Exclusive(s) && Exclusive(Next(s, a)) && Exclusive(Next(Next(s, a), b)) ==> Legal(s, [a, b])
  {
    OneStep(s, a);
    OneStep(Next(s, a), b);
    LeadsOn(s, [a], Next(s, a), [b], Next(Next(s, a), b));
    assert [a] + [b] == [a, b];
  }

  /** A mutation made and logged in one go, with nothing else in flight. */
  lemma Mutation(s: State, op: Op)
    requires s.pending == map[] && !s.snap.Scanning? && Clean(op)
    ensures var t := Next(Next(s, MapWrite(0, op)), Append(0));
            && Leads(s, [MapWrite(0, op), Append(0)], t) && Legal(s, [MapWrite(0, op), Append(0)])
            && t.live == Apply(s.live, op) && t.pending == map[] && t.snap == s.snap
            && t.log == s.log + [op] && t.rdb == s.rdb
  {
    TwoSteps(s, MapWrite(0, op), Append(0));
  }

  /** Writing out the rest of the table, line by line. */
  function Scan(rest: seq<Entry>): seq<Action>
    decreases |rest|
  {
    if rest == [] then [EndScan] else [WriteLine] + Scan(rest[1..])
  }

  lemma {:induction false} ScanRuns(s: State, rest: seq<Entry>)
    requires s.snap == Scanning(rest) && s.pending == map[]
    ensures var t := s.(rdb := s.rdb + rest, snap := Scanned, written := {}, windowed := {}, seen := {});
            Leads(s, Scan(rest), t) && Legal(s, Scan(rest))
    decreases |rest|
  {
    if rest == [] {
      assert s.rdb + rest == s.rdb;
      OneStep(s, EndScan);
    } else {
      var m := Next(s, WriteLine);
      assert m.rdb + rest[1..] == s.rdb + rest;
      ScanRuns(m, rest[1..]);
      assert Scan(rest)[1..] == Scan(rest[1..]);
    }
  }

  function SnapshotBeforeReset(order: seq<Entry>): seq<Action> {
    [Truncate, LockTable(order)] + Scan(order)
  }

  lemma SnapshotRuns(s: State, order: seq<Entry>)
    requires Quiescent(s) && Enumerates(order, s.live)
    ensures var run := SnapshotBeforeReset(order);
            var t := After(s, run);
            && Leads(s, run, t) && Legal(s, run)
            && t.live == s.live && t.pending == map[] && t.snap.Scanned? && t.rdb == order
  {
    TwoSteps(s, Truncate, LockTable(order));
    var m := Next(Next(s, Truncate), LockTable(order));
    ScanRuns(m, order);
    assert [] + order == order;
    LeadsOn(s, [Truncate, LockTable(order)], m, Scan(order), After(m, Scan(order)));
  }

  /** A snapshot with one mutation made and logged between its scan and its reset. */
  function MutationInWindow(order: seq<Entry>, op: Op): seq<Action> {
    SnapshotBeforeReset(order) + ([MapWrite(0, op), Append(0)] + [Reset])
  }

  /** Whatever the store, such a mutation is acknowledged, everything is at rest, no two
      mutations ever overlapped, and the disk has never heard of it. */
  lemma WindowLosesMutation(s: State, order: seq<Entry>, op: Op)
    requires Quiescent(s) && Enumerates(order, s.live) && Clean(op)
    ensures var run := MutationInWindow(order, op);
            var t := After(s, run);
            && Leads(s, run, t) && Legal(s, run) && Quiescent(t)
            && t.live == Apply(s.live, op) && Disk(t) == s.live
  {
    var snapshot, mutation := SnapshotBeforeReset(order), [MapWrite(0, op), Append(0)];
    SnapshotRuns(s, order);
    var m := After(s, snapshot);
    Mutation(m, op);
    var n := After(m, mutation);
    OneStep(n, Reset);
    var t := Next(n, Reset);
    LeadsOn(m, mutation, n, [Reset], t);
    LeadsOn(s, snapshot, m, mutation + [Reset], t);
    ReloadEnumeration(order, s.live);
  }

  /** So an acknowledged update of a key in the snapshot can be gone after a restart. */
  lemma WindowLosesUpdate()
    ensures exists run: seq<Action> :: Legal(INITIAL, run) && Quiescent(After(INITIAL, run))
              && Lookup(After(INITIAL, run).live, "k") == Some("2")
              && Lookup(Disk(After(INITIAL, run)), "k") == Some("1")
  {
    var order, first, second := [Entry("k", "1")], Insert("k", "1"), Insert("k", "2");
    assert IsToken("k") && IsToken("1") && IsToken("2");
    var setup := [MapWrite(0, first), Append(0)];
    Mutation(INITIAL, first);
    var s := After(INITIAL, setup);
    assert Keys(order) == {"k"} by {
      assert order[0].key in Keys(order);
    }
    WindowLosesMutation(s, order, second);
    LeadsOn(INITIAL, setup, s, MutationInWindow(order, second), After(s, MutationInWindow(order, second)));
    assert Legal(INITIAL, setup + MutationInWindow(order, second));
  }

  function Race(first: Op, second: Op): seq<Action> {
    [MapWrite(0, first), MapWrite(1, second)] + [Append(1), Append(0)]
  }

  /** Two workers mutate one key at once and log in the other order: memory keeps the second
      mutation and the disk the first, with nothing left in flight. */
  lemma RaceDiverges(s: State, first: Op, second: Op)
    requires Quiescent(s) && Clean(first) && Clean(second) && first.key == second.key
    ensures var t := After(s, Race(first, second));
            && Leads(s, Race(first, second), t) && Quiescent(t)
            && Lookup(t.live, first.key) == Result(second)
            && Lookup(Disk(t), first.key) == Result(first)
  {
    var w0, w1 := MapWrite(0, first), MapWrite(1, second);
    TwoSteps(s, w0, w1);
    var m := Next(Next(s, w0), w1);
    TwoSteps(m, Append(1), Append(0));
    var t := Next(Next(m, Append(1)), Append(0));
    LeadsOn(s, [w0, w1], m, [Append(1), Append(0)], t);
    assert t.log == s.log + [second] + [first];
    ReplayAppend(s.log + [second], first, Base(t));
    assert t.pending == map[];
  }

  /** So no snapshot is needed for memory and disk to disagree for good. */
  lemma OverlappingMutationsDiverge()
    ensures exists run: seq<Action> :: Possible(INITIAL, run) && Quiescent(After(INITIAL, run))
              && Lookup(After(INITIAL, run).live, "k") == Some("2")
              && Lookup(Disk(After(INITIAL, run)), "k") == Some("1")
  {
    var first, second := Insert("k", "1"), Insert("k", "2");
    assert IsToken("k") && IsToken("1") && IsToken("2");
    RaceDiverges(INITIAL, first, second);
    assert Possible(INITIAL, Race(first, second));
  }

  // The files.

  /** Only what commands can ask for reaches table, log and snapshot. */
  ghost predicate CleanState(s: State) {
    && (forall w :: w in s.pending ==> Clean(s.pending[w]))
    && (forall i :: 0 <= i < |s.log| ==> Clean(s.log[i]))
    && TokenEntries(s.rdb)
    && (s.snap.Scanning? ==> TokenEntries(s.snap.rest))
    && TokenStore(s.live)
  }

  lemma {:induction false} ReplayStaysClean(ops: seq<Op>, m: Store)
    requires TokenStore(m) && forall i :: 0 <= i < |ops| ==> Clean(ops[i])
    ensures TokenStore(Replay(ops, m))
  {
    if ops != [] {
      ReplayStaysClean(ops[1..], Apply(m, ops[0]));
    }
  }

  lemma StepKeepsClean(s: State, a: Action)
    requires CleanState(s) && Enabled(s, a)
    ensures CleanState(Next(s, a))
  {
    if a.Crash? {
      ReplayStaysClean(Inserts(s.rdb), map[]);
      ReplayStaysClean(s.log, Base(s));
    }
  }

  lemma {:induction false} RunKeepsClean(s: State, run: seq<Action>)
    requires CleanState(s) && Possible(s, run)
    ensures CleanState(After(s, run))
    decreases |run|
  {
    if run != [] {
      StepKeepsClean(s, run[0]);
      RunKeepsClean(Next(s, run[0]), run[1..]);
    }
  }

  /** The log file grows by the line `appendToLog` writes. */
  lemma LogTextGrows(ops: seq<Op>, op: Op)
    ensures LogText(ops + [op]) == LogText(ops) + (EncodeOp(op) + "\n")
    decreases |ops|
  {
    var text := (l: seq<Op>) => seq(|l|, i requires 0 <= i < |l| => EncodeOp(l[i]));
    assert text(ops + [op]) == text(ops) + [EncodeOp(op)];
    UnlinesSnoc(text(ops), EncodeOp(op));
  }

  lemma FilesHoldDisk(s: State)
    requires CleanState(s)
    ensures Recover(Some(SnapshotText(s.rdb)), LogText(s.log)) == Disk(s)
  {
    SnapshotRoundTrip(s.rdb);
    LogRoundTrip(s.log);
  }

  /** In every run, overlapping or not, the bytes of the two files recover exactly what
      `Disk` says. */
  lemma DiskIsTheFiles(run: seq<Action>)
    requires Possible(INITIAL, run)
    ensures var s := After(INITIAL, run);
            Recover(Some(SnapshotText(s.rdb)), LogText(s.log)) == Disk(s)
  {
    RunKeepsClean(INITIAL, run);
    FilesHoldDisk(After(INITIAL, run));
  }
}
