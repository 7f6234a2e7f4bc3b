/** The thread pool underneath the dispatch protocol: its queue is the queue of sockets, its
    running workers are those in the message handler, and so no queued client is overslept. */
module Staffing {
  import opened KeyValue
  import opened Connections
  import D = Dispatching
  import L = Pool
  import Protocol
  import Text

  datatype System = System(d: D.State, p: L.State)

  /** A step of the dispatch protocol together with what it does to the pool (a job submitted
      may wake a worker), or a step of the pool alone. */
  datatype Action = Dispatch(step: D.Action, woken: Option<nat>) | Pool(turn: L.Action)

  function Initial(size: nat): System {
    System(D.INITIAL, L.Initial(size))
  }

  /** The worker returns from the handler. */
  predicate Returns(st: D.State, a: D.Action)
    requires D.Enabled(st, a)
  {
    match a
    case RecvNothing(_) => true
    case RecvEnd(_) => true
    case Finish(_) => true
    case Judge(w) =>
      var buffer := D.StreamOf(st, w).buffer;
      |buffer| > Protocol.MAX_COMMAND_BUFFER_LENGTH || Text.NoNewline(buffer)
    case _ => false
  }

  /** What a dispatch step is for the pool. */
  function PoolPart(st: D.State, a: D.Action, woken: Option<nat>): Option<L.Action>
    requires D.Enabled(st, a)
  {
    match a
    case DispatchNext =>
      if st.batch[0].event.Readable? && st.batch[0].socket in st.net.connections
      then Some(L.Accept(st.batch[0].socket, woken)) else None
    case TakeJob(w) => Some(L.Take(w))
    case _ => if Returns(st, a) then Some(L.Finish(a.w)) else None
  }

  predicate PoolOnly(a: L.Action) {
    a.Check? || a.Sleep? || a.Exit? || a.Spurious? || a.Deactivate? || a.NotifyAll?
  }

  predicate Enabled(s: System, a: Action) {
    match a
    case Dispatch(b, woken) =>
      D.Enabled(s.d, b)
      && (PoolPart(s.d, b, woken).Some? ==> L.Enabled(s.p, PoolPart(s.d, b, woken).value))
    case Pool(b) => PoolOnly(b) && L.Enabled(s.p, b)
  }

  function Next(s: System, a: Action): System
    requires Enabled(s, a)
  {
    match a
    case Dispatch(b, woken) =>
      var part := PoolPart(s.d, b, woken);
      System(D.Next(s.d, b), if part.Some? then L.Next(s.p, part.value) else s.p)
    case Pool(b) => s.(p := L.Next(s.p, b))
  }

  // The two sides match.

  predicate SameWorker(s: System, w: nat) {
    if w < |s.p.workers| && s.p.workers[w].Running?
    then w in s.d.running && s.d.running[w].socket == s.p.workers[w].job
    else w !in s.d.running
  }

  ghost predicate Matched(s: System) {
    s.p.jobs == s.d.net.jobs && forall w :: SameWorker(s, w)
  }

  /** Whatever the pool does with its queue and its jobs, the dispatch protocol allows; and
      where that asks for a worker, the pool has it to give if the worker is awake and nobody
      has the mutex. */
  lemma PoolStepsAreDispatchSteps(s: System, w: nat)
    requires Matched(s)
    ensures L.Enabled(s.p, L.Take(w)) ==>
      D.Enabled(s.d, D.TakeJob(w)) && s.d.net.jobs[0] == s.p.jobs[0] && Enabled(s, Dispatch(D.TakeJob(w), None))
    ensures D.Enabled(s.d, D.TakeJob(w)) && L.MutexFree(s.p) && L.Is(s.p, w, L.Awake) ==> L.Enabled(s.p, L.Take(w))
    ensures L.Enabled(s.p, L.Finish(w)) <==> w in s.d.running
  {
    assert SameWorker(s, w);
  }

  lemma PoolOnlyKeepsMatched(s: System, b: L.Action)
    requires Matched(s) && Enabled(s, Pool(b))
    ensures Matched(Next(s, Pool(b)))
  {
    var t := Next(s, Pool(b));
    forall w ensures SameWorker(t, w) {
      assert SameWorker(s, w);
    }
  }

  lemma QueueingKeepsMatched(s: System, woken: Option<nat>)
    requires Matched(s) && Enabled(s, Dispatch(D.DispatchNext, woken))
    ensures Matched(Next(s, Dispatch(D.DispatchNext, woken)))
  {
    var t := Next(s, Dispatch(D.DispatchNext, woken));
    forall w ensures SameWorker(t, w) {
      assert SameWorker(s, w);
    }
  }

  lemma TakingKeepsMatched(s: System, v: nat, woken: Option<nat>)
    requires Matched(s) && Enabled(s, Dispatch(D.TakeJob(v), woken))
    ensures Matched(Next(s, Dispatch(D.TakeJob(v), woken)))
  {
    var t := Next(s, Dispatch(D.TakeJob(v), woken));
    forall w ensures SameWorker(t, w) {
      assert SameWorker(s, w);
    }
  }

  lemma ReturningLeaves(st: D.State, a: D.Action)
    requires D.Enabled(st, a) && Returns(st, a)
    ensures a.w in st.running
    ensures D.Next(st, a).running == st.running - {a.w} && D.Next(st, a).net.jobs == st.net.jobs
  {
  }

  lemma ReturningKeepsMatched(s: System, b: D.Action, woken: Option<nat>)
    requires Matched(s) && Enabled(s, Dispatch(b, woken)) && Returns(s.d, b)
    ensures Matched(Next(s, Dispatch(b, woken)))
  {
    var t := Next(s, Dispatch(b, woken));
    ReturningLeaves(s.d, b);
    assert PoolPart(s.d, b, woken) == Some(L.Finish(b.w));
    forall w ensures SameWorker(t, w) {
      assert SameWorker(s, w);
    }
  }

  /** All other dispatch steps leave the queue and who is on what alone. */
  lemma OtherStepsLeave(st: D.State, a: D.Action)
    requires D.Enabled(st, a) && !a.DispatchNext? && !a.TakeJob? && !Returns(st, a)
    ensures D.Next(st, a).net.jobs == st.net.jobs
    ensures D.Next(st, a).running.Keys == st.running.Keys
    ensures forall w :: w in st.running ==> D.Next(st, a).running[w].socket == st.running[w].socket
  {
  }

  lemma StepKeepsMatched(s: System, a: Action)
    requires Matched(s) && Enabled(s, a)
    ensures Matched(Next(s, a))
  {
    match a {
      case Pool(b) => PoolOnlyKeepsMatched(s, b);
      case Dispatch(b, woken) =>
        if b.DispatchNext? {
          QueueingKeepsMatched(s, woken);
        } else if b.TakeJob? {
          TakingKeepsMatched(s, b.w, woken);
        } else if Returns(s.d, b) {
          ReturningKeepsMatched(s, b, woken);
        } else {
          OtherStepsLeave(s.d, b);
          assert Next(s, a).p == s.p;
          forall w ensures SameWorker(Next(s, a), w) {
            assert SameWorker(s, w);
          }
        }
    }
  }

  // Runs, and what each side sees of them.

  predicate Legal(s: System, run: seq<Action>)
    decreases |run|
  {
    run != [] ==> Enabled(s, run[0]) && Legal(Next(s, run[0]), run[1..])
  }

  function After(s: System, run: seq<Action>): System
    requires Legal(s, run)
    decreases |run|
  {
    if run == [] then s else After(Next(s, run[0]), run[1..])
  }

  function DispatchSide(run: seq<Action>): seq<D.Action> {
    if run == [] then []
    else (if run[0].Dispatch? then [run[0].step] else []) + DispatchSide(run[1..])
  }

  function PoolSide(s: System, run: seq<Action>): seq<L.Action>
    requires Legal(s, run)
    decreases |run|
  {
    if run == [] then []
    else
      var first := match run[0]
        case Pool(b) => [b]
        case Dispatch(b, woken) =>
          var part := PoolPart(s.d, b, woken);
          if part.Some? then [part.value] else [];
      first + PoolSide(Next(s, run[0]), run[1..])
  }

  lemma {:induction false} DispatchSideIsARun(s: System, run: seq<Action>)
    requires Legal(s, run)
    ensures D.Legal(s.d, DispatchSide(run)) && D.After(s.d, DispatchSide(run)) == After(s, run).d
    decreases |run|
  {
    if run != [] {
      var rest := DispatchSide(run[1..]);
      DispatchSideIsARun(Next(s, run[0]), run[1..]);
      if run[0].Dispatch? {
        assert ([run[0].step] + rest)[1..] == rest;
      } else {
        assert [] + rest == rest;
      }
    }
  }

  lemma {:induction false} PoolSideIsARun(s: System, run: seq<Action>)
    requires Legal(s, run)
    ensures L.Legal(s.p, PoolSide(s, run)) && L.After(s.p, PoolSide(s, run)) == After(s, run).p
    decreases |run|
  {
    if run != [] {
      var t := Next(s, run[0]);
      var rest := PoolSide(t, run[1..]);
      PoolSideIsARun(t, run[1..]);
      var all := PoolSide(s, run);
      if t.p == s.p && all == rest {
      } else {
        assert all[1..] == rest;
      }
    }
  }

  lemma {:induction false} RunKeepsMatched(s: System, run: seq<Action>)
    requires Matched(s) && Legal(s, run)
    ensures Matched(After(s, run))
    decreases |run|
  {
    if run != [] {
      StepKeepsMatched(s, run[0]);
      RunKeepsMatched(Next(s, run[0]), run[1..]);
    }
  }

  lemma {:induction false} SomebodyCounts(workers: seq<L.WorkerState>, ws: L.WorkerState) returns (w: nat)
    requires L.Count(workers, ws) > 0
    ensures w < |workers| && workers[w] == ws
  {
    if workers[0] == ws {
      w := 0;
    } else {
      var v := SomebodyCounts(workers[1..], ws);
      w := v + 1;
    }
  }

  predicate Attends(p: L.State, w: nat) {
    w < |p.workers| && (p.workers[w].Awake? || p.workers[w].Running?)
  }

  lemma SomebodyAttends(p: L.State) returns (w: nat)
    requires L.Inv(p) && p.jobs != [] && !L.AllExited(p)
    ensures Attends(p, w) && L.MutexFree(p)
  {
    if L.NobodyAsleep(p) {
      assert L.MutexFree(p);
      w :| 0 <= w < |p.workers| && p.workers[w] != L.Exited;
    } else {
      w := SomebodyCounts(p.workers, L.Awake);
    }
  }

  lemma QueuedIsAttended(s: System)
    requires Matched(s) && L.Inv(s.p) && s.d.net.jobs != [] && !L.AllExited(s.p)
    ensures exists w: nat :: Attends(s.p, w)
              && if s.p.workers[w].Awake? then Enabled(s, Dispatch(D.TakeJob(w), None)) else w in s.d.running
  {
    var w := SomebodyAttends(s.p);
    PoolStepsAreDispatchSteps(s, w);
    assert Attends(s.p, w);
  }

  lemma BothSidesKeep(size: nat, run: seq<Action>)
    requires Legal(Initial(size), run)
    ensures Matched(After(Initial(size), run)) && L.Inv(After(Initial(size), run).p)
  {
    var s0 := Initial(size);
    forall w ensures SameWorker(s0, w) {
    }
    RunKeepsMatched(s0, run);
    PoolSideIsARun(s0, run);
    L.InitialInv(size);
    L.RunKeepsInv(s0.p, PoolSide(s0, run));
  }

  /** In every run of the two together: the dispatch protocol and the pool each see a run of
      their own, so that all that holds of theirs holds here; their queues and workers are the
      same; while a worker sleeps there are as many awake as sockets queued; and in an active
      pool with workers, none of whom has left it, or as long as not all have, a queued socket has a worker awake, free to take it, or busy
      with another one. */
  lemma QueuedClientsAreAttended(size: nat, run: seq<Action>)
    requires Legal(Initial(size), run)
    ensures var s := After(Initial(size), run);
            && D.Legal(D.INITIAL, DispatchSide(run)) && D.After(D.INITIAL, DispatchSide(run)) == s.d
            && L.Legal(L.Initial(size), PoolSide(Initial(size), run))
            && L.After(L.Initial(size), PoolSide(Initial(size), run)) == s.p
            && Matched(s)
            && (L.NobodyAsleep(s.p) || |s.d.net.jobs| <= L.Count(s.p.workers, L.Awake))
            && (s.p.active ==> L.NobodyLeft(s.p))
            && (s.d.net.jobs != [] && ((s.p.active && size > 0) || !L.AllExited(s.p)) ==>
                 exists w: nat :: Attends(s.p, w)
                   && if s.p.workers[w].Awake? then Enabled(s, Dispatch(D.TakeJob(w), None)) else w in s.d.running)
  {
    var s := After(Initial(size), run);
    BothSidesKeep(size, run);
    DispatchSideIsARun(Initial(size), run);
    PoolSideIsARun(Initial(size), run);
    if s.p.active {
      L.NobodyLeavesAnActivePool(size, PoolSide(Initial(size), run));
    }
    if s.d.net.jobs != [] && !L.AllExited(s.p) {
      QueuedIsAttended(s);
    }
  }
}
