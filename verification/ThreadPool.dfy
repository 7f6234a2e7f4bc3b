/** The worker pool: one queue, one mutex, one condition variable, any number of workers.
    Each region executed under the mutex is one step; the two halves of a wait that finds
    nothing to do (testing, going to sleep) are separate steps that keep the mutex between
    them. */
module Pool {
  import opened KeyValue

  type Job = nat

  datatype WorkerState =
    | Awake              // about to take the mutex and look at the queue
    | Checked            // holds the mutex, has found nothing to do, about to sleep
    | Asleep             // waiting on the condition variable
    | Running(job: Job)
    | Exited

  /** `accepted` and `taken` record the jobs ever submitted and ever dequeued, in order;
      `late` counts those submitted after every worker had exited. */
  datatype State = State(jobs: seq<Job>, workers: seq<WorkerState>, active: bool,
                         accepted: seq<Job>, taken: seq<Job>, late: nat)

  datatype Action =
    | Accept(job: Job, woken: Option<nat>)   // push and notify_one
    | Take(w: nat) | Check(w: nat) | Sleep(w: nat) | Exit(w: nat)
    | Finish(w: nat) | Spurious(w: nat)
    | Deactivate | NotifyAll

  function Initial(size: nat): State {
    State([], seq(size, _ => Awake), true, [], [], 0)
  }

  predicate Is(s: State, w: nat, ws: WorkerState) {
    w < |s.workers| && s.workers[w] == ws
  }

  predicate MutexFree(s: State) {
    forall w :: 0 <= w < |s.workers| ==> s.workers[w] != Checked
  }

  predicate AllExited(s: State) {
    forall w :: 0 <= w < |s.workers| ==> s.workers[w] == Exited
  }

  predicate NobodyAsleep(s: State) {
    forall w :: 0 <= w < |s.workers| ==> s.workers[w] != Asleep
  }

  predicate Enabled(s: State, a: Action) {
    match a
    case Accept(_, woken) =>
      MutexFree(s) && if woken.Some? then Is(s, woken.value, Asleep) else NobodyAsleep(s)
    case Take(w) => MutexFree(s) && Is(s, w, Awake) && s.jobs != []
    case Check(w) => MutexFree(s) && Is(s, w, Awake) && s.jobs == [] && s.active
    case Sleep(w) => Is(s, w, Checked)
    case Exit(w) => MutexFree(s) && Is(s, w, Awake) && s.jobs == [] && !s.active
    case Finish(w) => w < |s.workers| && s.workers[w].Running?
    case Spurious(w) => Is(s, w, Asleep)
    case Deactivate => true
    case NotifyAll => !s.active
  }

  function Set(s: State, w: nat, ws: WorkerState): State {
    if w < |s.workers| then s.(workers := s.workers[w := ws]) else s
  }

  function WakeAll(workers: seq<WorkerState>): (r: seq<WorkerState>)
    ensures |r| == |workers|
    ensures forall w :: 0 <= w < |r| ==> r[w] == if workers[w].Asleep? then Awake else workers[w]
  {
    seq(|workers|, w requires 0 <= w < |workers| => if workers[w].Asleep? then Awake else workers[w])
  }

  function Next(s: State, a: Action): State {
    match a
    case Accept(job, woken) =>
      var t := s.(jobs := s.jobs + [job], accepted := s.accepted + [job],
                  late := if AllExited(s) then s.late + 1 else s.late);
      if woken.Some? then Set(t, woken.value, Awake) else t
    case Take(w) =>
      if s.jobs == [] then s
      else Set(s.(jobs := s.jobs[1..], taken := s.taken + [s.jobs[0]]), w, Running(s.jobs[0]))
    case Check(w) => Set(s, w, Checked)
    case Sleep(w) => Set(s, w, Asleep)
    case Exit(w) => Set(s, w, Exited)
    case Finish(w) => Set(s, w, Awake)
    case Spurious(w) => Set(s, w, Awake)
    case Deactivate => s.(active := false)
    case NotifyAll => s.(workers := WakeAll(s.workers))
  }

  datatype Turn = Took(job: Job) | Leaves | Waits

  /** The pool object; each method is one region executed under the mutex, or one of the
      destructor's two statements outside it. */
  class ThreadPool {
    var jobs: seq<Job>
    var workers: seq<WorkerState>
    var active: bool
    ghost var accepted: seq<Job>
    ghost var taken: seq<Job>
    ghost var late: nat

    ghost function View(): State
      reads this
    {
      State(jobs, workers, active, accepted, taken, late)
    }

    constructor (size: nat)
      ensures View() == Initial(size)
    {
      jobs, active := [], true;
      workers := seq(size, _ => Awake);
      accepted, taken, late := [], [], 0;
    }

    method AcceptJob(job: Job) returns (ghost woken: Option<nat>)
      requires MutexFree(View())
      modifies this
      ensures Enabled(old(View()), Accept(job, woken))
      ensures View() == Next(old(View()), Accept(job, woken))
    {
      late := if AllExited(View()) then late + 1 else late;
      jobs := jobs + [job];
      accepted := accepted + [job];
      woken := None;
      // notify_one
      if w: nat :| w < |workers| && workers[w] == Asleep {
        workers := workers[w := Awake];
        woken := Some(w);
      }
    }

    /** One turn of worker w at the queue: the wait predicate, the exit test, the pop. */
    method TakeTurn(w: nat) returns (turn: Turn)
      requires MutexFree(View()) && Is(View(), w, Awake)
      modifies this
      ensures match turn
              case Took(job) => old(jobs != []) && job == old(jobs)[0] && View() == Next(old(View()), Take(w))
              case Leaves => Enabled(old(View()), Exit(w)) && View() == Next(old(View()), Exit(w))
              case Waits => Enabled(old(View()), Check(w)) && View() == Next(old(View()), Check(w))
      ensures turn.Leaves? <==> old(jobs == [] && !active)
      ensures turn.Waits? <==> old(jobs == [] && active)
    {
      if !(jobs != [] || !active) {
        workers := workers[w := Checked];
        return Waits;
      }
      if !active && jobs == [] {
        workers := workers[w := Exited];
        return Leaves;
      }
      var job := jobs[0];
      jobs := jobs[1..];
      taken := taken + [job];
      workers := workers[w := Running(job)];
      return Took(job);
    }

    method ClearActive()
      modifies this`active
      ensures View() == Next(old(View()), Deactivate)
    {
      active := false;
    }

    method RingForAll()
      modifies this`workers
      ensures View() == Next(old(View()), NotifyAll)
    {
      workers := WakeAll(workers);
    }
  }

  /** How many workers are in the given state. */
  function Count(workers: seq<WorkerState>, ws: WorkerState): (n: nat)
    ensures n <= |workers|
  {
    if workers == [] then 0 else Count(workers[1..], ws) + if workers[0] == ws then 1 else 0
  }

  lemma {:induction false} CountUpdate(workers: seq<WorkerState>, w: nat, x: WorkerState, ws: WorkerState)
    requires w < |workers|
    ensures Count(workers[w := x], ws)
         == Count(workers, ws) - (if workers[w] == ws then 1 else 0) + (if x == ws then 1 else 0)
  {
    if w > 0 {
      assert workers[w := x][1..] == workers[1..][w - 1 := x];
      CountUpdate(workers[1..], w - 1, x, ws);
    } else {
      assert workers[w := x][1..] == workers[1..];
    }
  }

  /** A job never waits on a sleeping worker: while anyone sleeps, at least as many workers
      are already on their way to the queue as there are jobs in it. */
  predicate NoLostWakeup(s: State) {
    NobodyAsleep(s) || |s.jobs| <= Count(s.workers, Awake)
  }

  ghost predicate Inv(s: State) {
    && s.taken + s.jobs == s.accepted
    && NoLostWakeup(s)
    && (forall v, w :: 0 <= v < w < |s.workers| ==> !(s.workers[v] == Checked && s.workers[w] == Checked))
    && (!MutexFree(s) ==> s.jobs == [])
    && (AllExited(s) && s.workers != [] ==> |s.jobs| == s.late)
    && (!AllExited(s) ==> s.late == 0)
  }

  lemma AcceptKeepsInv(s: State, job: Job, woken: Option<nat>)
    requires Inv(s) && Enabled(s, Accept(job, woken))
    ensures Inv(Next(s, Accept(job, woken)))
  {
    assert s.taken + (s.jobs + [job]) == (s.taken + s.jobs) + [job];
    if woken.Some? {
      CountUpdate(s.workers, woken.value, Awake, Awake);
      assert Next(s, Accept(job, woken)).workers[woken.value] == Awake;
    }
  }

  lemma TakeKeepsInv(s: State, w: nat)
    requires Inv(s) && Enabled(s, Take(w))
    ensures Inv(Next(s, Take(w)))
  {
    CountUpdate(s.workers, w, Running(s.jobs[0]), Awake);
    assert s.taken + [s.jobs[0]] + s.jobs[1..] == s.taken + s.jobs;
    assert Next(s, Take(w)).workers[w] == Running(s.jobs[0]);
  }

  /** A worker that becomes awake again. */
  lemma WakingKeepsInv(s: State, a: Action)
    requires Inv(s) && Enabled(s, a) && (a.Finish? || a.Spurious?)
    ensures Inv(Next(s, a))
  {
    CountUpdate(s.workers, a.w, Awake, Awake);
    assert Next(s, a).workers[a.w] == Awake;
    assert !AllExited(s) by {
      assert s.workers[a.w] != Exited;
    }
  }

  /** A worker that finds the queue empty. */
  lemma WaitingKeepsInv(s: State, a: Action)
    requires Inv(s) && Enabled(s, a) && (a.Check? || a.Sleep? || a.Exit?)
    ensures Inv(Next(s, a))
  {
    var t := Next(s, a);
    assert !AllExited(s) && s.jobs == [] by {
      assert s.workers[a.w] != Exited;
    }
    assert forall v :: 0 <= v < |s.workers| && v != a.w ==> t.workers[v] == s.workers[v];
  }

  lemma StepKeepsInv(s: State, a: Action)
    requires Inv(s) && Enabled(s, a)
    ensures Inv(Next(s, a))
  {
    match a {
      case Accept(job, woken) => AcceptKeepsInv(s, job, woken);
      case Take(w) => TakeKeepsInv(s, w);
      case Finish(w) => WakingKeepsInv(s, a);
      case Spurious(w) => WakingKeepsInv(s, a);
      case Deactivate =>
      case NotifyAll => WakeKeepsShape(s);
      case _ => WaitingKeepsInv(s, a);
    }
  }

  lemma WakeKeepsShape(s: State)
    ensures var t := s.(workers := WakeAll(s.workers));
            && NobodyAsleep(t) && (MutexFree(t) <==> MutexFree(s)) && (AllExited(t) <==> AllExited(s))
  {
    var t := s.(workers := WakeAll(s.workers));
    if MutexFree(t) {
      forall w | 0 <= w < |s.workers| ensures s.workers[w] != Checked {
        assert t.workers[w] != Checked;
      }
    }
    if AllExited(t) {
      forall w | 0 <= w < |s.workers| ensures s.workers[w] == Exited {
        assert t.workers[w] == Exited;
      }
    }
  }

  function After(s: State, run: seq<Action>): State
    decreases |run|
  {
    if run == [] then s else After(Next(s, run[0]), run[1..])
  }

  predicate Legal(s: State, run: seq<Action>)
    decreases |run|
  {
    run != [] ==> Enabled(s, run[0]) && Legal(Next(s, run[0]), run[1..])
  }

  lemma {:induction false} RunKeepsInv(s: State, run: seq<Action>)
    requires Inv(s) && Legal(s, run)
    ensures Inv(After(s, run)) && |After(s, run).workers| == |s.workers|
    decreases |run|
  {
    if run != [] {
      StepKeepsInv(s, run[0]);
      RunKeepsInv(Next(s, run[0]), run[1..]);
    }
  }

  lemma {:induction false} CountExcept(workers: seq<WorkerState>)
    ensures (forall w :: 0 <= w < |workers| ==> workers[w] != Asleep) ==> Count(workers, Asleep) == 0
    ensures Count(workers, Awake) + Count(workers, Asleep) + Count(workers, Exited) <= |workers|
  {
    if workers != [] {
      CountExcept(workers[1..]);
    }
  }

  /** In every reachable state: jobs were dequeued in submission order, each at most once,
      and those left are exactly the later ones; no wakeup for a job is lost, so that of the
      live workers at least min(queued jobs, live workers) are not asleep. */
  lemma JobsAreTakenInOrder(size: nat, run: seq<Action>)
    requires Legal(Initial(size), run)
    ensures var s := After(Initial(size), run);
            var live := size - Count(s.workers, Exited);
            && s.taken + s.jobs == s.accepted
            && NoLostWakeup(s)
            && (|s.jobs| <= live - Count(s.workers, Asleep) || Count(s.workers, Asleep) == 0)
  {
    InitialInv(size);
    RunKeepsInv(Initial(size), run);
    CountExcept(After(Initial(size), run).workers);
  }

  lemma InitialInv(size: nat)
    ensures Inv(Initial(size))
  {
    var s := Initial(size);
    assert MutexFree(s);
    if size > 0 {
      assert s.workers[0] == Awake;
    }
  }

  predicate NobodyLeft(s: State) {
    forall w :: 0 <= w < |s.workers| ==> s.workers[w] != Exited
  }

  lemma StepKeepsStaff(s: State, a: Action)
    requires Enabled(s, a) && (s.active ==> NobodyLeft(s))
    ensures Next(s, a).active ==> NobodyLeft(Next(s, a))
  {
  }

  lemma {:induction false} RunKeepsStaff(s: State, run: seq<Action>)
    requires Legal(s, run) && (s.active ==> NobodyLeft(s))
    ensures After(s, run).active ==> NobodyLeft(After(s, run))
    decreases |run|
  {
    if run != [] {
      StepKeepsStaff(s, run[0]);
      RunKeepsStaff(Next(s, run[0]), run[1..]);
    }
  }

  /** While the pool is active no worker ever leaves it, so no job is ever too late. */
  lemma NobodyLeavesAnActivePool(size: nat, run: seq<Action>)
    requires Legal(Initial(size), run) && After(Initial(size), run).active
    ensures NobodyLeft(After(Initial(size), run))
    ensures size > 0 ==> !AllExited(After(Initial(size), run)) && After(Initial(size), run).late == 0
  {
    InitialInv(size);
    RunKeepsInv(Initial(size), run);
    RunKeepsStaff(Initial(size), run);
    var s := After(Initial(size), run);
    assert size > 0 ==> s.workers[0] != Exited;
  }

  /** Once every worker has exited, every job accepted before that was taken exactly once, in
      order; what is left are the jobs that came too late. */
  lemma ExitDrainsTheQueue(size: nat, run: seq<Action>)
    requires size > 0 && Legal(Initial(size), run) && AllExited(After(Initial(size), run))
    ensures var s := After(Initial(size), run);
            s.late <= |s.accepted| && s.taken == s.accepted[..|s.accepted| - s.late]
  {
    InitialInv(size);
    RunKeepsInv(Initial(size), run);
    var s := After(Initial(size), run);
    assert s.accepted[..|s.taken|] == s.taken;
  }

  // Shutdown.

  predicate NobodyWaits(s: State) {
    forall w :: 0 <= w < |s.workers| ==> s.workers[w] != Asleep && s.workers[w] != Checked
  }

  lemma {:induction false} NobodyWaitsAgain(s: State, run: seq<Action>)
    requires !s.active && NobodyWaits(s) && Legal(s, run)
    ensures NobodyWaits(After(s, run)) && !After(s, run).active
    decreases |run|
  {
    if run != [] {
      NobodyWaitsAgain(Next(s, run[0]), run[1..]);
    }
  }

  predicate Sleeps(s: State, w: nat) {
    w < |s.workers| && s.workers[w] == Asleep
  }

  lemma {:induction false} SleepsOn(s: State, w: nat, run: seq<Action>)
    requires !s.active && Sleeps(s, w) && Legal(s, run)
    requires forall i :: 0 <= i < |run| ==> !run[i].Accept? && !run[i].Spurious? && !run[i].NotifyAll?
    ensures Sleeps(After(s, run), w)
    decreases |run|
  {
    if run != [] {
      SleepsOn(Next(s, run[0]), w, run[1..]);
    }
  }

  lemma ConsRun(s: State, a: Action, rest: seq<Action>)
    requires Enabled(s, a) && Legal(Next(s, a), rest)
    ensures Legal(s, [a] + rest) && After(s, [a] + rest) == After(Next(s, a), rest)
  {
    assert ([a] + rest)[1..] == rest;
  }

  /** The flag is cleared and the bell rung without the mutex.  After the bell no worker ever
      sleeps again if and only if none held the mutex between its test and its sleep when
      the bell rang. */
  lemma ShutdownIsSafeIff(s: State)
    requires !s.active
    ensures MutexFree(s) <==>
      forall run: seq<Action> :: Legal(Next(s, NotifyAll), run) ==> NobodyAsleep(After(Next(s, NotifyAll), run))
  {
    var t := Next(s, NotifyAll);
    WakeKeepsShape(s);
    if MutexFree(s) {
      forall run: seq<Action> | Legal(t, run) ensures NobodyAsleep(After(t, run)) {
        NobodyWaitsAgain(t, run);
      }
    } else {
      var w :| 0 <= w < |t.workers| && t.workers[w] == Checked;
      var run := [Sleep(w)] + [];
      ConsRun(t, Sleep(w), []);
      assert Next(t, Sleep(w)).workers[w] == Asleep;
      assert Legal(t, run) && !NobodyAsleep(After(t, run));
    }
  }

  // What the workers do after the bell, left to themselves.

  predicate WorkerStep(a: Action) {
    a.Take? || a.Check? || a.Sleep? || a.Exit? || a.Finish?
  }

  predicate WorkerRun(s: State, run: seq<Action>)
    decreases |run|
  {
    run != [] ==> WorkerStep(run[0]) && Enabled(s, run[0]) && WorkerRun(Next(s, run[0]), run[1..])
  }

  /** No worker can take another step. */
  ghost predicate Stuck(s: State) {
    forall a :: WorkerStep(a) ==> !Enabled(s, a)
  }

  function Load(workers: seq<WorkerState>): nat {
    if workers == [] then 0
    else (if workers[0].Running? then 2 else if workers[0].Awake? || workers[0].Checked? then 1 else 0)
         + Load(workers[1..])
  }

  lemma {:induction false} LoadUpdate(workers: seq<WorkerState>, w: nat, x: WorkerState)
    requires w < |workers|
    ensures Load(workers[w := x]) + Load([workers[w]]) == Load(workers) + Load([x])
  {
    if w > 0 {
      assert workers[w := x][1..] == workers[1..][w - 1 := x];
      LoadUpdate(workers[1..], w - 1, x);
    } else {
      assert workers[w := x][1..] == workers[1..];
    }
  }

  /** Steps that can still be taken: two for a queued job, one for a worker about to look at
      the queue or to sleep, two for one that runs a job. */
  function StepsLeft(s: State): nat {
    2 * |s.jobs| + Load(s.workers)
  }

  lemma StepTakesOne(s: State, a: Action)
    requires !s.active && WorkerStep(a) && Enabled(s, a)
    ensures StepsLeft(Next(s, a)) < StepsLeft(s) && !Next(s, a).active
  {
    LoadUpdate(s.workers, a.w, Next(s, a).workers[a.w]);
  }

  lemma {:induction false} WorkerRunsAreShort(s: State, run: seq<Action>)
    requires !s.active && WorkerRun(s, run)
    ensures Legal(s, run) && !After(s, run).active
    ensures After(s, run).accepted == s.accepted && After(s, run).late == s.late
    ensures |run| + StepsLeft(After(s, run)) <= StepsLeft(s)
    ensures forall i :: 0 <= i < |run| ==> WorkerStep(run[i])
    decreases |run|
  {
    if run != [] {
      StepTakesOne(s, run[0]);
      WorkerRunsAreShort(Next(s, run[0]), run[1..]);
      assert forall i :: 1 <= i < |run| ==> run[i] == run[1..][i - 1];
    }
  }

  lemma {:induction false} WorkersGetStuck(s: State) returns (run: seq<Action>)
    requires !s.active
    ensures WorkerRun(s, run) && Stuck(After(s, run))
    decreases StepsLeft(s)
  {
    if Stuck(s) {
      run := [];
    } else {
      var a :| WorkerStep(a) && Enabled(s, a);
      StepTakesOne(s, a);
      var rest := WorkersGetStuck(Next(s, a));
      run := [a] + rest;
      assert run[1..] == rest;
    }
  }

  /** With nobody asleep or about to be, workers are only stuck when they have all left. */
  lemma StuckMeansExited(s: State)
    requires !s.active && NobodyWaits(s) && Stuck(s)
    ensures AllExited(s)
  {
    forall w | 0 <= w < |s.workers| ensures s.workers[w] == Exited {
      assert MutexFree(s);
      assert !Enabled(s, Take(w)) && !Enabled(s, Exit(w)) && !Enabled(s, Finish(w));
    }
  }

  /** A worker asleep after the bell sleeps through whatever the workers do afterwards. */
  lemma {:induction false} SleeperStays(s: State, w: nat, run: seq<Action>)
    requires !s.active && Sleeps(s, w) && WorkerRun(s, run)
    ensures Sleeps(After(s, run), w)
  {
    WorkerRunsAreShort(s, run);
    SleepsOn(s, w, run);
  }

  lemma {:induction false} ConsWorkerRun(s: State, a: Action, t: State, rest: seq<Action>)
    requires WorkerStep(a) && Enabled(s, a) && t == Next(s, a) && WorkerRun(t, rest)
    ensures WorkerRun(s, [a] + rest) && After(s, [a] + rest) == After(t, rest)
  {
    assert ([a] + rest)[1..] == rest;
  }

  /** The destructor joins all threads, exactly: from the bell on the workers take a bounded
      number of steps, and every run of theirs that cannot go on has all of them exited, if
      and only if none held the mutex between its test and its sleep when the bell rang. */
  lemma ShutdownJoinsIff(s: State)
    requires !s.active
    ensures var t := Next(s, NotifyAll);
            && (forall run :: WorkerRun(t, run) ==> |run| <= StepsLeft(t))
            && (MutexFree(s) <==> forall run :: WorkerRun(t, run) && Stuck(After(t, run)) ==> AllExited(After(t, run)))
  {
    var t := Next(s, NotifyAll);
    WakeKeepsShape(s);
    forall run | WorkerRun(t, run) ensures |run| <= StepsLeft(t) {
      WorkerRunsAreShort(t, run);
    }
    if MutexFree(s) {
      forall run | WorkerRun(t, run) && Stuck(After(t, run)) ensures AllExited(After(t, run)) {
        WorkerRunsAreShort(t, run);
        NobodyWaitsAgain(t, run);
        StuckMeansExited(After(t, run));
      }
    } else {
      var w :| 0 <= w < |t.workers| && t.workers[w] == Checked;
      var u := Next(t, Sleep(w));
      var rest := WorkersGetStuck(u);
      SleeperStays(u, w, rest);
      ConsWorkerRun(t, Sleep(w), u, rest);
      assert !AllExited(After(t, [Sleep(w)] + rest));
    }
  }

  function HangingShutdown(): seq<Action> {
    [Check(0)] + ([Deactivate] + ([NotifyAll] + ([Sleep(0)] + [])))
  }

  /** A reachable shutdown that hangs: the only worker tests, the flag is cleared and the
      bell rung, the worker goes to sleep, and from then on it sleeps for as long as no job
      is submitted and no spurious wakeup occurs. */
  lemma ShutdownCanHang(more: seq<Action>)
    requires forall i :: 0 <= i < |more| ==> !more[i].Accept? && !more[i].Spurious? && !more[i].NotifyAll?
    ensures Legal(Initial(1), HangingShutdown())
    ensures var t := After(Initial(1), HangingShutdown());
            Sleeps(t, 0) && (Legal(t, more) ==> Sleeps(After(t, more), 0))
  {
    var s0 := Initial(1);
    var s1 := Next(s0, Check(0));
    var s2 := Next(s1, Deactivate);
    var s3 := Next(s2, NotifyAll);
    var s4 := Next(s3, Sleep(0));
    ConsRun(s3, Sleep(0), []);
    ConsRun(s2, NotifyAll, [Sleep(0)] + []);
    ConsRun(s1, Deactivate, [NotifyAll] + ([Sleep(0)] + []));
    ConsRun(s0, Check(0), [Deactivate] + ([NotifyAll] + ([Sleep(0)] + [])));
    assert Sleeps(s4, 0) && !s4.active;
    if Legal(s4, more) {
      SleepsOn(s4, 0, more);
    }
  }

  /** Once the workers are joined, every job accepted while one was there has been taken.
      (Every reachable state keeps the invariant.) */
  lemma JoinedPoolIsDrained(s: State, t: State)
    requires Inv(s) && s.workers != [] && !s.active && MutexFree(s)
    requires exists run :: WorkerRun(Next(s, NotifyAll), run) && After(Next(s, NotifyAll), run) == t
    requires Stuck(t)
    ensures AllExited(t) && s.accepted == t.accepted
    ensures t.late <= |s.accepted| && t.taken == s.accepted[..|s.accepted| - t.late]
    ensures !AllExited(s) ==> t.taken == s.accepted
  {
    var rung := Next(s, NotifyAll);
    var run :| WorkerRun(rung, run) && After(rung, run) == t;
    ShutdownJoinsIff(s);
    StepKeepsInv(s, NotifyAll);
    WorkerRunsAreShort(rung, run);
    RunKeepsInv(rung, run);
    WakeKeepsShape(s);
    assert t.accepted[..|t.taken|] == t.taken;
    assert !AllExited(s) ==> t.late == 0;
  }
}
