/** A connection closes only for a cause: its session expired, the kernel reported it as not
    readable, its peer ended it or it failed, or its buffer overflowed. */
module Lifetime {
  import opened Connections
  import opened Dispatching
  import SessionAgreement

  predicate Expires(st: State, a: Action, s: Socket) {
    a.ExpireSession? && a.key in st.net.sessions && st.net.sessions[a.key] == s
  }

  /** The step gives a cause for closing the socket; `expired` says whether a session of the
      socket has expired before. */
  predicate Cause(st: State, a: Action, s: Socket, expired: bool)
    requires Enabled(st, a)
  {
    match a
    case CloseNext => st.closing[0] == s && expired
    case DispatchNext => st.batch[0].socket == s && !st.batch[0].event.Readable?
    case RecvEnd(w) => st.running[w].socket == s
    case Judge(w) => st.running[w].socket == s && |StreamOf(st, w).buffer| > 2024
    case _ => false
  }

  predicate EverCaused(st: State, run: seq<Action>, s: Socket, expired: bool)
    requires Legal(st, run)
    decreases |run|
  {
    run != [] &&
    (Cause(st, run[0], s, expired)
     || EverCaused(Next(st, run[0]), run[1..], s, expired || Expires(st, run[0], s)))
  }

  predicate Queued(st: State, s: Socket) {
    SessionAgreement.ToBeClosed(st.net, st.closing, s)
  }

  /** Only the expiry of its session queues a socket for closing. */
  lemma StepQueues(st: State, a: Action, s: Socket)
    requires Enabled(st, a) && Queued(Next(st, a), s)
    ensures Queued(st, s) || Expires(st, a, s)
  {
  }

  lemma StepClosesForCause(st: State, a: Action, s: Socket, expired: bool)
    requires Placed(st) && Enabled(st, a) && (Queued(st, s) ==> expired)
    requires s in st.net.connections && s !in Next(st, a).net.connections
    ensures Cause(st, a, s, expired)
  {
  }

  /** Only a new client brings a new socket, and it is registered at once. */
  lemma StepBringsClients(st: State, a: Action, s: Socket)
    requires Placed(st) && Enabled(st, a) && s !in st.streams && s in Next(st, a).streams
    ensures s in Next(st, a).net.connections
  {
    forall w | w in st.running ensures st.running[w].socket in st.streams {
      assert HasPlace(st, st.running[w].socket, Held(w));
    }
  }

  lemma {:induction false} RunClosesForCause(st: State, run: seq<Action>, s: Socket, expired: bool)
    requires Placed(st) && Legal(st, run) && (Queued(st, s) ==> expired)
    requires s in st.streams ==> s in st.net.connections
    ensures s in After(st, run).streams && s !in After(st, run).net.connections ==> EverCaused(st, run, s, expired)
    decreases |run|
  {
    if run != [] {
      var t := Next(st, run[0]);
      StepKeepsPlaces(st, run[0]);
      if Queued(t, s) {
        StepQueues(st, run[0], s);
      }
      if s in st.net.connections && s !in t.net.connections {
        StepClosesForCause(st, run[0], s, expired);
      } else {
        if s !in st.streams && s in t.streams {
          StepBringsClients(st, run[0], s);
        }
        RunClosesForCause(t, run[1..], s, expired || Expires(st, run[0], s));
      }
    }
  }

  /** In every run: a socket that was a client's and is no longer registered had a cause. */
  lemma ClosedForACause(run: seq<Action>, s: Socket)
    requires Legal(INITIAL, run)
    requires s in After(INITIAL, run).streams && s !in After(INITIAL, run).net.connections
    ensures EverCaused(INITIAL, run, s, false)
  {
    RunClosesForCause(INITIAL, run, s, false);
  }
}
