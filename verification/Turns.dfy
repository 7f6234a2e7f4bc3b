/** The loops of one turn of the event loop: what they come to, and that they are runs of the
    single steps of the dispatch protocol. */
module Turns {
  import opened Connections
  import D = Dispatching
  import Text

  lemma RemoveTwice<V>(m: map<Socket, V>, a: set<Socket>, b: set<Socket>)
    ensures m - a - b == m - (b + a) && m - a - b == m - (a + b)
  {
  }

  function Members(socks: seq<Socket>): set<Socket> {
    set s | s in socks
  }

  // Closing everything queued.

  /** Exactly the sockets listed are gone, from the connections and from the watch. */
  lemma {:induction false} CloseAllMeaning(n: Net, socks: seq<Socket>)
    ensures var m := CloseAll(n, socks);
            && m.connections == n.connections - Members(socks)
            && m.watch == n.watch - Members(socks)
            && m.jobs == n.jobs && m.expired == n.expired
    decreases |socks|
  {
    if socks == [] {
      assert Members(socks) == {};
      assert n.connections - {} == n.connections && n.watch - {} == n.watch;
    } else {
      var c := Close(n, socks[0]);
      CloseAllMeaning(c, socks[1..]);
      assert Members(socks) == {socks[0]} + Members(socks[1..]) by {
        assert socks == [socks[0]] + socks[1..];
      }
      assert c.connections == n.connections - {socks[0]} && c.watch == n.watch - {socks[0]};
      RemoveTwice(n.connections, {socks[0]}, Members(socks[1..]));
      RemoveTwice(n.watch, {socks[0]}, Members(socks[1..]));
    }
  }

  function Repeat(a: D.Action, n: nat): seq<D.Action> {
    if n == 0 then [] else [a] + Repeat(a, n - 1)
  }

  lemma ConsRun(st: D.State, a: D.Action, rest: seq<D.Action>)
    requires D.Enabled(st, a) && D.Legal(D.Next(st, a), rest)
    ensures D.Legal(st, [a] + rest) && D.After(st, [a] + rest) == D.After(D.Next(st, a), rest)
  {
    assert ([a] + rest)[1..] == rest;
  }

  /** The loop is as many close steps as there are sockets. */
  lemma {:induction false} ClosingIsARun(st: D.State)
    ensures var run := Repeat(D.CloseNext, |st.closing|);
            && D.Legal(st, run)
            && D.After(st, run).net == CloseAll(st.net, st.closing)
            && D.After(st, run).closing == [] && D.After(st, run).batch == st.batch
    decreases |st.closing|
  {
    if st.closing != [] {
      var t := D.Next(st, D.CloseNext);
      ClosingIsARun(t);
      ConsRun(st, D.CloseNext, Repeat(D.CloseNext, |t.closing|));
    }
  }

  // Dispatching a report.

  /** The readable sockets of a report that are registered, in order. */
  function ToServe(events: seq<Event>, registered: set<Socket>): seq<Socket> {
    if events == [] then []
    else
      (if events[0].event.Readable? && events[0].socket in registered then [events[0].socket] else [])
      + ToServe(events[1..], registered)
  }

  /** The sockets of a report that are not readable. */
  function ToClose(events: seq<Event>): set<Socket> {
    set i | 0 <= i < |events| && !events[i].event.Readable? :: events[i].socket
  }

  lemma ToCloseCons(events: seq<Event>)
    requires events != []
    ensures ToClose(events) == ToClose(events[1..]) + if events[0].event.Readable? then {} else {events[0].socket}
  {
    assert forall i :: 1 <= i < |events| ==> events[i] == events[1..][i - 1];
    assert forall i :: 0 <= i < |events[1..]| ==> events[1..][i] == events[i + 1];
  }

  lemma {:induction false} OthersServedAlike(events: seq<Event>, registered: set<Socket>, s: Socket)
    requires forall i :: 0 <= i < |events| ==> events[i].socket != s
    ensures ToServe(events, registered - {s}) == ToServe(events, registered)
    decreases |events|
  {
    if events != [] {
      assert forall i :: 0 <= i < |events[1..]| ==> events[1..][i] == events[i + 1];
      OthersServedAlike(events[1..], registered, s);
    }
  }

  lemma DispatchQueues(n: Net, e: Event)
    ensures Dispatch(n, e).jobs
         == n.jobs + if e.event.Readable? && e.socket in n.connections then [e.socket] else []
    ensures Dispatch(n, e).connections.Keys
         == n.connections.Keys - if e.event.Readable? then {} else {e.socket}
  {
  }

  lemma {:induction false} DispatchAllQueues(n: Net, events: seq<Event>)
    requires D.DistinctEvents(events)
    ensures DispatchAll(n, events).jobs == n.jobs + ToServe(events, n.connections.Keys)
    decreases |events|
  {
    if events == [] {
      assert n.jobs + [] == n.jobs;
    } else {
      var e, rest, registered := events[0], events[1..], n.connections.Keys;
      var first := if e.event.Readable? && e.socket in registered then [e.socket] else [];
      assert forall i :: 0 <= i < |rest| ==> rest[i] == events[i + 1];
      DispatchQueues(n, e);
      DispatchAllQueues(Dispatch(n, e), rest);
      if !e.event.Readable? {
        OthersServedAlike(rest, registered, e.socket);
      }
      Text.Regroup(n.jobs, first, ToServe(rest, registered));
    }
  }

  lemma {:induction false} DispatchAllCloses(n: Net, events: seq<Event>)
    ensures var m := DispatchAll(n, events);
            && m.connections == n.connections - ToClose(events)
            && m.watch == n.watch - ToClose(events)
            && m.expired == n.expired
    decreases |events|
  {
    if events == [] {
      assert ToClose(events) == {};
      assert n.connections - {} == n.connections && n.watch - {} == n.watch;
    } else {
      var e, rest := events[0], events[1..];
      var d := Dispatch(n, e);
      DispatchAllCloses(d, rest);
      ToCloseCons(events);
      if !e.event.Readable? {
        assert d.connections == n.connections - {e.socket} && d.watch == n.watch - {e.socket};
        RemoveTwice(n.connections, {e.socket}, ToClose(rest));
        RemoveTwice(n.watch, {e.socket}, ToClose(rest));
      } else {
        assert ToClose(events) == ToClose(rest);
      }
    }
  }

  /** Exactly the readable sockets still registered join the queue, in order, and exactly the
      sockets that are not readable are gone from the connections and from the watch. */
  lemma DispatchAllMeaning(n: Net, events: seq<Event>)
    requires D.DistinctEvents(events)
    ensures var m := DispatchAll(n, events);
            && m.jobs == n.jobs + ToServe(events, n.connections.Keys)
            && m.connections == n.connections - ToClose(events)
            && m.watch == n.watch - ToClose(events)
            && m.expired == n.expired
  {
    DispatchAllQueues(n, events);
    DispatchAllCloses(n, events);
  }

  /** The loop is as many dispatch steps as there are events. */
  lemma {:induction false} DispatchingIsARun(st: D.State)
    ensures var run := Repeat(D.DispatchNext, |st.batch|);
            && D.Legal(st, run)
            && D.After(st, run).net == DispatchAll(st.net, st.batch)
            && D.After(st, run).batch == [] && D.After(st, run).closing == st.closing
    decreases |st.batch|
  {
    if st.batch != [] {
      var t := D.Next(st, D.DispatchNext);
      DispatchingIsARun(t);
      ConsRun(st, D.DispatchNext, Repeat(D.DispatchNext, |t.batch|));
    }
  }

  // The two halves of a turn.

  function ClosingHalf(queued: nat): seq<D.Action> {
    [D.SwapExpired] + Repeat(D.CloseNext, queued)
  }

  /** What `CloseExpired` does is a run of the protocol, and takes exactly the queued sockets
      out. */
  lemma ClosingHalfIsARun(st: D.State)
    requires st.batch == [] && st.closing == []
    ensures var run := ClosingHalf(|st.net.expired|);
            && D.Legal(st, run)
            && var t := D.After(st, run);
               && t.net == CloseAll(st.net.(expired := []), st.net.expired) && t.closing == [] && t.batch == []
               && t.net.connections == st.net.connections - Members(st.net.expired)
               && t.net.watch == st.net.watch - Members(st.net.expired)
               && t.net.jobs == st.net.jobs && t.net.expired == []
  {
    var u := D.Next(st, D.SwapExpired);
    ClosingIsARun(u);
    CloseAllMeaning(u.net, u.closing);
    ConsRun(st, D.SwapExpired, Repeat(D.CloseNext, |u.closing|));
  }

  function DispatchingHalf(events: seq<Event>): seq<D.Action> {
    [D.Report(events)] + Repeat(D.DispatchNext, |events|)
  }

  /** What `DispatchReady` does with what the kernel reports is a run of the protocol: the
      readable registered sockets join the queue in order, the other reported ones are closed,
      the reported ones still watched are muted, and all others are left alone. */
  lemma DispatchingHalfIsARun(st: D.State, ready: seq<Ready>)
    requires D.Enabled(st, D.Report(Classified(ready)))
    ensures var events := Classified(ready);
            var run := DispatchingHalf(events);
            && D.Legal(st, run)
            && var t := D.After(st, run);
               && t.net == DispatchAll(st.net.(watch := Mute(st.net.watch, events)), events)
               && t.batch == [] && t.closing == []
               && t.net.jobs == st.net.jobs + ToServe(events, st.net.connections.Keys)
               && t.net.connections == st.net.connections - ToClose(events)
               && t.net.watch.Keys == st.net.watch.Keys - ToClose(events)
               && (forall s :: s in t.net.watch ==>
                     t.net.watch[s] == (st.net.watch[s] && forall i :: 0 <= i < |events| ==> events[i].socket != s))
  {
    var events := Classified(ready);
    var u := D.Next(st, D.Report(events));
    D.MuteMeaning(st.net.watch, events);
    DispatchingIsARun(u);
    DispatchAllMeaning(u.net, events);
    ConsRun(st, D.Report(events), Repeat(D.DispatchNext, |events|));
  }
}
