/** Runs that break ownership, from the start: each of the sub-reactor's unstated assumptions is needed. */
module SubReactorBadRuns {
  import opened SubReactor
  import opened SubReactorOwnership
  import T = TimerHeap

  function Last(ss: seq<State>): State
    requires ss != []
  {
    ss[|ss| - 1]
  }

  ghost predicate Run(ss: seq<State>, es: seq<Step>): (b: bool)
    ensures b ==> ss != []
  {
    IsRun(ss, es)
  }

  lemma Do(ss: seq<State>, es: seq<Step>, e: Step) returns (ts: seq<State>, fs: seq<Step>)
    requires Run(ss, es) && Enabled(Last(ss), e)
    ensures Run(ts, fs) && Last(ts) == Next(Last(ss), e) && ts[0] == ss[0]
    ensures ts == ss + [Last(ts)] && fs == es + [e]
  {
    hide Enabled, Next, Init;
    ts, fs := ss + [Next(Last(ss), e)], es + [e];
    assert ts[0] == ss[0];
    forall k | 0 <= k < |fs| ensures Enabled(ts[k], fs[k]) && ts[k + 1] == Next(ts[k], fs[k]) {
      if k < |es| {
        assert ts[k] == ss[k] && ts[k + 1] == ss[k + 1] && fs[k] == es[k];
      }
    }
  }

  /** Nothing in the batch or in the mail. */
  predicate Quiet(s: State) { s.batch == [] && s.mail.msgs == [] && Idle(s.mail) && s.mail.wakers == 0 }

  /** One message waits, its producer about to write to the eventfd. */
  predicate OneLetter(s: State, m: Msg) { s.batch == [] && s.mail.msgs == [m] && Idle(s.mail) && s.mail.wakers == 1 }

  /** The loop fetches the one message and handles it. */
  lemma Fetch(ss: seq<State>, es: seq<Step>, m: Msg, now: int) returns (ts: seq<State>, fs: seq<Step>)
    requires Run(ss, es) && OneLetter(Last(ss), m)
    ensures Run(ts, fs) && Quiet(Last(ts)) && Last(ts).working == Last(ss).working && ts[0] == ss[0]
    ensures Last(ts).table == HandleMsg(Last(ss).table, m, now)
  {
    hide Run, HandleMsg;
    var s := Last(ss);
    ts, fs := Do(ss, es, Wake);
    ts, fs := Do(ts, fs, Wait([EventFd]));
    assert Last(ts).table.armed == s.table.armed;
    ts, fs := Do(ts, fs, Drain);
    ts, fs := Do(ts, fs, Swap);
    ts, fs := Do(ts, fs, Message(now));
  }

  /** Descriptor 5 is the only one, open and at rest. */
  predicate Only5(s: State, oneShot: bool, p: Phase, a: Arming) {
    && Quiet(s) && s.working == [] && s.table.pool == [] && s.table.oneShot == oneShot
    && s.table.live == {5} && s.table.conns == map[5 := p] && s.table.armed == map[5 := a]
  }

  lemma Report5(t: Table, a: Arming, ev: Event)
    requires t.armed == map[5 := a] && ev.Client? && ev.fd == 5
    ensures Reported(t, [ev]) == t.(armed := if a.oneShot then map[] else map[5 := a])
  {
    assert [ev][0] == ev;
    assert Mentions([ev], 5);
  }

  /** An event for descriptor 5 is reported. */
  lemma Report(ss: seq<State>, es: seq<Step>, oneShot: bool, p: Phase, a: Arming, ev: Event)
    returns (ts: seq<State>, fs: seq<Step>)
    requires Run(ss, es) && Only5(Last(ss), oneShot, p, a) && ev.Client? && ev.fd == 5
    requires (ev.readable ==> !a.out) && (ev.writable ==> a.out)
    ensures Run(ts, fs) && ts[0] == ss[0]
    ensures Last(ts) == Last(ss).(batch := [ev],
      table := Last(ss).table.(armed := if a.oneShot then map[] else map[5 := a]))
  {
    hide Run, Reported, Mentions;
    Report5(Last(ss).table, a, ev);
    ts, fs := Do(ss, es, Wait([ev]));
  }

  /** An event for descriptor 5 is reported and handled. */
  lemma Handle(ss: seq<State>, es: seq<Step>, oneShot: bool, p: Phase, a: Arming, ev: Event, r: ReadOutcome,
               w: WriteOutcome, now: int)
    returns (ts: seq<State>, fs: seq<Step>)
    requires Run(ss, es) && Only5(Last(ss), oneShot, p, a) && ev.Client? && ev.fd == 5
    requires (ev.readable ==> !a.out) && (ev.writable ==> a.out)
    ensures Run(ts, fs) && Quiet(Last(ts)) && Last(ts).working == [] && ts[0] == ss[0]
    ensures Last(ts).table ==
      ClientEvent(Last(ss).table.(armed := if a.oneShot then map[] else map[5 := a]), ev, r, w, now)
  {
    hide Run, ClientEvent, Reported, Mentions, Reportable;
    ts, fs := Report(ss, es, oneShot, p, a, ev);
    ts, fs := Do(ts, fs, Io(r, w, now));
  }

  function NoTimers(): T.Timers { T.Timers(multiset{}, seq(MAX_FD, _ => 0), map[]) }

  lemma Open5(oneShot: bool) returns (ss: seq<State>, es: seq<Step>)
    ensures Run(ss, es) && ss[0].table.oneShot == oneShot && Only5(Last(ss), oneShot, Reading, Arming(false, true))
    ensures Last(ss).table.timers == T.Added(NoTimers(), 5, TIMEOUT_SEC, 0)
  {
    var s := State(Table(oneShot, {}, map[], map[], NoTimers(), []), Mail([], [], false, 0, 0, false, [], []), [], []);
    ss, es := Do([s], [], Accept(5));
    hide Run, T.Added;
    ss, es := Fetch(ss, es, NewConn(5), 0);
  }

  /** The timers of a connection accepted at 0 whose first request is read and answered at `now`. */
  function Served(now: int): T.Timers {
    T.Added(T.Invalidated(T.Added(T.Added(NoTimers(), 5, TIMEOUT_SEC, 0), 5, TIMEOUT_SEC, now), 5), 5, TIMEOUT_SEC, now)
  }

  /** A request comes in whole, its task runs, and the response is ready to go. */
  lemma Answer5(oneShot: bool, now: int) returns (ss: seq<State>, es: seq<Step>)
    ensures Run(ss, es) && ss[0].table.oneShot == oneShot && Only5(Last(ss), oneShot, Responding, Arming(true, oneShot))
    ensures Last(ss).table.timers == Served(now)
  {
    ss, es := Open5(oneShot);
    hide Run, T.Added, T.Invalidated;
    ss, es := Handle(ss, es, oneShot, Reading, Arming(false, true), Client(5, true, false, false), Complete, Blocked,
                     now);
    ss, es := Do(ss, es, PoolTake);
    ss, es := Do(ss, es, BusinessDone(0, true));
    ss, es := Fetch(ss, es, BusDone(5, true), now);
  }

  /** And is sent; the connection is kept alive. */
  lemma Again5(oneShot: bool) returns (ss: seq<State>, es: seq<Step>)
    ensures Run(ss, es) && ss[0].table.oneShot == oneShot
    ensures Only5(Last(ss), oneShot, Reading, Arming(false, oneShot))
  {
    ss, es := Answer5(oneShot, 0);
    hide Run, T.Added, T.Invalidated;
    ss, es := Handle(ss, es, oneShot, Responding, Arming(true, oneShot), Client(5, false, true, false), ReadFailed,
                     SentWait, 0);
  }

  /** modfd without EPOLLONESHOT, as the code has it: the second request on a kept-alive connection is submitted while
      its descriptor is still armed, and the I/O thread gets to read into the connection a worker is running. */
  lemma PlainRearmingShares() returns (ss: seq<State>, es: seq<Step>)
    ensures Run(ss, es) && !ss[0].table.oneShot
    ensures var s := Last(ss);
      s.working == [5] && s.table.conns == map[5 := Parsed] && s.batch == [Client(5, true, false, false)]
  {
    var read := Client(5, true, false, false);
    ss, es := Again5(false);
    hide Run, T.Added, T.Invalidated;
    ss, es := Handle(ss, es, false, Reading, Arming(false, false), read, Complete, Blocked, 0);
    ss, es := Do(ss, es, PoolTake);
    ss, es := Do(ss, es, Wait([read]));
  }

  /** EPOLLIN together with EPOLLHUP: its task is queued, then the connection is closed under it. */
  lemma HangupOrphansTask() returns (ss: seq<State>, es: seq<Step>)
    ensures Run(ss, es) && ss[0].table.oneShot
    ensures Last(ss).working == [5] && Last(ss).table.conns == map[] && Last(ss).table.live == {}
  {
    ss, es := Open5(true);
    hide Run, T.Added, T.Invalidated;
    ss, es := Handle(ss, es, true, Reading, Arming(false, true), Client(5, true, false, true), Complete, Blocked, 0);
    ss, es := Do(ss, es, PoolTake);
  }

  /** EPOLLRDHUP alone, with one-shot re-arming: the socket's buffer has filled up, the client closes its sending
      side, the event is spent on a connection waiting to send, no branch handles it, and the connection is left with
      nobody until its timer runs out. */
  lemma RdhupForgets() returns (ss: seq<State>, es: seq<Step>)
    ensures Run(ss, es) && ss[0].table.oneShot
    ensures var s := Last(ss);
      Quiet(s) && s.table.conns == map[5 := Responding] && s.table.armed == map[] && Tasks(s) == []
  {
    ss, es := Answer5(true, 0);
    hide Run, T.Added, T.Invalidated;
    ss, es := Handle(ss, es, true, Responding, Arming(true, true), Client(5, false, true, false), ReadFailed,
                     Blocked, 0);
    ss, es := Handle(ss, es, true, Responding, Arming(true, true), Client(5, false, false, false), ReadFailed,
                     Blocked, 0);
  }

  lemma TickAt15()
    ensures T.Ticked(T.Added(NoTimers(), 5, TIMEOUT_SEC, 0), 15, NoTimers())
    ensures forall fd: nat :: fd in {5} <==> T.Fires(T.Added(NoTimers(), 5, TIMEOUT_SEC, 0), 15, fd)
  {
    var t := T.Added(NoTimers(), 5, TIMEOUT_SEC, 0);
    assert T.TimerNode(15, 5, 1) in t.heap && t.Current(T.TimerNode(15, 5, 1));
    assert forall n :: n in t.heap ==> n == T.TimerNode(15, 5, 1);
  }

  /** Descriptor 5 times out while an event for it waits in the same batch. */
  lemma TimeOutUnderEvent(ev: Event) returns (ss: seq<State>, es: seq<Step>)
    requires ev == Client(5, true, false, false)
    ensures Run(ss, es) && ss[0].table.oneShot
    ensures Last(ss).table == Table(true, {6}, map[], map[], NoTimers(), []) && Last(ss).working == []
    ensures Last(ss).batch == [EventFd, ev] && Last(ss).mail.msgs == [NewConn(6)] && Idle(Last(ss).mail)
  {
    ss, es := Open5(true);
    TickAt15();
    hide Run, T.Added, T.Ticked, T.Fires;
    ss, es := Do(ss, es, Accept(6));
    ss, es := Do(ss, es, Wake);
    assert Mentions([TimerFd, EventFd, ev], 5) by { assert [TimerFd, EventFd, ev][2] == ev; }
    ss, es := Do(ss, es, Wait([TimerFd, EventFd, ev]));
    assert Last(ss).table.armed == map[];
    ss, es := Do(ss, es, Timeout(15, {5}, NoTimers()));
  }

  lemma ReuseNumber(ev: Event) returns (ss: seq<State>, es: seq<Step>)
    requires ev == Client(5, true, false, false)
    ensures Run(ss, es) && ss[0].table.oneShot
    ensures Last(ss).table == Table(true, {5, 6}, map[], map[], NoTimers(), []) && Last(ss).batch == [ev]
    ensures Last(ss).mail.q == [NewConn(6), NewConn(5)] && !Last(ss).mail.swapping
  {
    ss, es := TimeOutUnderEvent(ev);
    hide Run;
    ss, es := Do(ss, es, Accept(5));
    ss, es := Do(ss, es, Drain);
    ss, es := Do(ss, es, Swap);
  }

  /** A number given out again under a waiting event: the new connection's request is read through the old one's event,
      so it is submitted while the new arming still stands. */
  lemma ReuseUnderEventShares() returns (ss: seq<State>, es: seq<Step>)
    ensures Run(ss, es) && ss[0].table.oneShot
    ensures Last(ss).table.pool == [5] && 5 in Last(ss).table.conns && 5 in Last(ss).table.armed
  {
    ss, es := ReuseNumber(Client(5, true, false, false));
    hide Run, T.Added, T.Invalidated;
    ss, es := Do(ss, es, Message(15));
    ss, es := Do(ss, es, Message(15));
    assert 5 in Last(ss).table.conns && 5 in Last(ss).table.armed && Idle(Last(ss).mail);
    ss, es := Do(ss, es, Io(Complete, Blocked, 15));
  }

  function LeftOver(): T.Timers {
    T.Timers(multiset{REFRESHED, AGAIN}, seq(MAX_FD, _ => 0), map[])
  }

  lemma AddedTo(h: multiset<T.TimerNode>, z: seq<nat>, v: nat, d: map<int, int>, now: int)
    requires |z| > 5
    ensures T.Added(T.Timers(h, z[5 := v], d), 5, TIMEOUT_SEC, now) ==
      T.Timers(h + multiset{T.TimerNode(now + 15, 5, v + 1)}, z[5 := v + 1], d[5 := now + 15])
  {
    assert z[5 := v][5 := v + 1] == z[5 := v + 1];
  }

  lemma InvalidatedOf(h: multiset<T.TimerNode>, z: seq<nat>, v: nat, d: map<int, int>)
    requires |z| > 5
    ensures T.Invalidated(T.Timers(h, z[5 := v], d), 5) == T.Timers(h, z[5 := 0], d - {5})
  {
    assert z[5 := v][5 := 0] == z[5 := 0];
  }

  const ACCEPTED := T.TimerNode(15, 5, 1)
  const REFRESHED := T.TimerNode(25, 5, 2)
  const AGAIN := T.TimerNode(25, 5, 1)

  lemma ServedAt10()
    ensures Served(10).heap == multiset{} + multiset{ACCEPTED} + multiset{REFRESHED} + multiset{AGAIN}
    ensures Served(10).seqs == NoTimers().seqs[5 := 1] && Served(10).deadline == map[5 := 25]
  {
    var z := NoTimers().seqs;
    NoTimersAre();
    hide NoTimers, T.Added, T.Invalidated;
    var h1, d1 := multiset{} + multiset{ACCEPTED}, map[][5 := 15];
    AddedTo(multiset{}, z, 0, map[], 0);
    AddedTo(h1, z, 1, d1, 10);
    InvalidatedOf(h1 + multiset{REFRESHED}, z, 2, d1[5 := 25]);
    AddedTo(h1 + multiset{REFRESHED}, z, 0, d1[5 := 25] - {5}, 10);
  }

  lemma NoTimersAre()
    ensures |NoTimers().seqs| == MAX_FD && NoTimers() == T.Timers(multiset{}, NoTimers().seqs[5 := 0], map[])
  {
  }

  /** The node pushed on accepting carries the version that the timer gets when it is switched on again. */
  lemma ServedAt10TicksAt15()
    ensures T.Ticked(Served(10), 15, LeftOver())
    ensures forall fd: nat :: fd in {5} <==> T.Fires(Served(10), 15, fd)
    ensures Served(10).deadline == map[5 := 25]
  {
    ServedAt10();
    hide Served, T.Added, T.Invalidated;
    var t := Served(10);
    assert ACCEPTED in t.heap && t.Current(ACCEPTED);
    assert T.Fires(t, 15, 5);
  }

  /** Early closing in the whole reactor: accepted at 0, its first request read and answered at 10, the connection is
      closed at 15 while it sends the response, although its deadline is 25. */
  lemma ServedConnectionTimesOutEarly() returns (ss: seq<State>, es: seq<Step>)
    ensures Run(ss, es) && |es| > 0 && es[|es| - 1] == Timeout(15, {5}, LeftOver())
    ensures var s := ss[|es| - 1].table; s.conns == map[5 := Responding] && s.timers.deadline == map[5 := 25]
    ensures Last(ss).table.conns == map[] && Last(ss).table.live == {}
  {
    ss, es := Answer5(true, 10);
    ServedAt10TicksAt15();
    hide Run, T.Added, T.Invalidated, T.Ticked, T.Fires, Served;
    ss, es := Do(ss, es, Wait([TimerFd]));
    ss, es := Do(ss, es, Timeout(15, {5}, LeftOver()));
    assert |ss| == |es| + 1 by { RunLength(ss, es); }
  }

  lemma RunLength(ss: seq<State>, es: seq<Step>)
    requires Run(ss, es)
    ensures |ss| == |es| + 1
  {
  }
}
