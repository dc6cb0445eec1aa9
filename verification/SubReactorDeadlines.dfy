/** Which deadline an event leaves. A connection that is read from, written to, accepted or answered gets fifteen more
    seconds from then on, and no other connection's deadline moves. */
module SubReactorDeadlines {
  import opened SubReactor
  import opened SubReactorOwnership
  import opened SubReactorRuns
  import T = TimerHeap

  // ---------- the operations on the table ----------

  /** Deadlines of other descriptors are as before. */
  ghost predicate OthersKept(t: Table, u: Table, fd: nat) {
    forall f :: f != fd ==>
      (f in u.timers.deadline <==> f in t.timers.deadline)
      && (f in t.timers.deadline ==> u.timers.deadline[f] == t.timers.deadline[f])
  }

  /** The deadline of `fd` is fifteen seconds from `now`. */
  predicate Renewed(t: Table, fd: nat, now: int) { fd in t.timers.deadline && t.timers.deadline[fd] == now + 15 }

  lemma TimedRenews(t: Table, fd: nat, now: int)
    requires fd < |t.timers.seqs|
    ensures Renewed(Timed(t, fd, now), fd, now) && OthersKept(t, Timed(t, fd, now), fd)
  {
  }

  lemma OffForgets(t: Table, fd: nat)
    requires fd < |t.timers.seqs|
    ensures fd !in Closed(t, fd).timers.deadline && OthersKept(t, Closed(t, fd), fd)
    ensures fd !in Submitted(t, fd).timers.deadline && OthersKept(t, Submitted(t, fd), fd)
  {
  }

  /** deal_read: renewed if the request is incomplete, off if it goes to the pool or the connection is closed. */
  lemma DealReadDeadline(t: Table, fd: nat, r: ReadOutcome, now: int)
    requires fd < |t.timers.seqs|
    ensures var u := DealRead(t, fd, r, now);
      OthersKept(t, u, fd) && if r == Incomplete then Renewed(u, fd, now) else fd !in u.timers.deadline
  {
    hide Closed, Submitted, Timed;
    var v := Timed(t, fd, now);
    TimedRenews(t, fd, now);
    TimedKeepsSize(t, fd, now);
    OffForgets(t, fd);
    OffForgets(v, fd);
  }

  lemma TimedKeepsSize(t: Table, fd: nat, now: int)
    ensures |Timed(t, fd, now).timers.seqs| == |t.timers.seqs|
  {
  }

  /** deal_write: renewed if it goes on sending or waits for the next request, whatever was left before; off
      otherwise. */
  lemma DealWriteDeadline(t: Table, fd: nat, w: WriteOutcome, now: int)
    requires fd < |t.timers.seqs|
    ensures var u := DealWrite(t, fd, w, now);
      OthersKept(t, u, fd) && if w in {Blocked, SentWait} then Renewed(u, fd, now) else fd !in u.timers.deadline
  {
    hide Closed, Submitted, Timed;
    TimedRenews(t, fd, now);
    TimedKeepsSize(t, fd, now);
    OffForgets(Timed(t, fd, now), fd);
  }

  /** A client event on an open connection, read or write: if its timer is still on, it has been renewed. */
  lemma EventDeadline(t: Table, ev: Event, r: ReadOutcome, w: WriteOutcome, now: int)
    requires ev.Client? && !(ev.readable && ev.writable) && ev.fd in t.conns && ev.fd < |t.timers.seqs|
    ensures var u, fd := ClientEvent(t, ev, r, w, now), ev.fd;
      && OthersKept(t, u, fd)
      && (ev.readable || ev.writable ==> fd in u.timers.deadline ==> Renewed(u, fd, now))
      && (!ev.readable && !ev.writable && fd in u.timers.deadline ==>
            fd in t.timers.deadline && u.timers.deadline[fd] == t.timers.deadline[fd])
      && (!ev.broken && ((ev.readable && r == Incomplete) || (ev.writable && w in {Blocked, SentWait})) ==>
            Renewed(u, fd, now))
  {
    var fd := ev.fd;
    DealReadDeadline(t, fd, r, now);
    DealWriteDeadline(t, fd, w, now);
    HandlersKeepSize(t, fd, r, w, now);
    hide DealRead, DealWrite, Closed;
    OffForgets(t, fd);
    OffForgets(DealRead(t, fd, r, now), fd);
    OffForgets(DealWrite(t, fd, w, now), fd);
  }

  lemma HandlersKeepSize(t: Table, fd: nat, r: ReadOutcome, w: WriteOutcome, now: int)
    ensures |DealRead(t, fd, r, now).timers.seqs| == |t.timers.seqs|
    ensures |DealWrite(t, fd, w, now).timers.seqs| == |t.timers.seqs|
  {
  }

  /** A new connection, and a response that is ready, start the timer; a failed business stops it. */
  lemma MessageDeadline(t: Table, m: Msg, now: int)
    requires m.fd < |t.timers.seqs| && |t.timers.seqs| == MAX_FD
    ensures var u := HandleMsg(t, m, now);
      && OthersKept(t, u, m.fd)
      && (m.NewConn? || (m.fd in t.conns && m.ready) ==> Renewed(u, m.fd, now))
      && (m.BusDone? && m.fd in t.conns && !m.ready ==> m.fd !in u.timers.deadline)
      && (m.BusDone? && m.fd !in t.conns ==> u == t)
  {
    hide T.Added, T.Invalidated;
    var v := t.(conns := t.conns[m.fd := Reading], armed := t.armed[m.fd := Arming(false, true)]);
    TimedRenews(v, m.fd, now);
    TimedRenews(Rearmed(t, m.fd, true), m.fd, now);
    OffForgets(t, m.fd);
  }

  // ---------- over runs ----------

  /** The step reads from, writes to, takes in or arms for sending the connection of `fd`. */
  predicate Active(s: State, e: Step, fd: nat) {
    match e
    case Message(_) =>
      s.mail.q != [] && s.mail.q[0].fd == fd && fd < MAX_FD && (s.mail.q[0].NewConn? || fd in s.table.conns)
    case Io(_, _, _) =>
      s.batch != [] && s.batch[0].Client? && s.batch[0].fd == fd && (s.batch[0].readable || s.batch[0].writable)
    case _ => false
  }

  function ClockOf(e: Step): int { match e case Message(now) => now case Io(_, _, now) => now case _ => 0 }

  datatype Last = Never | At(time: int)

  /** The time of the last such step, of the first k. */
  function LastActive(ss: seq<State>, es: seq<Step>, k: nat, fd: nat): (r: Last)
    requires k <= |es| < |ss|
  {
    if k == 0 then Never
    else if Active(ss[k - 1], es[k - 1], fd) then At(ClockOf(es[k - 1]))
    else LastActive(ss, es, k - 1, fd)
  }

  lemma IoDeadline(s: State, e: Step, fd: nat)
    requires Good(s) && Enabled(s, e) && e.Io?
    ensures var t, u := s.table.timers.deadline, Next(s, e).table.timers.deadline;
      fd in u ==> if Active(s, e, fd) then u[fd] == e.now + 15 else fd in t && u[fd] == t[fd]
  {
    var ev := s.batch[0];
    GoodKeeps(s, ev.fd);
    if ev.fd in s.table.conns {
      EventDeadline(s.table, ev, e.r, e.w, e.now);
    } else {
      ClosedEventDeadline(s.table, ev, e.r, e.w, e.now);
    }
    hide ClientEvent, T.Timers.Valid, T.Timers.Live, Good;
  }

  lemma ClosedEventDeadline(t: Table, ev: Event, r: ReadOutcome, w: WriteOutcome, now: int)
    requires ev.Client? && ev.fd !in t.conns && r == ReadFailed && t.timers.Valid() && !t.timers.Live(ev.fd)
    ensures ClientEvent(t, ev, r, w, now).timers.deadline == t.timers.deadline
  {
    hide T.Added;
    assert ev.fd !in t.timers.deadline;
    assert t.timers.deadline - {ev.fd} == t.timers.deadline;
  }

  lemma StepDeadline(s: State, e: Step, fd: nat)
    requires Good(s) && Delivering(s.mail, s.batch) && Enabled(s, e)
    ensures var t, u := s.table.timers.deadline, Next(s, e).table.timers.deadline;
      fd in u ==> if Active(s, e, fd) then u[fd] == ClockOf(e) + 15 else fd in t && u[fd] == t[fd]
  {
    match e
    case Io(_, _, _) => IoDeadline(s, e, fd);
    case Message(now) =>
      var m := s.mail.q[0];
      GoodKeeps(s, m.fd);
      hide Good, T.Timers.Valid, T.Timers.Live;
      if m.fd < MAX_FD { MessageDeadline(s.table, m, now); }
    case Timeout(_, _, _) => hide Good, T.Timers.Valid, T.Fires;
    case _ => hide Good, T.Timers.Valid;
  }

  /** In every state that ownership reaches unbroken, the timer of each idle connection runs out fifteen seconds after
      it was last accepted, read from, written to or armed for sending. */
  lemma {:induction false} DeadlineIsLastActivePlus15(ss: seq<State>, es: seq<Step>, k: nat, fd: nat)
    requires IsRun(ss, es) && k <= |es| && Unbroken(ss, es, k)
    ensures |ss| == |es| + 1
    ensures fd in ss[k].table.timers.deadline ==>
      var last := LastActive(ss, es, k, fd); last.At? && ss[k].table.timers.deadline[fd] == last.time + 15
    ensures fd in ss[k].table.timers.deadline <==> fd in ss[k].table.conns && OnIoSide(ss[k], fd)
    decreases k
  {
    hide Next, Enabled, Good, Breaks, Active, Mentions, Delivering;
    TimersFollowOwnership(ss, es, k, fd);
    if k == 0 {
      assert fd !in ss[0].table.timers.deadline;
    } else {
      DeadlineIsLastActivePlus15(ss, es, k - 1, fd);
      UnbrokenIsGood(ss, es, k - 1);
      DeliveringHolds(ss, es, k - 1);
      StepDeadline(ss[k - 1], es[k - 1], fd);
    }
  }
}
