/** Whole runs of the sub-reactor: what holds in every state that ownership reaches unbroken. */
module SubReactorRuns {
  import opened SubReactor
  import opened SubReactorOwnership
  import T = TimerHeap

  // ---------- phases ----------

  /** Every event still to be handled for the descriptor suits the phase. */
  predicate EventsFit(batch: seq<Event>, fd: nat, p: Phase) {
    forall i :: 0 <= i < |batch| && batch[i].Client? && batch[i].fd == fd ==>
      (batch[i].readable ==> p == Reading) && (batch[i].writable ==> p == Responding)
  }

  lemma EventsFitRest(batch: seq<Event>, fd: nat, p: Phase)
    ensures batch != [] && EventsFit(batch, fd, p) ==> EventsFit(batch[1..], fd, p)
    ensures !Mentions(batch, fd) ==> EventsFit(batch, fd, p)
  {
  }

  /** The slot is ready for whatever its place leads to: input for an armed-in, a response for an armed-out or a
      successful BusDone, a parsed request for a task. */
  predicate PhaseAgrees(s: State, fd: nat) {
    fd in s.table.conns ==>
      var p := s.table.conns[fd];
      && (fd in s.table.armed ==> p == if s.table.armed[fd].out then Responding else Reading)
      && EventsFit(s.batch, fd, p)
      && (Count(Tasks(s), fd) > 0 ==> p == Parsed)
      && (BusDone(fd, true) in Letters(s.mail) ==> p == Responding)
      && (BusDone(fd, false) in Letters(s.mail) ==> p == Parsed)
  }

  ghost predicate PhasesAgree(s: State) { forall fd: nat :: PhaseAgrees(s, fd) }

  predicate ArmingFits(v: View) { v.armed ==> v.phase == if v.out then Responding else Reading }

  /** An event that suits the phase leaves the arming, or its task, suiting the new phase. */
  lemma EventViewFits(v: View, ev: Event, r: ReadOutcome, w: WriteOutcome)
    requires ev.Client? && v.isOpen && ArmingFits(v) && EventsFit([ev], ev.fd, v.phase)
    ensures var u := EventView(v, ev, r, w);
      u.isOpen ==>
        if Submits(ev, r, w) then u.phase == Parsed && u.armed == v.armed
        else ArmingFits(u) && (u.phase == v.phase || u.armed)
  {
    assert [ev][0].fd == ev.fd;
  }

  lemma IoKeepsPhaseElsewhere(s: State, e: Step, f: nat)
    requires Good(s) && Enabled(s, e) && e.Io? && f != s.batch[0].fd && PhaseAgrees(s, f)
    ensures PhaseAgrees(Next(s, e), f)
  {
    IoSeen(s, e, f);
    hide Next, Enabled, Good, EventView, PhaseAgrees, EventsFit, Tasks, Letters;
    if f in s.table.conns {
      PhaseFits(s, f);
      EventsFitRest(s.batch, f, s.table.conns[f]);
    }
    PhaseCarries(s, Next(s, e), f);
  }

  lemma PhaseFits(s: State, f: nat)
    requires PhaseAgrees(s, f) && f in s.table.conns
    ensures EventsFit(s.batch, f, s.table.conns[f])
  {
  }

  /** A descriptor with the same view, letters and tasks, and no event that does not suit. */
  lemma PhaseCarries(s: State, n: State, f: nat)
    requires PhaseAgrees(s, f) && Seen(n.table, f) == Seen(s.table, f) && n.mail == s.mail
    requires Count(Tasks(n), f) == Count(Tasks(s), f)
    requires f in n.table.conns ==> EventsFit(n.batch, f, n.table.conns[f])
    ensures PhaseAgrees(n, f)
  {
    hide EventsFit, Count, Tasks, Letters, T.Timers.Live;
  }

  lemma IoKeepsPhaseThere(s: State, e: Step, f: nat)
    requires Good(s) && Enabled(s, e) && e.Io? && !Breaks(s, e) && f == s.batch[0].fd && PhaseAgrees(s, f)
    ensures PhaseAgrees(Next(s, e), f)
  {
    var n, ev := Next(s, e), s.batch[0];
    assert Owned(s, f);
    IoSeen(s, e, f);
    MentionsRest(s.batch, f);
    assert f in s.table.conns ==> EventsFit([ev], f, s.table.conns[f]) by {
      assert [ev][0] == s.batch[0];
    }
    hide Next, Enabled, T.Timers.Valid, T.Timers.Live, Mentions, EventsFit, EventView;
    DonesIn(Letters(s.mail), f);
    if f in n.table.conns {
      EventViewFits(Seen(s.table, f), ev, e.r, e.w);
      EventsFitRest(n.batch, f, n.table.conns[f]);
    }
  }

  lemma MessageKeepsPhase(s: State, now: int, f: nat)
    requires Good(s) && Enabled(s, Message(now)) && PhaseAgrees(s, f)
    ensures PhaseAgrees(Next(s, Message(now)), f)
  {
    var n, m := Next(s, Message(now)), s.mail.q[0];
    assert Owned(s, f);
    MsgSeen(s, now, f);
    hide Next, Enabled, T.Timers.Live, Mentions, EventsFit;
    assert Letters(s.mail)[0] == m && Letters(s.mail)[1..] == Letters(n.mail);
    DonesIn(Letters(n.mail), f);
    if f in n.table.conns { EventsFitRest(s.batch, f, n.table.conns[f]); }
  }

  lemma BusinessKeepsPhase(s: State, i: nat, ready: bool, f: nat)
    requires Good(s) && Enabled(s, BusinessDone(i, ready)) && PhaseAgrees(s, f)
    ensures PhaseAgrees(Next(s, BusinessDone(i, ready)), f)
  {
    var n, fd := Next(s, BusinessDone(i, ready)), s.working[i];
    hide T.Timers.Valid, T.Timers.Live, Count, News, Dones;
    assert Letters(n.mail) == Letters(s.mail) + [BusDone(fd, ready)];
    WithoutTask(s.working, s.table.pool, i);
    assert Tasks(n) == Tasks(s)[..i] + Tasks(s)[i + 1..] && Tasks(s)[i] == fd;
    CountedIn(Tasks(s), fd);
    CountRemove(Tasks(s), i, f);
    assert Owned(s, fd);
    DonesIn(Letters(s.mail), fd);
  }

  /** The other steps leave phases, tasks and BusDone messages as they are, and take no arming or event from thin air.
      */
  lemma OthersKeepPhase(s: State, e: Step, f: nat)
    requires Enabled(s, e) && !e.Io? && !e.Message? && !e.BusinessDone? && !e.Wait? && PhaseAgrees(s, f)
    requires Delivering(s.mail, s.batch)
    ensures PhaseAgrees(Next(s, e), f)
  {
    var n := Next(s, e);
    if s.batch != [] && f in s.table.conns { EventsFitRest(s.batch, f, s.table.conns[f]); }
    hide T.Ticked, T.Fires, EventsFit;
    if e.PoolTake? {
      assert Tasks(n) == Tasks(s);
    } else if e.Accept? {
      assert Letters(n.mail) == Letters(s.mail) + [NewConn(e.fd)];
    } else {
      assert Letters(n.mail) == Letters(s.mail);
    }
  }

  lemma WaitKeepsPhase(s: State, events: seq<Event>, f: nat)
    requires Enabled(s, Wait(events)) && PhaseAgrees(s, f)
    ensures PhaseAgrees(Next(s, Wait(events)), f)
  {
    hide Mentions;
  }

  lemma StepKeepsPhase(s: State, e: Step, f: nat)
    requires Good(s) && Delivering(s.mail, s.batch) && Enabled(s, e) && !Breaks(s, e) && PhaseAgrees(s, f)
    ensures PhaseAgrees(Next(s, e), f)
  {
    hide Good, Delivering, Next, PhaseAgrees, Breaks;
    match e
    case Io(_, _, _) =>
      if f == s.batch[0].fd { IoKeepsPhaseThere(s, e, f); } else { IoKeepsPhaseElsewhere(s, e, f); }
    case Message(now) => MessageKeepsPhase(s, now, f);
    case BusinessDone(i, ready) => BusinessKeepsPhase(s, i, ready, f);
    case Wait(events) => WaitKeepsPhase(s, events, f);
    case _ => OthersKeepPhase(s, e, f);
  }

  // ---------- runs ----------

  /** None of the first `n` steps is one that breaks ownership. */
  predicate Unbroken(ss: seq<State>, es: seq<Step>, n: nat)
    requires n <= |es| < |ss|
  {
    forall k :: 0 <= k < n ==> !Breaks(ss[k], es[k])
  }

  lemma InitIsGood(s: State)
    requires Init(s)
    ensures Good(s) && PhasesAgree(s)
  {
    forall fd: nat ensures Owned(s, fd) && TimerAgrees(s, fd) && PhaseAgrees(s, fd) {}
  }

  lemma {:induction false} UnbrokenIsGood(ss: seq<State>, es: seq<Step>, k: nat)
    requires IsRun(ss, es) && k <= |es| && Unbroken(ss, es, k)
    ensures Good(ss[k]) && PhasesAgree(ss[k])
    decreases k
  {
    hide Enabled, Next, Good, PhaseAgrees, Delivering, Breaks, Init;
    if k == 0 {
      InitIsGood(ss[0]);
    } else {
      UnbrokenIsGood(ss, es, k - 1);
      DeliveringHolds(ss, es, k - 1);
      StepKeepsOwnershipIff(ss[k - 1], es[k - 1]);
      forall fd: nat ensures PhaseAgrees(ss[k], fd) {
        StepKeepsPhase(ss[k - 1], es[k - 1], fd);
      }
    }
  }

  /** A run keeps every descriptor in exactly one place throughout if and only if it takes none of those steps. */
  lemma OwnedThroughoutIff(ss: seq<State>, es: seq<Step>)
    requires IsRun(ss, es)
    ensures (forall k :: 0 <= k <= |es| ==> SingleOwnership(ss[k])) <==> Unbroken(ss, es, |es|)
  {
    hide Enabled, Next, PhasesAgree, Delivering, Breaks, Init, TimersAgree, BatchSound, SingleOwnership;
    if Unbroken(ss, es, |es|) {
      forall k | 0 <= k <= |es| ensures SingleOwnership(ss[k]) { UnbrokenIsGood(ss, es, k); }
    } else {
      var k := FirstBreak(ss, es);
      UnbrokenIsGood(ss, es, k);
      DeliveringHolds(ss, es, k);
      StepKeepsOwnershipIff(ss[k], es[k]);
      assert !SingleOwnership(ss[k + 1]);
    }
  }

  lemma {:induction false} FirstBreak(ss: seq<State>, es: seq<Step>) returns (k: nat)
    requires |ss| == |es| + 1 && !Unbroken(ss, es, |es|)
    ensures k < |es| && Breaks(ss[k], es[k]) && Unbroken(ss, es, k)
  {
    hide Breaks;
    k := 0;
    while !Breaks(ss[k], es[k])
      invariant k < |es| && Unbroken(ss, es, k)
      decreases |es| - k
    {
      k := k + 1;
    }
  }

  // ---------- what ownership gives ----------

  /** While the business of a connection is queued or running: its slot is open and holds a parsed request, no second
      task, no event, no arming and no message concerns it, and its timer is off. */
  lemma WorkerIsAlone(ss: seq<State>, es: seq<Step>, k: nat, fd: nat)
    requires IsRun(ss, es) && k <= |es| && Unbroken(ss, es, k) && fd in Tasks(ss[k])
    ensures fd in ss[k].table.conns && ss[k].table.conns[fd] == Parsed && Count(Tasks(ss[k]), fd) == 1
    ensures fd !in ss[k].table.armed && !Mentions(ss[k].batch, fd) && !ss[k].table.timers.Live(fd)
    ensures forall m :: m in Letters(ss[k].mail) ==> m.fd != fd
  {
    UnbrokenIsGood(ss, es, k);
    CountedIn(Tasks(ss[k]), fd);
    assert Owned(ss[k], fd) && TimerAgrees(ss[k], fd) && PhaseAgrees(ss[k], fd);
    hide IsRun, Unbroken, T.Timers.Valid, T.Timers.Live, Mentions;
    DonesIn(Letters(ss[k].mail), fd);
    NewsIn(Letters(ss[k].mail), fd);
    forall m | m in Letters(ss[k].mail) ensures m.fd != fd {
      assert m == NewConn(m.fd) || m == BusDone(m.fd, m.ready);
    }
  }

  lemma {:induction false} NewsIn(ms: seq<Msg>, fd: nat)
    ensures News(ms, fd) > 0 <==> NewConn(fd) in ms
  {
    if ms != [] {
      NewsIn(ms[1..], fd);
    }
  }

  /** And no step but that worker's own touches the connection. */
  lemma OnlyTheWorkerTouches(ss: seq<State>, es: seq<Step>, k: nat, fd: nat)
    requires IsRun(ss, es) && k < |es| && Unbroken(ss, es, k + 1) && fd in Tasks(ss[k])
    requires es[k].BusinessDone? ==> ss[k].working[es[k].i] != fd
    ensures Seen(ss[k + 1].table, fd) == Seen(ss[k].table, fd) && fd in Tasks(ss[k + 1])
  {
    var s, e, n := ss[k], es[k], ss[k + 1];
    assert n == Next(s, e) && Enabled(s, e);
    WorkerIsAlone(ss, es, k, fd);
    UnbrokenIsGood(ss, es, k);
    hide IsRun, Unbroken, Next, Enabled, Good, Mentions, T.Timers.Live;
    CountedIn(Tasks(s), fd);
    if e.Message? { assert s.mail.q[0] in Letters(s.mail) by { MessageIsQueued(s, e.now); } }
    StepSparesTask(s, e, fd);
    CountedIn(Tasks(n), fd);
  }

  lemma MessageIsQueued(s: State, now: int)
    requires Enabled(s, Message(now))
    ensures s.mail.q != [] && s.mail.q[0] in Letters(s.mail)
  {
  }

  /** A descriptor whose task is queued or running, as far as the table knows. */
  predicate InTask(s: State, fd: nat) {
    Count(Tasks(s), fd) > 0 && fd in s.table.conns && !Mentions(s.batch, fd) && !s.table.timers.Live(fd)
  }

  lemma TimeoutSparesTask(s: State, e: Step, fd: nat)
    requires Good(s) && Enabled(s, e) && e.Timeout? && InTask(s, fd)
    ensures Seen(Next(s, e).table, fd) == Seen(s.table, fd) && Count(Tasks(Next(s, e)), fd) > 0
  {
    T.TickKeepsValid(s.table.timers, e.now, e.after);
    FiresIsLive(s.table.timers, e.now, fd);
    hide T.Timers.Valid, T.Timers.Live, Mentions, T.Fires, T.Ticked;
  }

  lemma BusinessSparesTask(s: State, i: nat, ready: bool, fd: nat)
    requires Enabled(s, BusinessDone(i, ready)) && InTask(s, fd) && s.working[i] != fd
    ensures Seen(Next(s, BusinessDone(i, ready)).table, fd) == Seen(s.table, fd)
    ensures Count(Tasks(Next(s, BusinessDone(i, ready))), fd) > 0
  {
    hide T.Timers.Live, Mentions, Count;
    CountRemove(Tasks(s), i, fd);
    WithoutTask(s.working, s.table.pool, i);
    assert Tasks(Next(s, BusinessDone(i, ready))) == Tasks(s)[..i] + Tasks(s)[i + 1..];
  }

  lemma StepSparesTask(s: State, e: Step, fd: nat)
    requires Good(s) && Enabled(s, e) && InTask(s, fd)
    requires e.Message? ==> s.mail.q[0].fd != fd
    requires e.BusinessDone? ==> s.working[e.i] != fd
    ensures Seen(Next(s, e).table, fd) == Seen(s.table, fd) && Count(Tasks(Next(s, e)), fd) > 0
  {
    assert Owned(s, fd);
    if e.Io? {
      IoSeen(s, e, fd);
    } else if e.Message? {
      MsgSeen(s, e.now, fd);
    } else if e.Timeout? {
      TimeoutSparesTask(s, e, fd);
    } else if e.BusinessDone? {
      BusinessSparesTask(s, e.i, e.ready, fd);
    } else if e.PoolTake? {
      assert Tasks(Next(s, e)) == Tasks(s);
    } else {
      hide T.Timers.Valid, T.Timers.Live, TimersAgree;
    }
  }

  /** A worker that is done reports its own connection, and how it went; the slot then holds a response exactly if it
      went well. */
  lemma BusinessIsReported(s: State, i: nat, ready: bool)
    requires Enabled(s, BusinessDone(i, ready))
    ensures var n, fd := Next(s, BusinessDone(i, ready)), s.working[i];
      && n.mail.pushed == s.mail.pushed + [BusDone(fd, ready)] && n.mail.wakers == s.mail.wakers + 1
      && (ready ==> fd in n.table.conns && n.table.conns[fd] == Responding)
      && (!ready ==> n.table == s.table)
      && Count(Tasks(n), fd) == Count(Tasks(s), fd) - 1
  {
    WithoutTask(s.working, s.table.pool, i);
    CountRemove(Tasks(s), i, s.working[i]);
    var n := Next(s, BusinessDone(i, ready));
    assert Tasks(n) == Tasks(s)[..i] + Tasks(s)[i + 1..];
  }

  /** No BusDone is stale: each finds its slot open, holding its response if and only if business succeeded; and it is
      the only message for it. */
  lemma BusDoneIsFresh(ss: seq<State>, es: seq<Step>, k: nat, fd: nat, ready: bool)
    requires IsRun(ss, es) && k <= |es| && Unbroken(ss, es, k) && BusDone(fd, ready) in Letters(ss[k].mail)
    ensures fd in ss[k].table.conns && ss[k].table.conns[fd] == if ready then Responding else Parsed
    ensures Dones(Letters(ss[k].mail), fd) == 1 && NewConn(fd) !in Letters(ss[k].mail)
    ensures fd !in Tasks(ss[k]) && !OnIoSide(ss[k], fd)
  {
    UnbrokenIsGood(ss, es, k);
    assert Owned(ss[k], fd) && PhaseAgrees(ss[k], fd);
    hide IsRun, Unbroken, T.Timers.Valid, T.Timers.Live, Mentions;
    CountedIn(Tasks(ss[k]), fd);
    DonesIn(Letters(ss[k].mail), fd);
    NewsIn(Letters(ss[k].mail), fd);
  }

  predicate Due(t: T.Timers, now: int, fd: nat) { fd in t.deadline && t.deadline[fd] <= now }

  /** An idle connection always has a live deadline, and no other does; a tick closes only idle ones. */
  lemma TimersFollowOwnership(ss: seq<State>, es: seq<Step>, k: nat, fd: nat)
    requires IsRun(ss, es) && k <= |es| && Unbroken(ss, es, k)
    ensures ss[k].table.timers.Live(fd) <==> fd in ss[k].table.conns && OnIoSide(ss[k], fd)
    ensures ss[k].table.timers.Live(fd) <==> fd in ss[k].table.timers.deadline
    ensures k < |es| && es[k].Timeout? && fd in es[k].fired ==>
      fd in ss[k].table.conns && OnIoSide(ss[k], fd) && fd !in Tasks(ss[k])
    ensures k < |es| && es[k].Timeout? && Due(ss[k].table.timers, es[k].now, fd) ==>
      fd in es[k].fired && fd !in ss[k + 1].table.conns
  {
    UnbrokenIsGood(ss, es, k);
    var s := ss[k];
    assert TimerAgrees(s, fd);
    if k < |es| && es[k].Timeout? {
      assert Enabled(s, es[k]) && ss[k + 1] == Next(s, es[k]);
      TimeoutKeeps(s, es[k]);
      CountedIn(Tasks(s), fd);
      hide IsRun, Unbroken;
      if Due(s.table.timers, es[k].now, fd) {
        T.NeverLate(s.table.timers, es[k].now, fd);
      }
    }
  }

  /** The handlers meet a connection only in the phase they are written for. */
  lemma HandlersSuit(ss: seq<State>, es: seq<Step>, k: nat)
    requires IsRun(ss, es) && k < |es| && Unbroken(ss, es, k)
    ensures es[k].Io? && ss[k].batch[0].fd in ss[k].table.conns ==>
      var ev, p := ss[k].batch[0], ss[k].table.conns[ss[k].batch[0].fd];
      (ev.readable ==> p == Reading) && (ev.writable ==> p == Responding)
    ensures es[k].BusinessDone? ==>
      ss[k].working[es[k].i] in ss[k].table.conns && ss[k].table.conns[ss[k].working[es[k].i]] == Parsed
  {
    UnbrokenIsGood(ss, es, k);
    var s, e := ss[k], es[k];
    assert Enabled(s, e);
    if e.Io? {
      assert PhaseAgrees(s, s.batch[0].fd);
    } else if e.BusinessDone? {
      assert s.working[e.i] in Tasks(s);
      WorkerIsAlone(ss, es, k, s.working[e.i]);
    }
  }

  // ---------- with one-shot re-arming ----------

  /** Where modfd arms one-shot, a descriptor is armed or in the batch, not both. */
  predicate Exclusive(s: State) {
    s.table.oneShot ==>
      forall fd :: fd in s.table.armed ==> s.table.armed[fd].oneShot && !Mentions(s.batch, fd)
  }

  /** The only new armings are modfd's, on the one descriptor. */
  predicate ArmsOnly(t: Table, u: Table, fd: nat) {
    && u.oneShot == t.oneShot
    && forall f :: f in u.armed ==>
         (f in t.armed && u.armed[f] == t.armed[f]) || (f == fd && u.armed[f].oneShot == t.oneShot)
  }

  lemma HandlersArm(t: Table, fd: nat, r: ReadOutcome, w: WriteOutcome, now: int)
    ensures ArmsOnly(t, Closed(t, fd), fd)
    ensures ArmsOnly(t, DealRead(t, fd, r, now), fd) && ArmsOnly(t, DealWrite(t, fd, w, now), fd)
  {
    hide T.Added, T.Invalidated;
  }

  lemma ClientEventArms(t: Table, ev: Event, r: ReadOutcome, w: WriteOutcome, now: int)
    requires ev.Client?
    ensures ArmsOnly(t, ClientEvent(t, ev, r, w, now), ev.fd)
  {
    hide Closed, DealRead, DealWrite;
    HandlersArm(t, ev.fd, r, w, now);
    var t1 := if ev.readable then DealRead(t, ev.fd, r, now) else t;
    HandlersArm(t1, ev.fd, r, w, now);
    var t2 := if ev.fd in t1.conns && ev.writable then DealWrite(t1, ev.fd, w, now) else t1;
    HandlersArm(t2, ev.fd, r, w, now);
  }

  lemma HandleMsgArms(t: Table, m: Msg, now: int, f: nat)
    requires f in HandleMsg(t, m, now).armed
    ensures var u := HandleMsg(t, m, now);
      (f in t.armed && u.armed[f] == t.armed[f])
      || (f == m.fd && (t.oneShot ==> u.armed[f].oneShot) && (m.BusDone? ==> f in t.conns))
  {
    hide T.Added, T.Invalidated;
  }

  lemma OneShotStays(s: State, e: Step)
    requires Enabled(s, e)
    ensures Next(s, e).table.oneShot == s.table.oneShot
  {
    if e.Io? {
      ClientEventArms(s.table, s.batch[0], e.r, e.w, e.now);
      hide ClientEvent;
    }
  }

  lemma StepKeepsExclusive(s: State, e: Step)
    requires Good(s) && Exclusive(s) && Enabled(s, e)
    ensures Exclusive(Next(s, e))
  {
    var n := Next(s, e);
    OneShotStays(s, e);
    forall f | s.table.oneShot && f in n.table.armed
      ensures n.table.armed[f].oneShot && !Mentions(n.batch, f) {
      assert Owned(s, f);
      if s.batch != [] { MentionsRest(s.batch, f); }
      if e.Io? {
        ClientEventArms(s.table, s.batch[0], e.r, e.w, e.now);
      } else if e.Message? {
        HandleMsgArms(s.table, s.mail.q[0], e.now, f);
        assert Letters(s.mail)[0] == s.mail.q[0];
      }
    }
  }

  lemma {:induction false} ExclusiveHolds(ss: seq<State>, es: seq<Step>, k: nat)
    requires IsRun(ss, es) && k <= |es| && Unbroken(ss, es, k)
    ensures Exclusive(ss[k]) && ss[k].table.oneShot == ss[0].table.oneShot
    decreases k
  {
    if k > 0 {
      hide Enabled, Next, Exclusive, Good, Breaks;
      ExclusiveHolds(ss, es, k - 1);
      UnbrokenIsGood(ss, es, k - 1);
      OneShotStays(ss[k - 1], es[k - 1]);
      StepKeepsExclusive(ss[k - 1], es[k - 1]);
    }
  }

  /** With one-shot re-arming the first step to break ownership is one of three: a number given out again under a
      waiting event, a submit by an event with HUP or ERR, or an event with RDHUP alone. */
  lemma OneShotBreaks(ss: seq<State>, es: seq<Step>, k: nat)
    requires IsRun(ss, es) && k < |es| && Unbroken(ss, es, k) && ss[0].table.oneShot
    ensures Breaks(ss[k], es[k]) <==>
      match es[k]
      case Accept(fd) => Mentions(ss[k].batch, fd)
      case Io(r, w, _) =>
        var ev := ss[k].batch[0];
        ev.fd in ss[k].table.conns
        && if Submits(ev, r, w) then ev.broken else !ev.readable && !ev.writable && !ev.broken
      case _ => false
  {
    ExclusiveHolds(ss, es, k);
    assert Enabled(ss[k], es[k]);
    if es[k].Io? {
      assert ss[k].batch[0].Client? && Mentions(ss[k].batch, ss[k].batch[0].fd);
    }
  }
}
