/** Who owns a connection. While each is in exactly one place, the I/O thread and a worker never touch it together, the
    timers are on exactly while no worker side holds it, and nothing is forgotten; and this lasts exactly as long as no
    step is one of those named by `Breaks`. */
module SubReactorOwnership {
  import opened SubReactor
  import T = TimerHeap

  // ---------- places ----------

  function Count(xs: seq<nat>, fd: nat): nat {
    if xs == [] then 0 else (if xs[0] == fd then 1 else 0) + Count(xs[1..], fd)
  }

  function News(ms: seq<Msg>, fd: nat): nat {
    if ms == [] then 0 else (if ms[0] == NewConn(fd) then 1 else 0) + News(ms[1..], fd)
  }

  function Dones(ms: seq<Msg>, fd: nat): nat {
    if ms == [] then 0 else (if ms[0].BusDone? && ms[0].fd == fd then 1 else 0) + Dones(ms[1..], fd)
  }

  /** All messages on their way, and all tasks queued or running. */
  function Letters(m: Mail): seq<Msg> { m.q + m.msgs }

  function Tasks(s: State): seq<nat> { s.working + s.table.pool }

  /** With epoll or with the I/O thread. */
  predicate OnIoSide(s: State, fd: nat) { fd in s.table.armed || Mentions(s.batch, fd) }

  /** A descriptor with an open slot is in one place: on the I/O side, a task, or a BusDone message. One still to be
      taken in is a NewConn message. A closed one is nowhere. */
  predicate InOnePlace(isOpen: bool, live: bool, armed: bool, pending: bool, news: nat, dones: nat, tasks: nat) {
    if isOpen then live && news == 0 && (if armed || pending then 1 else 0) + dones + tasks == 1
    else if live then news == 1 && !armed && !pending && dones == 0 && tasks == 0
    else !armed && news == 0 && dones == 0 && tasks == 0
  }

  predicate Owned(s: State, fd: nat) {
    InOnePlace(fd in s.table.conns, fd in s.table.live, fd in s.table.armed, Mentions(s.batch, fd),
               News(Letters(s.mail), fd), Dones(Letters(s.mail), fd), Count(Tasks(s), fd))
  }

  ghost predicate SingleOwnership(s: State) { forall fd: nat :: Owned(s, fd) }

  /** The timer of a descriptor is on exactly while its connection is open and on the I/O side. */
  predicate TimerAgrees(s: State, fd: nat) {
    s.table.timers.Live(fd) <==> fd in s.table.conns && OnIoSide(s, fd)
  }

  ghost predicate TimersAgree(s: State) {
    && s.table.timers.Valid() && |s.table.timers.seqs| == MAX_FD
    && (forall fd: nat :: fd in s.table.conns ==> fd < MAX_FD)
    && (forall fd: nat :: TimerAgrees(s, fd))
  }

  /** As epoll reported it: one event for a descriptor, by its interest. */
  predicate BatchSound(batch: seq<Event>) {
    && (forall i, j :: 0 <= i < j < |batch| && batch[i].Client? && batch[j].Client? ==> batch[i].fd != batch[j].fd)
    && (forall i :: 0 <= i < |batch| && batch[i].Client? ==> !(batch[i].readable && batch[i].writable))
  }

  // ---------- what breaks ownership ----------

  /** Handling the event ends with a task in the pool. */
  predicate Submits(ev: Event, r: ReadOutcome, w: WriteOutcome)
    requires ev.Client?
  {
    (ev.readable && r == Complete) || (ev.writable && w == SentNext)
  }

  /** A number is given out again while an event for its last holder is still to be handled; a task is submitted for a
      descriptor that is still armed, or by an event that also carries HUP or ERR; an event with none of the flags the
      loop tests is the one that spent a one-shot arming. */
  predicate Breaks(s: State, e: Step) {
    match e
    case Accept(fd) => Mentions(s.batch, fd)
    case Io(r, w, _) =>
      s.batch != [] && s.batch[0].Client? && s.batch[0].fd in s.table.conns &&
      var ev := s.batch[0];
      if Submits(ev, r, w) then ev.broken || ev.fd in s.table.armed
      else !ev.readable && !ev.writable && !ev.broken && ev.fd !in s.table.armed
    case _ => false
  }

  // ---------- counting ----------

  lemma {:induction false} CountSnoc(xs: seq<nat>, x: nat, fd: nat)
    ensures Count(xs + [x], fd) == Count(xs, fd) + if x == fd then 1 else 0
  {
    if xs == [] {
      assert [] + [x] == [x];
    } else {
      assert (xs + [x])[1..] == xs[1..] + [x];
      CountSnoc(xs[1..], x, fd);
    }
  }

  lemma {:induction false} CountRemove(xs: seq<nat>, i: nat, fd: nat)
    requires i < |xs|
    ensures Count(xs[..i] + xs[i + 1..], fd) == Count(xs, fd) - if xs[i] == fd then 1 else 0
  {
    if i == 0 {
      assert xs[..0] + xs[1..] == xs[1..];
    } else {
      assert (xs[..i] + xs[i + 1..])[1..] == xs[1..][..i - 1] + xs[1..][i..];
      CountRemove(xs[1..], i - 1, fd);
    }
  }

  lemma {:induction false} CountedIn(xs: seq<nat>, fd: nat)
    ensures Count(xs, fd) > 0 <==> fd in xs
  {
    if xs != [] {
      CountedIn(xs[1..], fd);
    }
  }

  lemma {:induction false} LettersSnoc(ms: seq<Msg>, m: Msg, fd: nat)
    ensures News(ms + [m], fd) == News(ms, fd) + if m == NewConn(fd) then 1 else 0
    ensures Dones(ms + [m], fd) == Dones(ms, fd) + if m.BusDone? && m.fd == fd then 1 else 0
  {
    if ms == [] {
      assert [] + [m] == [m];
    } else {
      assert (ms + [m])[1..] == ms[1..] + [m];
      LettersSnoc(ms[1..], m, fd);
    }
  }

  lemma {:induction false} DonesIn(ms: seq<Msg>, fd: nat)
    ensures Dones(ms, fd) > 0 <==> exists ready :: BusDone(fd, ready) in ms
  {
    if ms != [] {
      DonesIn(ms[1..], fd);
      if ms[0].BusDone? && ms[0].fd == fd {
        assert BusDone(fd, ms[0].ready) in ms;
      }
    }
  }

  lemma MentionsRest(batch: seq<Event>, fd: nat)
    requires BatchSound(batch) && batch != []
    ensures Mentions(batch[1..], fd) <==> Mentions(batch, fd) && !(batch[0].Client? && batch[0].fd == fd)
    ensures batch[0].Client? ==> Mentions(batch, batch[0].fd)
    ensures BatchSound(batch[1..])
  {
    if Mentions(batch, fd) && !(batch[0].Client? && batch[0].fd == fd) {
      var i :| 0 <= i < |batch| && batch[i].Client? && batch[i].fd == fd;
      assert batch[1..][i - 1] == batch[i];
    }
  }

  // ---------- the handlers, seen from one descriptor ----------

  /** What a handler has made of one descriptor. */
  datatype View = View(isOpen: bool, live: bool, armed: bool, timed: bool, phase: Phase, out: bool)

  function Seen(t: Table, fd: nat): View {
    View(fd in t.conns, fd in t.live, fd in t.armed, t.timers.Live(fd),
         if fd in t.conns then t.conns[fd] else Reading, fd in t.armed && t.armed[fd].out)
  }

  const GONE := View(false, false, false, false, Reading, false)

  /** The operations on the table, at the descriptor and elsewhere. */
  ghost predicate Touches(t: Table, u: Table, fd: nat, v: View) {
    && u.timers.Valid() && |u.timers.seqs| == |t.timers.seqs| && u.oneShot == t.oneShot
    && Seen(u, fd) == v
    && forall f: nat :: f != fd ==> Seen(u, f) == Seen(t, f)
  }

  lemma TouchesTwice(t: Table, u: Table, x: Table, fd: nat, v: View, z: View)
    requires Touches(t, u, fd, v) && Touches(u, x, fd, z)
    ensures Touches(t, x, fd, z)
  {
  }

  lemma ClosedTouches(t: Table, fd: nat)
    requires t.timers.Valid()
    ensures Touches(t, Closed(t, fd), fd, GONE.(live := fd in t.live && fd !in t.conns))
    ensures Closed(t, fd).pool == t.pool
  {
    hide T.Invalidated, T.Timers.Valid, T.Timers.Live;
    T.InvalidateKeepsValid(t.timers, fd);
  }

  lemma TimedTouches(t: Table, fd: nat, now: int)
    requires t.timers.Valid() && fd < |t.timers.seqs|
    ensures Touches(t, Timed(t, fd, now), fd, Seen(t, fd).(timed := true))
    ensures Timed(t, fd, now).timers.Valid() && Timed(t, fd, now).pool == t.pool
    ensures Seen(Timed(t, fd, now), fd) == Seen(t, fd).(timed := true)
  {
    hide T.Added, T.Timers.Valid, T.Timers.Live;
    assert t.timers.InRange(fd);
    T.AddKeepsValid(t.timers, fd, TIMEOUT_SEC, now);
  }

  lemma RearmedTouches(t: Table, fd: nat, out: bool)
    requires t.timers.Valid()
    ensures Touches(t, Rearmed(t, fd, out), fd, Seen(t, fd).(armed := true, out := out))
    ensures Rearmed(t, fd, out).pool == t.pool
  {
    hide T.Timers.Valid, T.Timers.Live;
  }

  lemma SubmittedTouches(t: Table, fd: nat)
    requires t.timers.Valid()
    ensures Touches(t, Submitted(t, fd), fd, Seen(t, fd).(isOpen := true, timed := false, phase := Parsed))
    ensures Submitted(t, fd).pool == t.pool + [fd]
  {
    hide T.Invalidated, T.Timers.Valid, T.Timers.Live;
    T.InvalidateKeepsValid(t.timers, fd);
  }

  /** What a client event makes of its descriptor. */
  function EventView(v: View, ev: Event, r: ReadOutcome, w: WriteOutcome): View
    requires ev.Client?
  {
    if !v.isOpen then (if ev.readable then GONE.(live := v.live) else v)
    else
      var failed := (ev.readable && r == ReadFailed) || (ev.writable && w in {SendFailed, SentClose});
      if failed || ev.broken then GONE
      else if Submits(ev, r, w) then v.(timed := false, phase := Parsed)
      else if ev.readable then v.(armed := true, timed := true, out := false)
      else if ev.writable then
        v.(armed := true, timed := true, out := w == Blocked, phase := if w == SentWait then Reading else v.phase)
      else v
  }

  lemma DealReadTouches(t: Table, fd: nat, r: ReadOutcome, now: int)
    requires t.timers.Valid() && (fd in t.conns ==> fd < |t.timers.seqs| && fd in t.live)
    requires fd !in t.conns ==> r == ReadFailed
    ensures Touches(t, DealRead(t, fd, r, now), fd, EventView(Seen(t, fd), Client(fd, true, false, false), r, Blocked))
    ensures DealRead(t, fd, r, now).pool == if r == Complete then t.pool + [fd] else t.pool
  {
    hide Touches, Closed, Timed, Rearmed, Submitted;
    if r == ReadFailed {
      ClosedTouches(t, fd);
    } else {
      TimedTouches(t, fd, now);
      var u := Timed(t, fd, now);
      if r == Incomplete {
        RearmedTouches(u, fd, false);
        TouchesTwice(t, u, Rearmed(u, fd, false), fd, Seen(u, fd), Seen(u, fd).(armed := true, out := false));
      } else {
        SubmittedTouches(u, fd);
        TouchesTwice(t, u, Submitted(u, fd), fd, Seen(u, fd),
                     Seen(u, fd).(isOpen := true, timed := false, phase := Parsed));
      }
    }
  }

  lemma PhaseTouches(t: Table, fd: nat, p: Phase)
    requires t.timers.Valid()
    ensures Touches(t, t.(conns := t.conns[fd := p]), fd, Seen(t, fd).(isOpen := true, phase := p))
  {
    hide T.Timers.Valid, T.Timers.Live;
  }

  lemma DealWriteTouches(t: Table, fd: nat, w: WriteOutcome, now: int)
    requires t.timers.Valid() && fd in t.conns && fd < |t.timers.seqs| && fd in t.live
    ensures Touches(t, DealWrite(t, fd, w, now), fd,
                    EventView(Seen(t, fd), Client(fd, false, true, false), ReadFailed, w))
    ensures DealWrite(t, fd, w, now).pool == if w == SentNext then t.pool + [fd] else t.pool
  {
    hide Touches, Closed, Timed, Rearmed, Submitted;
    TimedTouches(t, fd, now);
    var u := Timed(t, fd, now);
    match w
    case SendFailed | SentClose =>
      ClosedTouches(u, fd);
      TouchesTwice(t, u, Closed(u, fd), fd, Seen(u, fd), GONE);
    case Blocked =>
      RearmedTouches(u, fd, true);
      TouchesTwice(t, u, Rearmed(u, fd, true), fd, Seen(u, fd), Seen(u, fd).(armed := true, out := true));
    case SentWait =>
      var x := u.(conns := u.conns[fd := Reading]);
      PhaseTouches(u, fd, Reading);
      RearmedTouches(x, fd, false);
      TouchesTwice(t, u, x, fd, Seen(u, fd), Seen(u, fd).(phase := Reading));
      assert Seen(x, fd) == Seen(u, fd).(phase := Reading);
      TouchesTwice(t, x, Rearmed(x, fd, false), fd, Seen(x, fd), Seen(x, fd).(armed := true, out := false));
    case SentNext =>
      SubmittedTouches(u, fd);
      TouchesTwice(t, u, Submitted(u, fd), fd, Seen(u, fd),
                     Seen(u, fd).(isOpen := true, timed := false, phase := Parsed));
  }

  lemma ClientEventTouches(t: Table, ev: Event, r: ReadOutcome, w: WriteOutcome, now: int)
    requires t.timers.Valid() && ev.Client? && !(ev.readable && ev.writable)
    requires if ev.fd in t.conns then ev.fd < |t.timers.seqs| && ev.fd in t.live else r == ReadFailed
    ensures Touches(t, ClientEvent(t, ev, r, w, now), ev.fd, EventView(Seen(t, ev.fd), ev, r, w))
    ensures ClientEvent(t, ev, r, w, now).pool ==
      if ev.fd in t.conns && Submits(ev, r, w) then t.pool + [ev.fd] else t.pool
  {
    hide Closed, DealRead, DealWrite, T.Timers.Valid, T.Timers.Live;
    var fd := ev.fd;
    if ev.readable { DealReadTouches(t, fd, r, now); }
    var t1 := if ev.readable then DealRead(t, fd, r, now) else t;
    if fd in t1.conns && ev.writable { DealWriteTouches(t1, fd, w, now); }
    var t2 := if fd in t1.conns && ev.writable then DealWrite(t1, fd, w, now) else t1;
    if fd in t2.conns && ev.broken { ClosedTouches(t2, fd); }
  }

  // ---------- every step ----------

  ghost predicate Good(s: State) { SingleOwnership(s) && TimersAgree(s) && BatchSound(s.batch) }

  /** All that Good says of one descriptor. */
  predicate Kept(s: State, fd: nat) {
    Owned(s, fd) && TimerAgrees(s, fd) && (fd in s.table.conns ==> fd < MAX_FD)
  }

  lemma AllKept(s: State)
    requires s.table.timers.Valid() && |s.table.timers.seqs| == MAX_FD && BatchSound(s.batch)
    requires forall fd: nat :: Kept(s, fd)
    ensures Good(s)
  {
    hide Owned, TimerAgrees, T.Timers.Valid, BatchSound;
    forall fd: nat ensures Owned(s, fd) && TimerAgrees(s, fd) && (fd in s.table.conns ==> fd < MAX_FD) {
      assert Kept(s, fd);
    }
  }

  lemma GoodKeeps(s: State, fd: nat)
    requires Good(s)
    ensures Kept(s, fd) && s.table.timers.Valid() && |s.table.timers.seqs| == MAX_FD && BatchSound(s.batch)
  {
    hide Owned, T.Timers.Valid, BatchSound;
  }

  /** What handling an event comes to, here and elsewhere. */
  lemma IoSeen(s: State, e: Step, f: nat)
    requires Good(s) && Enabled(s, e) && e.Io?
    ensures var n, ev := Next(s, e), s.batch[0];
      && n.mail == s.mail && n.batch == s.batch[1..]
      && Seen(n.table, f) == (if f == ev.fd then EventView(Seen(s.table, f), ev, e.r, e.w) else Seen(s.table, f))
      && Count(Tasks(n), f) ==
         Count(Tasks(s), f) + (if f == ev.fd && f in s.table.conns && Submits(ev, e.r, e.w) then 1 else 0)
      && n.table.timers.Valid() && |n.table.timers.seqs| == MAX_FD
  {
    var n, ev := Next(s, e), s.batch[0];
    GoodKeeps(s, ev.fd);
    ClientEventTouches(s.table, ev, e.r, e.w, e.now);
    hide ClientEvent, EventView, T.Timers.Valid, T.Timers.Live, Mentions;
    assert Tasks(n) == if ev.fd in s.table.conns && Submits(ev, e.r, e.w) then Tasks(s) + [ev.fd] else Tasks(s);
    CountSnoc(Tasks(s), ev.fd, f);
  }

  /** What handling a message comes to, here and elsewhere. */
  lemma MsgSeen(s: State, now: int, f: nat)
    requires Good(s) && Enabled(s, Message(now))
    ensures var n, m := Next(s, Message(now)), s.mail.q[0];
      && n.batch == s.batch && Tasks(n) == Tasks(s) && Letters(s.mail) == [m] + Letters(n.mail)
      && Seen(n.table, f) == (if f == m.fd then MsgView(Seen(s.table, f), m) else Seen(s.table, f))
      && n.table.timers.Valid() && |n.table.timers.seqs| == MAX_FD
  {
    var m := s.mail.q[0];
    GoodKeeps(s, m.fd);
    HandleMsgTouches(s.table, m, now);
    hide HandleMsg, MsgView, T.Timers.Valid, T.Timers.Live, Mentions;
  }

  lemma IoKeepsAt(s: State, e: Step, f: nat)
    requires Good(s) && Enabled(s, e) && e.Io?
    ensures if f == s.batch[0].fd && Breaks(s, e) then !Owned(Next(s, e), f) else Kept(Next(s, e), f)
  {
    IoSeen(s, e, f);
    GoodKeeps(s, f);
    MentionsRest(s.batch, f);
    hide Next, Good, T.Timers.Valid, T.Timers.Live, Mentions, Count, News, Dones;
  }

  lemma IoKeeps(s: State, e: Step)
    requires Good(s) && Enabled(s, e) && e.Io?
    ensures !Breaks(s, e) ==> Good(Next(s, e))
    ensures Breaks(s, e) ==> !Owned(Next(s, e), s.batch[0].fd)
  {
    hide Next, Kept, Owned, Breaks, T.Timers.Valid;
    forall f: nat ensures if f == s.batch[0].fd && Breaks(s, e) then !Owned(Next(s, e), f) else Kept(Next(s, e), f) {
      IoKeepsAt(s, e, f);
    }
    IoSeen(s, e, 0);
    GoodKeeps(s, 0);
    MentionsRest(s.batch, 0);
    if !Breaks(s, e) { AllKept(Next(s, e)); }
  }

  lemma WaitKeeps(s: State, events: seq<Event>)
    requires Good(s) && Enabled(s, Wait(events))
    ensures Good(Next(s, Wait(events)))
  {
    var n := Next(s, Wait(events));
    hide T.Timers.Valid, T.Timers.Live;
    forall f: nat ensures Owned(n, f) && TimerAgrees(n, f) {
      assert Owned(s, f) && TimerAgrees(s, f);
      assert Mentions(events, f) ==> f in s.table.armed;
    }
  }

  lemma MessageKeepsAt(s: State, now: int, f: nat)
    requires Good(s) && Enabled(s, Message(now))
    ensures Kept(Next(s, Message(now)), f)
  {
    var n, m := Next(s, Message(now)), s.mail.q[0];
    MsgSeen(s, now, f);
    GoodKeeps(s, f);
    assert Letters(s.mail)[1..] == Letters(n.mail) && Letters(s.mail)[0] == m;
    hide Next, Good, T.Timers.Valid, T.Timers.Live, Mentions, Count;
  }

  lemma MessageKeeps(s: State, now: int)
    requires Good(s) && Enabled(s, Message(now))
    ensures Good(Next(s, Message(now)))
  {
    hide Next, Kept, T.Timers.Valid;
    forall f: nat ensures Kept(Next(s, Message(now)), f) { MessageKeepsAt(s, now, f); }
    MsgSeen(s, now, 0);
    GoodKeeps(s, 0);
    AllKept(Next(s, Message(now)));
  }

  /** What a message makes of its descriptor. */
  function MsgView(v: View, m: Msg): View {
    if m.NewConn? then (if m.fd >= MAX_FD then v.(live := false)
      else v.(isOpen := true, armed := true, timed := true, phase := Reading, out := false))
    else if !v.isOpen then v
    else if m.ready then v.(armed := true, timed := true, out := true)
    else GONE
  }

  lemma HandleMsgTouches(t: Table, m: Msg, now: int)
    requires t.timers.Valid() && |t.timers.seqs| == MAX_FD
    requires m.fd in t.conns ==> m.fd < MAX_FD && m.fd in t.live
    ensures Touches(t, HandleMsg(t, m, now), m.fd, MsgView(Seen(t, m.fd), m)) && HandleMsg(t, m, now).pool == t.pool
  {
    hide T.Timers.Valid, T.Timers.Live, Closed, Timed;
    match m
    case NewConn(fd) =>
      if fd < MAX_FD {
        var u := t.(conns := t.conns[fd := Reading], armed := t.armed[fd := Arming(false, true)]);
        TimedTouches(u, fd, now);
        TouchesTwice(t, u, Timed(u, fd, now), fd, Seen(u, fd), Seen(u, fd).(timed := true));
      }
    case BusDone(fd, ready) =>
      if fd in t.conns {
        if ready {
          RearmedTouches(t, fd, true);
          TimedTouches(Rearmed(t, fd, true), fd, now);
        } else {
          ClosedTouches(t, fd);
        }
      }
  }

  /** What a tick comes to for one descriptor. */
  lemma TimeoutSeen(s: State, e: Step, f: nat)
    requires s.table.timers.Valid() && Enabled(s, e) && e.Timeout?
    ensures var n, v := Next(s, e), Seen(s.table, f);
      && n.mail == s.mail && n.batch == s.batch[1..] && Tasks(n) == Tasks(s)
      && Seen(n.table, f) == (if f in e.fired then GONE.(live := v.live && !v.isOpen) else v)
      && (f in e.fired ==> v.timed)
  {
    T.TickKeepsValid(s.table.timers, e.now, e.after);
    FiresIsLive(s.table.timers, e.now, f);
    hide T.Timers.Valid, T.Timers.Live, T.Fires, T.Ticked;
  }

  lemma TimeoutKeepsAt(s: State, e: Step, f: nat)
    requires Good(s) && Enabled(s, e) && e.Timeout?
    ensures Kept(Next(s, e), f)
    ensures f in e.fired ==> f in s.table.conns && OnIoSide(s, f) && Count(Tasks(s), f) == 0
  {
    GoodKeeps(s, f);
    TimeoutSeen(s, e, f);
    MentionsRest(s.batch, f);
    hide Good, Next, T.Timers.Valid, T.Timers.Live, T.Fires, T.Ticked, Mentions, Count, News, Dones;
  }

  /** A tick closes only connections on the I/O side. */
  lemma TimeoutKeeps(s: State, e: Step)
    requires Good(s) && Enabled(s, e) && e.Timeout?
    ensures Good(Next(s, e))
    ensures forall fd :: fd in e.fired ==> fd in s.table.conns && OnIoSide(s, fd) && Count(Tasks(s), fd) == 0
  {
    GoodKeeps(s, 0);
    T.TickKeepsValid(s.table.timers, e.now, e.after);
    MentionsRest(s.batch, 0);
    assert |e.after.seqs| == MAX_FD && Next(s, e).table.timers == e.after && Next(s, e).batch == s.batch[1..];
    hide Next, Kept, T.Timers.Valid, T.Fires, T.Ticked, Good, OnIoSide;
    forall f: nat ensures Kept(Next(s, e), f)
      ensures f in e.fired ==> f in s.table.conns && OnIoSide(s, f) && Count(Tasks(s), f) == 0 {
      TimeoutKeepsAt(s, e, f);
    }
    AllKept(Next(s, e));
  }

  lemma FiresIsLive(t: T.Timers, now: int, fd: int)
    requires t.Valid()
    ensures T.Fires(t, now, fd) ==> t.Live(fd)
  {
  }

  lemma PoolTakeKeeps(s: State)
    requires Good(s) && Enabled(s, PoolTake)
    ensures Good(Next(s, PoolTake))
  {
    var n := Next(s, PoolTake);
    hide T.Timers.Valid, T.Timers.Live, Mentions;
    assert Tasks(n) == Tasks(s);
    forall f: nat ensures Owned(n, f) && TimerAgrees(n, f) {
      assert Owned(s, f) && TimerAgrees(s, f);
    }
  }

  lemma WithoutTask(working: seq<nat>, pool: seq<nat>, i: nat)
    requires i < |working|
    ensures (working[..i] + working[i + 1..]) + pool == (working + pool)[..i] + (working + pool)[i + 1..]
    ensures (working + pool)[i] == working[i]
  {
  }

  lemma BusinessDoneKeepsAt(s: State, i: nat, ready: bool, f: nat)
    requires Good(s) && Enabled(s, BusinessDone(i, ready))
    ensures Kept(Next(s, BusinessDone(i, ready)), f)
  {
    var n, fd := Next(s, BusinessDone(i, ready)), s.working[i];
    GoodKeeps(s, f);
    GoodKeeps(s, fd);
    assert Letters(n.mail) == Letters(s.mail) + [BusDone(fd, ready)];
    LettersSnoc(Letters(s.mail), BusDone(fd, ready), f);
    WithoutTask(s.working, s.table.pool, i);
    CountRemove(Tasks(s), i, f);
    CountRemove(Tasks(s), i, fd);
    hide Good, T.Timers.Valid, T.Timers.Live, Mentions, Count, News, Dones;
    assert Tasks(n) == Tasks(s)[..i] + Tasks(s)[i + 1..];
  }

  lemma BusinessDoneKeeps(s: State, i: nat, ready: bool)
    requires Good(s) && Enabled(s, BusinessDone(i, ready))
    ensures Good(Next(s, BusinessDone(i, ready)))
  {
    hide Kept, T.Timers.Valid;
    forall f: nat ensures Kept(Next(s, BusinessDone(i, ready)), f) { BusinessDoneKeepsAt(s, i, ready, f); }
    AllKept(Next(s, BusinessDone(i, ready)));
  }

  lemma OthersKeep(s: State, e: Step)
    requires Good(s) && Enabled(s, e) && (e.Accept? || e.Wake? || e.Drain? || e.Swap?)
    requires Delivering(s.mail, s.batch)
    ensures !Breaks(s, e) ==> Good(Next(s, e))
    ensures Breaks(s, e) ==> e.Accept? && !Owned(Next(s, e), e.fd)
  {
    var n := Next(s, e);
    hide T.Timers.Valid, T.Timers.Live, Mentions;
    if e.Accept? {
      var m := NewConn(e.fd);
      assert Letters(n.mail) == Letters(s.mail) + [m];
      assert Owned(s, e.fd);
      LettersSnoc(Letters(s.mail), m, e.fd);
    } else {
      assert Letters(n.mail) == Letters(s.mail);
    }
    if !Breaks(s, e) {
      forall f: nat ensures Owned(n, f) && TimerAgrees(n, f) {
        assert Owned(s, f) && TimerAgrees(s, f);
        if e.Accept? { LettersSnoc(Letters(s.mail), NewConn(e.fd), f); }
        if e.Drain? { MentionsRest(s.batch, f); }
      }
      if e.Drain? { MentionsRest(s.batch, 0); }
    }
  }

  /** Ownership survives a step exactly when the step is none of those. */
  lemma StepKeepsOwnershipIff(s: State, e: Step)
    requires Good(s) && Delivering(s.mail, s.batch) && Enabled(s, e)
    ensures SingleOwnership(Next(s, e)) <==> !Breaks(s, e)
    ensures !Breaks(s, e) ==> Good(Next(s, e))
  {
    hide Next, Enabled, Owned, TimersAgree, BatchSound, Delivering;
    match e
    case Io(_, _, _) => IoKeeps(s, e);
    case Wait(events) => WaitKeeps(s, events);
    case Message(now) => MessageKeeps(s, now);
    case Timeout(_, _, _) => TimeoutKeeps(s, e);
    case PoolTake => PoolTakeKeeps(s);
    case BusinessDone(i, ready) => BusinessDoneKeeps(s, i, ready);
    case _ => OthersKeep(s, e);
  }
}
