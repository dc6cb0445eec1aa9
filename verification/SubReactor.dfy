/** One sub-reactor with the kernel, the acceptor and the worker threads around it, as a step machine. The kernel holds
    the epoll arming of each descriptor; the I/O thread works through a batch of events; the pool runs business tasks;
    other threads push messages and then write to the eventfd. */
module SubReactor {
  import T = TimerHeap

  const MAX_FD := 65536
  const TIMEOUT_SEC := 15

  /** What an open slot's http_conn is ready for: more bytes, its business task, sending its response. */
  datatype Phase = Reading | Parsed | Responding

  datatype Msg = NewConn(fd: nat) | BusDone(fd: nat, ready: bool)

  /** What epoll waits for on a descriptor, and whether reporting it once disables it. */
  datatype Arming = Arming(out: bool, oneShot: bool)

  /** `broken` is EPOLLHUP or EPOLLERR; an event with no flag of the three carries EPOLLRDHUP alone. */
  datatype Event = EventFd | TimerFd | Client(fd: nat, readable: bool, writable: bool, broken: bool)

  /** How deal_read and deal_write find the connection to be. */
  datatype ReadOutcome = ReadFailed | Incomplete | Complete
  datatype WriteOutcome = SendFailed | Blocked | SentClose | SentWait | SentNext

  /** The descriptors accepted and not closed, the open slots of m_users, what epoll is armed for, the timers, and the
      queue of tasks. `oneShot` says whether modfd arms one-shot. */
  datatype Table = Table(oneShot: bool, live: set<nat>, conns: map<nat, Phase>, armed: map<nat, Arming>,
                         timers: T.Timers, pool: seq<nat>)

  /** m_msgs and the queue swapped out of it; `swapping` is between drain_eventfd and swap_msgs, `wakers` counts the
      producers between push and wakeup, `count` is the eventfd's counter, `edge` says it was written since epoll last
      reported it. `pushed` and `handled` are history. */
  datatype Mail = Mail(msgs: seq<Msg>, q: seq<Msg>, swapping: bool, wakers: nat, count: nat, edge: bool,
                       pushed: seq<Msg>, handled: seq<Msg>)

  /** `batch` is what epoll has reported and the loop not yet handled; `working` are the descriptors whose
      business is running. */
  datatype State = State(table: Table, mail: Mail, batch: seq<Event>, working: seq<nat>)

  datatype Step =
    | Accept(fd: nat) | Wake | Wait(events: seq<Event>)
    | Drain | Swap | Message(now: int)
    | Timeout(now: int, fired: set<nat>, after: T.Timers)
    | Io(r: ReadOutcome, w: WriteOutcome, now: int)
    | PoolTake | BusinessDone(i: nat, ready: bool)

  // ---------- the handlers ----------

  predicate Mentions(batch: seq<Event>, fd: nat) {
    exists i :: 0 <= i < |batch| && batch[i].Client? && batch[i].fd == fd
  }

  function Closed(t: Table, fd: nat): Table {
    t.(armed := t.armed - {fd}, conns := t.conns - {fd}, live := if fd in t.conns then t.live - {fd} else t.live,
       timers := T.Invalidated(t.timers, fd))
  }

  /** modfd */
  function Rearmed(t: Table, fd: nat, out: bool): Table { t.(armed := t.armed[fd := Arming(out, t.oneShot)]) }

  function Timed(t: Table, fd: nat, now: int): Table { t.(timers := T.Added(t.timers, fd, TIMEOUT_SEC, now)) }

  /** The timer is switched off before its task is queued. */
  function Submitted(t: Table, fd: nat): Table {
    t.(timers := T.Invalidated(t.timers, fd), conns := t.conns[fd := Parsed], pool := t.pool + [fd])
  }

  function DealRead(t: Table, fd: nat, r: ReadOutcome, now: int): Table {
    match r
    case ReadFailed => Closed(t, fd)
    case Incomplete => Rearmed(Timed(t, fd, now), fd, false)
    case Complete => Submitted(Timed(t, fd, now), fd)
  }

  function DealWrite(t: Table, fd: nat, w: WriteOutcome, now: int): Table { Written(Timed(t, fd, now), fd, w) }

  function Written(t: Table, fd: nat, w: WriteOutcome): Table {
    match w
    case SendFailed => Closed(t, fd)
    case Blocked => Rearmed(t, fd, true)
    case SentClose => Closed(t, fd)
    case SentWait => Rearmed(t.(conns := t.conns[fd := Reading]), fd, false)
    case SentNext => Submitted(t, fd)
  }

  /** The three tests on one client event, in the loop's order. */
  function ClientEvent(t: Table, ev: Event, r: ReadOutcome, w: WriteOutcome, now: int): Table
    requires ev.Client?
  {
    var t1 := if ev.readable then DealRead(t, ev.fd, r, now) else t;
    var t2 := if ev.fd in t1.conns && ev.writable then DealWrite(t1, ev.fd, w, now) else t1;
    if ev.fd in t2.conns && ev.broken then Closed(t2, ev.fd) else t2
  }

  function HandleMsg(t: Table, m: Msg, now: int): Table {
    match m
    case NewConn(fd) =>
      if fd >= MAX_FD then t.(live := t.live - {fd})
      else Timed(t.(conns := t.conns[fd := Reading], armed := t.armed[fd := Arming(false, true)]), fd, now)
    case BusDone(fd, ready) =>
      if fd !in t.conns then t
      else if ready then Timed(Rearmed(t, fd, true), fd, now)
      else Closed(t, fd)
  }

  /** What the timer tick leaves: its callbacks close what has fired. */
  function TimedOut(t: Table, fired: set<nat>, after: T.Timers): Table {
    t.(timers := after, armed := t.armed - fired, conns := t.conns - fired, live := t.live - (fired * t.conns.Keys))
  }

  /** What reporting events does to the arming. */
  function Reported(t: Table, events: seq<Event>): Table {
    t.(armed := map fd | fd in t.armed && !(t.armed[fd].oneShot && Mentions(events, fd)) :: t.armed[fd])
  }

  // ---------- the mail ----------

  /** A producer has pushed and has still to write to the eventfd. */
  function Posted(m: Mail, msg: Msg): Mail {
    m.(msgs := m.msgs + [msg], pushed := m.pushed + [msg], wakers := m.wakers + 1)
  }

  function Taken(m: Mail): Mail
    requires m.q != []
  {
    m.(q := m.q[1..], handled := m.handled + [m.q[0]])
  }

  predicate Idle(m: Mail) { !m.swapping && m.q == [] }

  // ---------- the steps ----------

  /** What epoll_wait may report: each descriptor once, by what it is armed for. */
  predicate Reportable(s: State, events: seq<Event>) {
    && (forall i, j :: 0 <= i < j < |events| ==>
          events[i] != events[j] && (events[i].Client? && events[j].Client? ==> events[i].fd != events[j].fd))
    && (forall i :: 0 <= i < |events| ==>
          match events[i]
          case EventFd => s.mail.edge && s.mail.count > 0
          case TimerFd => true
          case Client(fd, readable, writable, _) =>
            fd in s.table.armed && (readable ==> !s.table.armed[fd].out) && (writable ==> s.table.armed[fd].out))
  }

  /** The I/O thread is at the next event of its batch. */
  predicate At(s: State) { Idle(s.mail) && s.batch != [] }

  ghost predicate Enabled(s: State, e: Step) {
    match e
    case Accept(fd) => fd !in s.table.live
    case Wake => s.mail.wakers > 0
    case Wait(events) => Idle(s.mail) && s.batch == [] && events != [] && Reportable(s, events)
    case Drain => At(s) && s.batch[0] == EventFd
    case Swap => s.mail.swapping
    case Message(_) => s.mail.q != []
    case Timeout(now, fired, after) =>
      && At(s) && s.batch[0] == TimerFd
      && T.Ticked(s.table.timers, now, after)
      && (forall fd: nat :: fd in fired <==> T.Fires(s.table.timers, now, fd))
    case Io(r, _, _) =>
      && At(s) && s.batch[0].Client?
      && (s.batch[0].fd !in s.table.conns ==> r == ReadFailed)  // recv on a closed slot
    case PoolTake => s.table.pool != []
    case BusinessDone(i, ready) => i < |s.working| && (ready ==> s.working[i] in s.table.conns)
  }

  function Next(s: State, e: Step): State
    requires Enabled(s, e)
  {
    match e
    case Accept(fd) => s.(table := s.table.(live := s.table.live + {fd}), mail := Posted(s.mail, NewConn(fd)))
    case Wake => s.(mail := s.mail.(wakers := s.mail.wakers - 1, count := s.mail.count + 1, edge := true))
    case Wait(events) =>
      s.(batch := events, table := Reported(s.table, events),
         mail := s.mail.(edge := s.mail.edge && EventFd !in events))
    case Drain => s.(batch := s.batch[1..], mail := s.mail.(count := 0, swapping := true))
    case Swap => s.(mail := s.mail.(swapping := false, q := s.mail.msgs, msgs := []))
    case Message(now) => s.(table := HandleMsg(s.table, s.mail.q[0], now), mail := Taken(s.mail))
    case Timeout(_, fired, after) => s.(batch := s.batch[1..], table := TimedOut(s.table, fired, after))
    case Io(r, w, now) => s.(batch := s.batch[1..], table := ClientEvent(s.table, s.batch[0], r, w, now))
    case PoolTake =>
      s.(table := s.table.(pool := s.table.pool[1..]), working := s.working + [s.table.pool[0]])
    case BusinessDone(i, ready) =>
      var fd := s.working[i];
      s.(working := s.working[..i] + s.working[i + 1..], mail := Posted(s.mail, BusDone(fd, ready)),
         table := if ready then s.table.(conns := s.table.conns[fd := Responding]) else s.table)
  }

  ghost predicate Init(s: State) {
    && s.table == Table(s.table.oneShot, {}, map[], map[], T.Timers(multiset{}, seq(MAX_FD, _ => 0), map[]), [])
    && s.mail == Mail([], [], false, 0, 0, false, [], [])
    && s.batch == [] && s.working == []
  }

  ghost predicate IsRun(ss: seq<State>, es: seq<Step>) {
    && |ss| == |es| + 1 && Init(ss[0])
    && forall k :: 0 <= k < |es| ==> Enabled(ss[k], es[k]) && ss[k + 1] == Next(ss[k], es[k])
  }

  // ---------- delivery ----------

  /** Each message is handled once, in the order of the pushes; and a message waiting has someone to fetch it: a
      producer about to write, an edge to be reported, its event in the batch, or the I/O thread about to swap. */
  predicate Delivering(m: Mail, batch: seq<Event>) {
    && m.handled + m.q + m.msgs == m.pushed
    && (m.msgs != [] ==> m.wakers > 0 || (m.edge && m.count > 0) || EventFd in batch || m.swapping)
    && (m.swapping ==> m.q == [])
  }

  lemma PostedKeeps(m: Mail, batch: seq<Event>, msg: Msg)
    requires Delivering(m, batch)
    ensures Delivering(Posted(m, msg), batch)
  {
    assert m.handled + m.q + (m.msgs + [msg]) == m.handled + m.q + m.msgs + [msg];
  }

  lemma TakenKeeps(m: Mail, batch: seq<Event>)
    requires Delivering(m, batch) && m.q != []
    ensures Delivering(Taken(m), batch)
  {
    assert m.handled + [m.q[0]] + m.q[1..] + m.msgs == m.handled + m.q + m.msgs;
  }

  lemma BatchTail(batch: seq<Event>)
    requires batch != [] && batch[0] != EventFd
    ensures EventFd in batch[1..] <==> EventFd in batch
  {
    assert batch == [batch[0]] + batch[1..];
  }

  lemma StepKeepsDelivering(s: State, e: Step)
    requires Delivering(s.mail, s.batch) && Enabled(s, e)
    ensures Delivering(Next(s, e).mail, Next(s, e).batch)
  {
    hide ClientEvent, HandleMsg, TimedOut, Reported, Reportable;
    match e
    case Accept(fd) => PostedKeeps(s.mail, s.batch, NewConn(fd));
    case BusinessDone(i, ready) => PostedKeeps(s.mail, s.batch, BusDone(s.working[i], ready));
    case Message(_) => TakenKeeps(s.mail, s.batch);
    case Swap => assert s.mail.handled + [] + s.mail.msgs == s.mail.handled + s.mail.msgs + [];
    case Io(_, _, _) => BatchTail(s.batch);
    case Timeout(_, _, _) => BatchTail(s.batch);
    case _ =>
  }

  lemma {:induction false} DeliveringHolds(ss: seq<State>, es: seq<Step>, k: nat)
    requires IsRun(ss, es) && k <= |es|
    ensures Delivering(ss[k].mail, ss[k].batch)
    decreases k
  {
    hide Enabled, Next;
    if k > 0 {
      hide Delivering;
      DeliveringHolds(ss, es, k - 1);
      StepKeepsDelivering(ss[k - 1], es[k - 1]);
    }
  }

  /** However the threads interleave, and whatever is armed: messages are handled exactly once, in push order, and no
      message is left behind with nobody to wake the loop. */
  lemma MailIsDelivered(ss: seq<State>, es: seq<Step>, k: nat)
    requires IsRun(ss, es) && k <= |es|
    ensures ss[k].mail.handled + ss[k].mail.q + ss[k].mail.msgs == ss[k].mail.pushed
    ensures ss[k].mail.msgs != [] && Idle(ss[k].mail) && ss[k].batch == [] && ss[k].mail.wakers == 0 ==>
      Enabled(ss[k], Wait([EventFd]))
  {
    DeliveringHolds(ss, es, k);
  }
}
