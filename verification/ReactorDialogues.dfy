/** The whole reactor: the step machine with one dialogue for each open descriptor. Bytes and the kernel's answers
    dictate the outcomes its handlers meet, as SubReactorHandlers proves of the objects; and while ownership is
    unbroken, each descriptor's dialogue is a run of HttpDialogue. */
module ReactorDialogues {
  import opened SubReactor
  import opened SubReactorOwnership
  import opened SubReactorRuns
  import D = HttpDialogue
  import H = SubReactorHandlers
  import P = HttpParser
  import R = HttpResponse
  import S = HttpSend
  import B = HttpStreams
  import T = TimerHeap

  datatype Reactor = Reactor(s: State, talks: map<nat, D.Dialogue>)

  /** A step; an event for a client comes with the bytes read, and with the kernel's answers to write. */
  datatype Move = Move(e: Step, bytes: seq<char>, script: seq<S.Kernel>)

  /** What the files are and hold. */
  datatype World = World(site: R.Site, disk: D.Disk)

  const BEGINNING := D.Dialogue(D.Reading, P.Parser([], 0, 0, P.RequestLine, "", "", "", false, 0),
                                R.Response(P.NoRequest, "", "", false, -1, 0, false), 0, [], [], [])

  // ---------- outcomes and dialogues ----------

  /** The outcomes are those the bytes and the kernel dictate; reading may always fail. */
  predicate Dictated(world: World, d: D.Dialogue, ev: Event, r: ReadOutcome, w: WriteOutcome, bytes: seq<char>,
                     script: seq<S.Kernel>)
    requires ev.Client?
  {
    && (ev.readable && r != ReadFailed ==>
          d.p.Wf() && |d.p.buf| + |bytes| <= P.READ_BUFFER_SIZE && r == H.AfterRead((true, P.Feed(d.p, bytes))))
    && (ev.writable && d.phase == D.Responding && D.Sound(world.disk, d) ==>
          w == H.AfterWrite(H.Written(world.disk, d, script).0, d.p.(linger := d.w.linger)))
  }

  /** Where an event leaves the dialogue of its descriptor; None once it is closed. */
  function EventTalk(world: World, d: D.Dialogue, ev: Event, r: ReadOutcome, bytes: seq<char>, script: seq<S.Kernel>):
    P.Option<D.Dialogue>
    requires ev.Client?
  {
    if ev.broken then P.None
    else if ev.readable then
      if r == ReadFailed || !d.p.Wf() then P.None else P.Some(D.Prepared(world.site, D.Fed(d, bytes)))
    else if ev.writable && d.phase == D.Responding && D.Sound(world.disk, d) then
      var n := D.Sent(world.site, world.disk, d, script);
      if n.phase in {D.Finished, D.Aborted} then P.None else P.Some(n)
    else P.Some(d)
  }

  ghost predicate Possible(world: World, x: Reactor, m: Move) {
    Enabled(x.s, m.e) &&
    (m.e.Io? && x.s.batch[0].fd in x.talks ==>
       Dictated(world, x.talks[x.s.batch[0].fd], x.s.batch[0], m.e.r, m.e.w, m.bytes, m.script))
  }

  /** What a step does to the dialogues. */
  function Talks(world: World, x: Reactor, m: Move): map<nat, D.Dialogue>
    requires Possible(world, x, m)
  {
    match m.e
    case Message(_) =>
      var msg := x.s.mail.q[0];
      if msg.NewConn? then (if msg.fd < MAX_FD then x.talks[msg.fd := BEGINNING] else x.talks)
      else if msg.ready then x.talks
      else x.talks - {msg.fd}
    case Timeout(_, fired, _) => x.talks - fired
    case Io(r, _, _) =>
      var ev := x.s.batch[0];
      if ev.fd !in x.talks then x.talks
      else
        (match EventTalk(world, x.talks[ev.fd], ev, r, m.bytes, m.script)
         case None => x.talks - {ev.fd}
         case Some(d) => x.talks[ev.fd := d])
    case BusinessDone(i, ready) =>
      var fd := x.s.working[i];
      if ready && fd in x.talks then x.talks[fd := x.talks[fd].(phase := D.Responding, off := 0)] else x.talks
    case _ => x.talks
  }

  ghost predicate IsReactorRun(world: World, xs: seq<Reactor>, ms: seq<Move>) {
    && |xs| == |ms| + 1 && Init(xs[0].s) && xs[0].talks == map[]
    && forall k :: 0 <= k < |ms| ==>
         Possible(world, xs[k], ms[k])
         && xs[k + 1] == Reactor(Next(xs[k].s, ms[k].e), Talks(world, xs[k], ms[k]))
  }

  // ---------- dialogues that can come about ----------

  ghost predicate EndsAt(world: World, ds: seq<D.Dialogue>, es: seq<D.Step>, d: D.Dialogue) {
    D.IsRun(world.site, world.disk, ds, es) && ds[|es|] == d
  }

  ghost predicate Reachable(world: World, d: D.Dialogue) { exists ds, es :: EndsAt(world, ds, es, d) }

  lemma BeginningIsReachable(world: World)
    ensures Reachable(world, BEGINNING)
  {
    assert EndsAt(world, [BEGINNING], [], BEGINNING);
  }

  lemma StepIsReachable(world: World, d: D.Dialogue, e: D.Step)
    requires Reachable(world, d) && D.Sound(world.disk, d) && D.Enabled(d, e)
    ensures Reachable(world, D.Next(world.site, world.disk, d, e))
  {
    hide D.Sound, D.Enabled, D.Next, D.Init;
    var ds, es :| EndsAt(world, ds, es, d);
    var n := D.Next(world.site, world.disk, d, e);
    var ts, fs := ds + [n], es + [e];
    forall k | 0 <= k < |fs|
      ensures D.Sound(world.disk, ts[k]) && D.Enabled(ts[k], fs[k])
              && ts[k + 1] == D.Next(world.site, world.disk, ts[k], fs[k]) {
      if k < |es| {
        assert ts[k] == ds[k] && ts[k + 1] == ds[k + 1] && fs[k] == es[k];
      }
    }
    assert EndsAt(world, ts, fs, n);
  }

  // ---------- the link ----------

  function PhaseOf(d: D.Dialogue): P.Option<Phase> {
    match d.phase
    case Reading => P.Some(Reading)
    case Parsed => P.Some(Parsed)
    case Responding => P.Some(Responding)
    case _ => P.None
  }

  /** The dialogue of a descriptor and what the table says of it. */
  ghost predicate Linked(world: World, v: View, talk: P.Option<D.Dialogue>) {
    match talk
    case None => !v.isOpen
    case Some(d) =>
      v.isOpen && PhaseOf(d) == P.Some(v.phase) && D.Sound(world.disk, d) && Reachable(world, d)
  }

  function TalkOf(x: Reactor, fd: nat): P.Option<D.Dialogue> {
    if fd in x.talks then P.Some(x.talks[fd]) else P.None
  }

  ghost predicate AllLinked(world: World, x: Reactor) {
    forall fd: nat :: Linked(world, Seen(x.s.table, fd), TalkOf(x, fd))
  }

  /** An arrival: the dialogue reads, and its phase is the handler's outcome. */
  lemma ReadLinks(world: World, d: D.Dialogue, bytes: seq<char>)
    requires d.phase == D.Reading && D.Sound(world.disk, d) && Reachable(world, d)
    requires |d.p.buf| + |bytes| <= P.READ_BUFFER_SIZE
    ensures var n := D.Prepared(world.site, D.Fed(d, bytes));
      && D.Sound(world.disk, n) && Reachable(world, n)
      && PhaseOf(n) == P.Some(if H.AfterRead((true, P.Feed(d.p, bytes))) == Complete then Parsed else Reading)
  {
    StepIsReachable(world, d, D.Read(bytes));
    hide P.ProcessRead, R.Answer, Reachable;
  }

  /** A writable socket: the dialogue sends, and its phase is the handler's outcome. */
  lemma WriteLinks(world: World, d: D.Dialogue, script: seq<S.Kernel>)
    requires d.phase == D.Responding && D.Sound(world.disk, d) && Reachable(world, d)
    ensures var n := D.Sent(world.site, world.disk, d, script);
      var w := H.AfterWrite(H.Written(world.disk, d, script).0, d.p.(linger := d.w.linger));
      && D.Sound(world.disk, n) && Reachable(world, n)
      && PhaseOf(n) == match w
           case SendFailed | SentClose => P.None
           case Blocked => P.Some(Responding)
           case SentWait => P.Some(Reading)
           case SentNext => P.Some(Parsed)
  {
    StepIsReachable(world, d, D.Writable(script));
    hide P.ProcessRead, R.Answer, Reachable, S.Write, D.Message;
    assert P.Reset(d.p.(linger := d.w.linger)) == P.Reset(d.p);
  }

  /** An event that suits the phase keeps the link, unless it breaks ownership. */
  lemma EventLinks(world: World, v: View, d: D.Dialogue, ev: Event, r: ReadOutcome, w: WriteOutcome, bytes: seq<char>,
                   script: seq<S.Kernel>)
    requires ev.Client? && !(ev.readable && ev.writable) && Linked(world, v, P.Some(d))
    requires (ev.readable ==> v.phase == Reading) && (ev.writable ==> v.phase == Responding)
    requires Dictated(world, d, ev, r, w, bytes, script) && !(Submits(ev, r, w) && ev.broken)
    ensures Linked(world, EventView(v, ev, r, w), EventTalk(world, d, ev, r, bytes, script))
  {
    hide Reachable, D.Prepared, D.Sent, H.Written, H.AfterRead, H.AfterWrite;
    if ev.readable && r != ReadFailed { ReadLinks(world, d, bytes); }
    if ev.writable { WriteLinks(world, d, script); }
  }

  lemma IoLinks(world: World, x: Reactor, m: Move, fd: nat)
    requires Good(x.s) && PhasesAgree(x.s) && AllLinked(world, x) && Possible(world, x, m) && m.e.Io?
    requires !Breaks(x.s, m.e)
    ensures Linked(world, Seen(Next(x.s, m.e).table, fd), TalkOf(Reactor(x.s, Talks(world, x, m)), fd))
  {
    var ev := x.s.batch[0];
    assert PhaseAgrees(x.s, ev.fd) && Linked(world, Seen(x.s.table, fd), TalkOf(x, fd));
    IoSeen(x.s, m.e, fd);
    hide Next, Good, Owned, Mentions, Reachable, D.Sound, Dictated, EventView, EventTalk;
    if fd == ev.fd {
      if fd in x.talks {
        EventLinks(world, Seen(x.s.table, fd), x.talks[fd], ev, m.e.r, m.e.w, m.bytes, m.script);
      } else {
        ClosedEvent(Seen(x.s.table, fd), ev, m.e.r, m.e.w);
      }
    }
  }

  lemma ClosedEvent(v: View, ev: Event, r: ReadOutcome, w: WriteOutcome)
    requires ev.Client? && !v.isOpen
    ensures !EventView(v, ev, r, w).isOpen
  {
  }

  /** Where a message leaves the dialogue of its descriptor. */
  function MsgTalk(talk: P.Option<D.Dialogue>, msg: Msg): P.Option<D.Dialogue> {
    if msg.NewConn? then (if msg.fd < MAX_FD then P.Some(BEGINNING) else talk) else if msg.ready then talk else P.None
  }

  lemma MessageTalks(world: World, x: Reactor, m: Move, fd: nat)
    requires Possible(world, x, m) && m.e.Message?
    ensures TalkOf(Reactor(x.s, Talks(world, x, m)), fd) ==
      if fd == x.s.mail.q[0].fd then MsgTalk(TalkOf(x, fd), x.s.mail.q[0]) else TalkOf(x, fd)
  {
  }

  lemma MsgViewLinks(world: World, v: View, talk: P.Option<D.Dialogue>, msg: Msg)
    requires Linked(world, v, talk) && (msg.NewConn? ==> !v.isOpen)
    ensures Linked(world, MsgView(v, msg), MsgTalk(talk, msg))
  {
    BeginningIsReachable(world);
    hide Reachable;
  }

  lemma MessageLinks(world: World, x: Reactor, m: Move, fd: nat)
    requires Good(x.s) && AllLinked(world, x) && Possible(world, x, m) && m.e.Message?
    ensures Linked(world, Seen(Next(x.s, m.e).table, fd), TalkOf(Reactor(x.s, Talks(world, x, m)), fd))
  {
    var msg := x.s.mail.q[0];
    assert Linked(world, Seen(x.s.table, fd), TalkOf(x, fd));
    MsgSeen(x.s, m.e.now, fd);
    MessageTalks(world, x, m, fd);
    GoodKeeps(x.s, msg.fd);
    assert msg.NewConn? ==> msg.fd !in x.s.table.conns by { assert Letters(x.s.mail)[0] == msg; }
    hide Next, Talks, Good, Linked, MsgView, MsgTalk, Owned;
    if fd == msg.fd { MsgViewLinks(world, Seen(x.s.table, fd), TalkOf(x, fd), msg); }
  }

  lemma BusinessLinks(world: World, x: Reactor, m: Move, fd: nat)
    requires Good(x.s) && PhasesAgree(x.s) && AllLinked(world, x) && Possible(world, x, m) && m.e.BusinessDone?
    ensures Linked(world, Seen(Next(x.s, m.e).table, fd), TalkOf(Reactor(x.s, Talks(world, x, m)), fd))
  {
    var i, f := m.e.i, x.s.working[m.e.i];
    assert Linked(world, Seen(x.s.table, fd), TalkOf(x, fd)) && PhaseAgrees(x.s, f);
    CountedIn(Tasks(x.s), f);
    assert Tasks(x.s)[i] == f;
    hide Good, Owned, Mentions, T.Timers.Live;
    if fd == f && m.e.ready && fd in x.talks {
      StepIsReachable(world, x.talks[fd], D.Business);
    }
  }

  lemma TimeoutLinks(world: World, x: Reactor, m: Move, fd: nat)
    requires Good(x.s) && AllLinked(world, x) && Possible(world, x, m) && m.e.Timeout?
    ensures Linked(world, Seen(Next(x.s, m.e).table, fd), TalkOf(Reactor(x.s, Talks(world, x, m)), fd))
  {
    assert Linked(world, Seen(x.s.table, fd), TalkOf(x, fd));
    hide Good, Reachable, D.Sound, T.Timers.Live, T.Fires, T.Ticked;
  }

  lemma StepKeepsLinks(world: World, x: Reactor, m: Move)
    requires Good(x.s) && PhasesAgree(x.s) && AllLinked(world, x) && Possible(world, x, m) && !Breaks(x.s, m.e)
    ensures AllLinked(world, Reactor(Next(x.s, m.e), Talks(world, x, m)))
  {
    hide Good, PhasesAgree, Linked, Breaks;
    forall fd: nat ensures Linked(world, Seen(Next(x.s, m.e).table, fd), TalkOf(Reactor(x.s, Talks(world, x, m)), fd)) {
      if m.e.Io? { IoLinks(world, x, m, fd); }
      else if m.e.Message? { MessageLinks(world, x, m, fd); }
      else if m.e.BusinessDone? { BusinessLinks(world, x, m, fd); }
      else if m.e.Timeout? { TimeoutLinks(world, x, m, fd); }
      else {
        assert Linked(world, Seen(x.s.table, fd), TalkOf(x, fd));
        assert Next(x.s, m.e).table.conns == x.s.table.conns;
        LinkIgnoresArming(world, Seen(x.s.table, fd), Seen(Next(x.s, m.e).table, fd), TalkOf(x, fd));
      }
    }
  }

  lemma LinkIgnoresArming(world: World, v: View, u: View, talk: P.Option<D.Dialogue>)
    requires Linked(world, v, talk) && u.isOpen == v.isOpen && u.phase == v.phase
    ensures Linked(world, u, talk)
  {
  }

  // ---------- runs ----------

  function States(xs: seq<Reactor>): (ss: seq<State>)
    ensures |ss| == |xs| && forall k :: 0 <= k < |xs| ==> ss[k] == xs[k].s
  {
    seq(|xs|, k requires 0 <= k < |xs| => xs[k].s)
  }

  function Steps(ms: seq<Move>): (es: seq<Step>)
    ensures |es| == |ms| && forall k :: 0 <= k < |ms| ==> es[k] == ms[k].e
  {
    seq(|ms|, k requires 0 <= k < |ms| => ms[k].e)
  }

  lemma ReactorRunIsRun(world: World, xs: seq<Reactor>, ms: seq<Move>)
    requires IsReactorRun(world, xs, ms)
    ensures IsRun(States(xs), Steps(ms))
  {
    hide Enabled, Next, Init, Talks, Dictated;
    forall k | 0 <= k < |ms| ensures Enabled(xs[k].s, ms[k].e) && xs[k + 1].s == Next(xs[k].s, ms[k].e) {
      assert Possible(world, xs[k], ms[k]);
    }
  }

  /** While no step breaks ownership, every open descriptor has a dialogue that HttpDialogue allows, in the slot's
      phase, and no other descriptor has one. */
  lemma {:induction false} LinksHold(world: World, xs: seq<Reactor>, ms: seq<Move>, k: nat)
    requires IsReactorRun(world, xs, ms) && k <= |ms| && Unbroken(States(xs), Steps(ms), k)
    ensures |xs| == |ms| + 1 && AllLinked(world, xs[k])
    decreases k
  {
    hide Possible, Talks, Next, Enabled, Good, PhasesAgree, Linked, Breaks, Init;
    if k == 0 {
      BeginsLinked(world, xs[0]);
    } else {
      LinksHold(world, xs, ms, k - 1);
      ReactorRunIsRun(world, xs, ms);
      UnbrokenIsGood(States(xs), Steps(ms), k - 1);
      StepKeepsLinks(world, xs[k - 1], ms[k - 1]);
    }
  }

  lemma BeginsLinked(world: World, x: Reactor)
    requires Init(x.s) && x.talks == map[]
    ensures AllLinked(world, x)
  {
  }

  /** So the handlers are called only where the dialogue allows it: reading while it waits, writing while it sends, the
      business of a decided request. */
  lemma HandlersMayRun(world: World, xs: seq<Reactor>, ms: seq<Move>, k: nat)
    requires IsReactorRun(world, xs, ms) && k < |ms| && Unbroken(States(xs), Steps(ms), k)
    ensures |xs| == |ms| + 1
    ensures ms[k].e.Io? && xs[k].s.batch[0].fd in xs[k].talks ==>
      var ev, d := xs[k].s.batch[0], xs[k].talks[xs[k].s.batch[0].fd];
      (ev.readable ==> d.phase == D.Reading) && (ev.writable ==> D.Enabled(d, D.Writable(ms[k].script)))
    ensures ms[k].e.BusinessDone? ==>
      var fd := xs[k].s.working[ms[k].e.i]; fd in xs[k].talks && D.Enabled(xs[k].talks[fd], D.Business)
  {
    LinksHold(world, xs, ms, k);
    ReactorRunIsRun(world, xs, ms);
    HandlersSuit(States(xs), Steps(ms), k);
    assert Possible(world, xs[k], ms[k]);
    hide IsReactorRun, IsRun, Next, Reachable, D.Sound, Dictated;
    if ms[k].e.Io? {
      var fd := xs[k].s.batch[0].fd;
      assert Linked(world, Seen(xs[k].s.table, fd), TalkOf(xs[k], fd));
    } else if ms[k].e.BusinessDone? {
      var fd := xs[k].s.working[ms[k].e.i];
      assert Linked(world, Seen(xs[k].s.table, fd), TalkOf(xs[k], fd));
    }
  }

  /** And every connection of the reactor is answered faithfully: for each open descriptor whose bytes so far declare no
      body, the wire holds the responses answered in full and the present one up to its offset, and these with what is
      still owed are what its bytes deserve. */
  lemma EveryWireIsFaithful(world: World, xs: seq<Reactor>, ms: seq<Move>, k: nat, fd: nat)
    requires IsReactorRun(world, xs, ms) && k <= |ms| && Unbroken(States(xs), Steps(ms), k)
    ensures |xs| == |ms| + 1 && (fd in xs[k].talks <==> fd in xs[k].s.table.conns)
    ensures fd in xs[k].talks && B.BodyFree(world.site, P.Fresh(xs[k].talks[fd].received)) ==>
      D.Faithful(world.site, world.disk, xs[k].talks[fd])
  {
    LinksHold(world, xs, ms, k);
    hide IsReactorRun, D.Faithful, B.BodyFree, D.Sound, P.Run;
    assert Linked(world, Seen(xs[k].s.table, fd), TalkOf(xs[k], fd));
    if fd in xs[k].talks && B.BodyFree(world.site, P.Fresh(xs[k].talks[fd].received)) {
      ReachableIsFaithful(world, xs[k].talks[fd]);
    }
  }

  lemma ReachableIsFaithful(world: World, d: D.Dialogue)
    requires Reachable(world, d) && B.BodyFree(world.site, P.Fresh(d.received))
    ensures D.Faithful(world.site, world.disk, d)
  {
    hide D.Faithful, B.BodyFree, D.Sound, D.Next, D.Enabled, P.Run;
    var ds, es :| EndsAt(world, ds, es, d);
    D.WireIsFaithful(world.site, world.disk, ds, es, |es|);
  }
}
