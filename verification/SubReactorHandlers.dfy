/** The I/O thread's handlers as they are written, over the table of http_conn objects and the timer heap. Each is
    proved to do to the shared table what the step machine of SubReactor says, with the outcome the connection itself
    dictates, and to carry the connection along the dialogue of HttpDialogue. */
module SubReactorHandlers {
  import opened HttpParser
  import D = HttpDialogue
  import H = HttpConn
  import R = HttpResponse
  import S = HttpSend
  import T = TimerHeap
  import M = SubReactor

  /** What deal_read makes of read_once's result and the bytes then in the buffer. */
  function AfterRead(r: (bool, Parser)): M.ReadOutcome
    requires r.1.Wf()
  {
    if !r.0 then M.ReadFailed else if ProcessRead(r.1).0 == NoRequest then M.Incomplete else M.Complete
  }

  /** What deal_write makes of write's result; a request behind the one answered may be there already. */
  function AfterWrite(o: S.Outcome, p: Parser): M.WriteOutcome
    requires p.Wf()
  {
    match o
    case Failed => M.SendFailed
    case Again => M.Blocked
    case Done =>
      if !p.linger then M.SentClose
      else if Reset(p).buf == [] || ProcessRead(Reset(p)).0 == NoRequest then M.SentWait
      else M.SentNext
  }

  /** An http_conn is ready for what its phase leads to. */
  ghost predicate Fits(c: H.HttpConn, p: M.Phase)
    reads c
  {
    match p
    case Reading => c.m_file == H.NO_FILE
    case Parsed => c.Planned().Some?
    case Responding =>
      c.m_write_offset <= |c.m_response_head| + if c.m_file.sendfile then c.m_file.size else |c.m_response_body|
  }

  /** The object stands where a dialogue does. */
  ghost predicate Speaks(c: H.HttpConn, d: D.Dialogue)
    reads c, c.m_read_buf
  {
    && c.Valid() && c.wire == d.wire
    && match d.phase
       case Reading => c.Parse() == d.p
       case Parsed => c.Parse() == d.p && c.Planned() == Some(d.w)
       case Responding =>
         && c.Parse() == d.p.(linger := d.w.linger) && c.m_write_offset == d.off
         && c.m_response_head == d.w.head && c.m_response_body == d.w.body
         && c.m_file.sendfile == d.w.sendfile && c.m_file.size == d.w.size
       case _ => true
  }

  /** Where a descriptor stands: its slot closed, or open in a phase. */
  function At(phases: map<nat, M.Phase>, fd: nat): Option<M.Phase> {
    if fd in phases then Some(phases[fd]) else None
  }

  /** The slot for a descriptor agrees. */
  ghost predicate Slot(c: H.HttpConn, fd: nat, at: Option<M.Phase>)
    reads c, c.m_read_buf
  {
    && c.Valid() && c.Ledger()
    && match at
       case None => c.m_sockfd == -1 && c.m_file == H.NO_FILE
       case Some(p) => c.m_sockfd == fd && Fits(c, p)
  }

  class SubReactor {
    const oneShot: bool
    const m_users: seq<H.HttpConn>
    const m_timers: T.TimerHeap
    var armed: map<nat, M.Arming>
    var live: set<nat>
    var m_pool: seq<nat>
    ghost var phases: map<nat, M.Phase>

    ghost function Now(): M.Table
      reads this, m_timers, m_timers.m_seqs
    {
      M.Table(oneShot, live, phases, armed, m_timers.Now(), m_pool)
    }

    ghost predicate Users()
      reads `phases, m_users, set c | c in m_users :: c.m_read_buf
    {
      && (forall i :: 0 <= i < |m_users| ==> Slot(m_users[i], i, At(phases, i)))
      && (forall i, j :: 0 <= i < j < |m_users| ==>
            m_users[i] != m_users[j] && m_users[i].m_read_buf != m_users[j].m_read_buf)
      && |m_users| == M.MAX_FD && (forall fd :: fd in phases ==> fd < M.MAX_FD)
    }

    /** `users` are closed slots, newly made. */
    constructor (oneShot: bool, users: seq<H.HttpConn>, timers: T.TimerHeap)
      requires |users| == M.MAX_FD && forall i :: 0 <= i < |users| ==> Slot(users[i], i, None)
      requires forall i, j :: 0 <= i < j < |users| ==>
        users[i] != users[j] && users[i].m_read_buf != users[j].m_read_buf
      ensures m_users == users && m_timers == timers && Users()
      ensures Now() == M.Table(oneShot, {}, map[], map[], timers.Now(), [])
    {
      this.oneShot, m_users, m_timers := oneShot, users, timers;
      armed, live, m_pool, phases := map[], {}, [], map[];
    }

    method Rearm(fd: nat, out: bool)
      modifies `armed
      ensures Now() == M.Rearmed(old(Now()), fd, out)
    {
      armed := armed[fd := M.Arming(out, oneShot)];
    }

    method CloseConnection(fd: nat)
      requires Users() && fd < |m_users|
      modifies `armed, `live, `phases, m_timers, m_timers.m_seqs, m_users[fd]
      ensures Users() && Now() == M.Closed(old(Now()), fd) && m_users[fd].wire == old(m_users[fd].wire)
    {
      armed := armed - {fd};
      if m_users[fd].m_sockfd != -1 {
        live := live - {fd};
      }
      CloseSlot(fd);
      m_timers.Invalidate(fd);
    }

    method CloseSlot(fd: nat)
      requires Users() && fd < |m_users|
      modifies `phases, m_users[fd]
      ensures Users() && phases == old(phases) - {fd} && m_users[fd].wire == old(m_users[fd].wire)
    {
      var c := m_users[fd];
      c.CloseConn();
      phases := phases - {fd};
      assert Slot(c, fd, None);
      hide Slot;
      forall i | 0 <= i < |m_users| ensures Slot(m_users[i], i, At(phases, i)) {
        assert i != fd ==> old(Slot(m_users[i], i, At(phases, i)));
        assert i != fd ==> At(phases, i) == old(At(phases, i));
      }
    }

    /** A task for the pool; its timer is off first. */
    method Submit(fd: nat)
      modifies `m_pool, m_timers, m_timers.m_seqs
      ensures Now() == M.Submitted(old(Now()), fd).(conns := phases)
    {
      m_timers.Invalidate(fd);
      m_pool := m_pool + [fd];
    }

    /** read_once on one object, closed or waiting for input. */
    static method ReadConn(c: H.HttpConn, fd: nat, ghost at: Option<M.Phase>, script: seq<H.Recv>) returns (ok: bool)
      requires Slot(c, fd, at) && (at.Some? ==> at.value == M.Reading)
      modifies c, c.m_read_buf
      ensures Slot(c, fd, at) && c.wire == old(c.wire) && c.m_read_buf == old(c.m_read_buf)
      ensures old(c.Parse()).Wf() && (at.None? && script == [H.Error] ==> !ok)
      ensures (ok, c.Parse()) == Arrived(old(c.Parse()), c.m_read_buf.Length, script)
    {
      SlotParses(c, fd, at);
      RecvFails(c.m_read_buf.Length - c.m_read_idx);
      hide H.Receive, H.Arriving, H.EndsBadly, H.HttpConn.Valid;
      ok := c.ReadOnce(script);
    }

    /** read_once on one slot. */
    method ReadSlot(fd: nat, script: seq<H.Recv>) returns (ok: bool)
      requires Users() && fd < |m_users| && (fd in phases ==> phases[fd] == M.Reading)
      modifies m_users[fd], m_users[fd].m_read_buf
      ensures Users() && m_users[fd].wire == old(m_users[fd].wire)
      ensures m_users[fd].m_read_buf == old(m_users[fd].m_read_buf)
      ensures old(m_users[fd].Parse()).Wf() && (fd !in phases && script == [H.Error] ==> !ok)
      ensures (ok, m_users[fd].Parse()) == Arrived(old(m_users[fd].Parse()), m_users[fd].m_read_buf.Length, script)
    {
      hide Slot, Arrived;
      var c := m_users[fd];
      SlotParses(c, fd, At(phases, fd));
      ok := ReadConn(c, fd, At(phases, fd), script);
      forall i | 0 <= i < |m_users| ensures Slot(m_users[i], i, At(phases, i)) {
        assert i != fd ==> old(Slot(m_users[i], i, At(phases, i)));
      }
    }

    /** prepare_io_read on one slot; a decided request is planned for the business side. */
    method PrepareSlot(fd: nat, site: R.Site) returns (r: nat)
      requires Users() && fd in phases && phases[fd] == M.Reading
      modifies `phases, m_users[fd], m_users[fd].m_read_buf
      ensures Users() && m_users[fd].wire == old(m_users[fd].wire)
      ensures m_users[fd].m_read_buf == old(m_users[fd].m_read_buf)
      ensures old(m_users[fd].Parse()).Wf() && m_users[fd].Parse() == ProcessRead(old(m_users[fd].Parse())).1
      ensures r == if ProcessRead(old(m_users[fd].Parse())).0 == NoRequest then 0 else 1
      ensures phases == if r == 0 then old(phases) else old(phases)[fd := M.Parsed]
      ensures r == 1 ==>
        m_users[fd].Planned() == Some(R.Answer(site, ProcessRead(old(m_users[fd].Parse())).0, m_users[fd].Parse()))
    {
      hide ProcessRead, R.Answer, H.HttpConn.Planned, Slot, H.HttpConn.Valid, H.HttpConn.Ledger;
      var c := m_users[fd];
      assert Slot(c, fd, Some(M.Reading));
      SlotParses(c, fd, Some(M.Reading));
      NoFileYet(c, fd);
      r := c.PrepareIoRead(site);
      if r == 1 {
        phases := phases[fd := M.Parsed];
        ParsedSlot(c, fd);
      } else {
        ReadingSlot(c, fd);
      }
      forall i | 0 <= i < |m_users| ensures Slot(m_users[i], i, At(phases, i)) {
        assert i != fd ==> old(Slot(m_users[i], i, At(phases, i))) && At(phases, i) == old(At(phases, i));
      }
    }

    /** prepare_io_read, and what both handlers do with its result. */
    method Proceed(fd: nat, site: R.Site) returns (ready: bool)
      requires Users() && fd in phases && phases[fd] == M.Reading
      modifies `armed, `m_pool, `phases, m_timers, m_timers.m_seqs, m_users[fd], m_users[fd].m_read_buf
      ensures Users() && m_users[fd].wire == old(m_users[fd].wire)
      ensures m_users[fd].m_read_buf == old(m_users[fd].m_read_buf)
      ensures old(m_users[fd].Parse()).Wf() && m_users[fd].Parse() == ProcessRead(old(m_users[fd].Parse())).1
      ensures ready <==> ProcessRead(old(m_users[fd].Parse())).0 != NoRequest
      ensures Now() == if ready then M.Submitted(old(Now()), fd) else M.Rearmed(old(Now()), fd, false)
      ensures ready ==>
        m_users[fd].Planned() == Some(R.Answer(site, ProcessRead(old(m_users[fd].Parse())).0, m_users[fd].Parse()))
    {
      hide ProcessRead, R.Answer, H.HttpConn.Planned, Slot, T.Invalidated;
      var r := PrepareSlot(fd, site);
      ready := r == 1;
      if ready {
        Submit(fd);
      } else {
        Rearm(fd, false);
      }
    }

    /** deal_read; on a closed slot the descriptor is -1 and recv fails. */
    method DealRead(fd: nat, script: seq<H.Recv>, site: R.Site, now: int, ghost d: D.Dialogue)
      returns (ghost r: M.ReadOutcome)
      requires Users() && fd < |m_users|
      requires if fd in phases then phases[fd] == M.Reading else script == [H.Error]
      modifies `armed, `live, `m_pool, `phases, m_timers, m_timers.m_seqs, m_users[fd], m_users[fd].m_read_buf
      ensures Users() && (fd !in old(phases) ==> r == M.ReadFailed)
      ensures old(m_users[fd].Parse()).Wf()
      ensures var a := Arrived(old(m_users[fd].Parse()), old(m_users[fd].m_read_buf.Length), script);
        r == AfterRead(a) && Now() == M.DealRead(old(Now()), fd, r, now)
        && (r == M.Complete ==> m_users[fd].Planned() == Some(R.Answer(site, ProcessRead(a.1).0, ProcessRead(a.1).1)))
      ensures d.phase == D.Reading && old(Speaks(m_users[fd], d)) && r != M.ReadFailed ==>
        Speaks(m_users[fd], HasRead(site, d, old(m_users[fd].m_read_buf.Length), script))
    {
      hide ProcessRead, R.Answer, H.HttpConn.Planned, Slot, T.Added, T.Invalidated, Arrived, Speaks, HasRead, M.Closed;
      ghost var talks := d.phase == D.Reading && Speaks(m_users[fd], d);
      if talks { SpeaksReading(m_users[fd], d); }
      var ok := ReadSlot(fd, script);
      if !ok {
        CloseConnection(fd);
        return M.ReadFailed;
      }
      m_timers.Refresh(fd, M.TIMEOUT_SEC, now);
      var ready := Proceed(fd, site);
      if talks {
        SlotParses(m_users[fd], fd, At(phases, fd));
        ReadSpeaks(m_users[fd], site, d, m_users[fd].m_read_buf.Length, script);
      }
      r := if ready then M.Complete else M.Incomplete;
    }

    /** write on one slot; `file` is what its open file delivers. */
    method WriteSlot(fd: nat, file: R.Content, script: seq<S.Kernel>, ghost disk: D.Disk, ghost d: D.Dialogue)
      returns (o: S.Outcome)
      requires Users() && fd in phases && phases[fd] == M.Responding
      requires Sends(m_users[fd], file, disk, d)
      modifies m_users[fd]
      ensures Users() && m_users[fd].Parse() == old(m_users[fd].Parse()) && m_users[fd].Parse().Wf()
      ensures m_users[fd].m_read_buf == old(m_users[fd].m_read_buf)
      ensures o == Written(disk, d, script).0 && Speaks(m_users[fd], Written(disk, d, script).1)
    {
      hide D.Message, H.Called, S.Write;
      var c := m_users[fd];
      assert Slot(c, fd, Some(M.Responding));
      SendsMessage(c, file, disk, d);
      o := c.Write(file, script);
      CalledIsWrite(|c.m_response_head|, |c.Message(file)|, d.off, script);
      assert Slot(c, fd, Some(M.Responding)) && Speaks(c, Written(disk, d, script).1);
      hide Slot, Speaks;
      forall i | 0 <= i < |m_users| ensures Slot(m_users[i], i, At(phases, i)) {
        assert i != fd ==> old(Slot(m_users[i], i, At(phases, i)));
      }
    }

    /** reset_for_next on one slot. */
    method ResetSlot(fd: nat) returns (more: bool)
      requires Users() && fd in phases
      modifies `phases, m_users[fd], m_users[fd].m_read_buf
      ensures Users() && phases == old(phases)[fd := M.Reading]
      ensures m_users[fd].m_read_buf == old(m_users[fd].m_read_buf) && m_users[fd].wire == old(m_users[fd].wire)
      ensures old(m_users[fd].Parse()).Wf() && m_users[fd].Parse() == Reset(old(m_users[fd].Parse()))
      ensures more <==> m_users[fd].Parse().buf != []
    {
      hide Slot, Reset, Fits, H.HttpConn.Valid, H.HttpConn.Ledger;
      var c := m_users[fd];
      assert Slot(c, fd, Some(phases[fd]));
      SlotParses(c, fd, Some(phases[fd]));
      more := c.ResetForNext();
      phases := phases[fd := M.Reading];
      ReadingSlot(c, fd);
      forall i | 0 <= i < |m_users| ensures Slot(m_users[i], i, At(phases, i)) {
        assert i != fd ==> old(Slot(m_users[i], i, At(phases, i))) && At(phases, i) == old(At(phases, i));
      }
    }

    /** The response was the last: the connection is closed. */
    method AnsweredLast(fd: nat, ghost site: R.Site, ghost d: D.Dialogue)
      requires Users() && fd in phases && d.p.Wf() && !d.w.linger && m_users[fd].wire == d.wire
      modifies `armed, `live, `phases, m_timers, m_timers.m_seqs, m_users[fd]
      ensures Users() && Now() == M.Closed(old(Now()), fd) && Speaks(m_users[fd], D.Completed(site, d))
    {
      hide Slot, Speaks, M.Closed, T.Invalidated, D.Completed;
      CloseConnection(fd);
      SlotParses(m_users[fd], fd, At(phases, fd));
      CompletedEnds(site, d);
      ClosedSpeaks(m_users[fd], D.Completed(site, d));
    }

    /** deal_write from where the whole response is out. */
    method Answered(fd: nat, site: R.Site, ghost d: D.Dialogue) returns (ghost w: M.WriteOutcome)
      requires Users() && fd in phases && phases[fd] == M.Responding
      requires d.phase == D.Responding && d.p.Wf() && Speaks(m_users[fd], d)
      modifies `armed, `live, `m_pool, `phases, m_timers, m_timers.m_seqs, m_users[fd], m_users[fd].m_read_buf
      ensures Users() && w == AfterWrite(S.Done, d.p.(linger := d.w.linger))
      ensures Now() == M.Written(old(Now()), fd, w) && Speaks(m_users[fd], D.Completed(site, d))
    {
      hide ProcessRead, Reset, Slot, T.Added, T.Invalidated, H.HttpConn.Planned, R.Answer, Speaks, M.Closed,
           D.Completed;
      SpeaksResponding(m_users[fd], d);
      if !m_users[fd].m_request.linger {
        AnsweredLast(fd, site, d);
        return M.SentClose;
      }
      w := AnsweredMore(fd, site, d);
    }

    /** The connection stays open: what is buffered already is parsed at once. */
    method AnsweredMore(fd: nat, site: R.Site, ghost d: D.Dialogue) returns (ghost w: M.WriteOutcome)
      requires Users() && fd in phases && phases[fd] == M.Responding
      requires d.phase == D.Responding && d.p.Wf() && d.w.linger && Speaks(m_users[fd], d)
      modifies `armed, `m_pool, `phases, m_timers, m_timers.m_seqs, m_users[fd], m_users[fd].m_read_buf
      ensures Users() && w == AfterWrite(S.Done, d.p.(linger := d.w.linger))
      ensures Now() == M.Written(old(Now()), fd, w) && Speaks(m_users[fd], D.Completed(site, d))
    {
      hide ProcessRead, Reset, Slot, T.Invalidated, H.HttpConn.Planned, R.Answer, Speaks, D.Completed;
      SpeaksResponding(m_users[fd], d);
      var more := ResetSlot(fd);
      w := M.SentWait;
      if more {
        var ready := Proceed(fd, site);
        w := if ready then M.SentNext else M.SentWait;
      } else {
        Rearm(fd, false);
      }
      SlotParses(m_users[fd], fd, At(phases, fd));
      CompletedSpeaks(m_users[fd], site, d);
    }

    /** deal_write. */
    method DealWrite(fd: nat, file: R.Content, script: seq<S.Kernel>, site: R.Site, now: int,
                     ghost disk: D.Disk, ghost d: D.Dialogue)
      returns (ghost w: M.WriteOutcome)
      requires Users() && fd in phases && phases[fd] == M.Responding
      requires Sends(m_users[fd], file, disk, d)
      modifies `armed, `live, `m_pool, `phases, m_timers, m_timers.m_seqs, m_users[fd], m_users[fd].m_read_buf
      ensures Users() && w == AfterWrite(Written(disk, d, script).0, d.p.(linger := d.w.linger))
      ensures Now() == M.DealWrite(old(Now()), fd, w, now) && Speaks(m_users[fd], D.Sent(site, disk, d, script))
    {
      hide ProcessRead, Reset, Slot, T.Added, T.Invalidated, H.HttpConn.Planned, R.Answer, Speaks, S.Write, D.Message,
           M.Closed, D.Completed;
      m_timers.Refresh(fd, M.TIMEOUT_SEC, now);
      var o := WriteSlot(fd, file, script, disk, d);
      if o == S.Failed {
        SpeaksWire(m_users[fd], Written(disk, d, script).1);
        CloseConnection(fd);
        SlotParses(m_users[fd], fd, At(phases, fd));
        ClosedSpeaks(m_users[fd], D.Sent(site, disk, d, script));
        w := M.SendFailed;
      } else if o == S.Again {
        Rearm(fd, true);
        w := M.Blocked;
      } else {
        w := Answered(fd, site, Written(disk, d, script).1);
      }
    }

    /** The tests on one client event, in the loop's order. */
    method OnClient(ev: M.Event, received: seq<H.Recv>, file: R.Content, script: seq<S.Kernel>, site: R.Site, now: int,
                    ghost disk: D.Disk, ghost d: D.Dialogue)
      returns (ghost r: M.ReadOutcome, ghost w: M.WriteOutcome)
      requires Users() && ev.Client? && ev.fd < |m_users| && !(ev.readable && ev.writable)
      requires ev.readable ==> if ev.fd in phases then phases[ev.fd] == M.Reading else received == [H.Error]
      requires ev.writable && ev.fd in phases ==> phases[ev.fd] == M.Responding && Sends(m_users[ev.fd], file, disk, d)
      modifies `armed, `live, `m_pool, `phases, m_timers, m_timers.m_seqs, m_users[ev.fd], m_users[ev.fd].m_read_buf
      ensures Users() && Now() == M.ClientEvent(old(Now()), ev, r, w, now)
      ensures ev.readable && ev.fd !in old(phases) ==> r == M.ReadFailed
      ensures old(m_users[ev.fd].Parse()).Wf()
      ensures ev.readable ==>
        r == AfterRead(Arrived(old(m_users[ev.fd].Parse()), old(m_users[ev.fd].m_read_buf.Length), received))
      ensures ev.writable && ev.fd in old(phases) ==>
        D.Sound(disk, d) && d.phase == D.Responding
        && w == AfterWrite(Written(disk, d, script).0, d.p.(linger := d.w.linger))
      ensures d.phase == D.Reading && old(Speaks(m_users[ev.fd], d)) ==>
        !ev.broken && ev.readable && r != M.ReadFailed ==>
        Speaks(m_users[ev.fd], HasRead(site, d, old(m_users[ev.fd].m_read_buf.Length), received))
      ensures !ev.broken && ev.writable && ev.fd in old(phases) ==>
        D.Sound(disk, d) && d.phase == D.Responding && Speaks(m_users[ev.fd], D.Sent(site, disk, d, script))
    {
      hide Slot, M.DealRead, M.DealWrite, M.Closed, Arrived, AfterRead, AfterWrite, Speaks, Written, HasRead, D.Sent;
      r, w := M.ReadFailed, M.Blocked;
      SlotParses(m_users[ev.fd], ev.fd, At(phases, ev.fd));
      if ev.readable {
        r := DealRead(ev.fd, received, site, now, d);
      }
      var isOpen := GetFd(ev.fd);
      if isOpen && ev.writable {
        w := DealWrite(ev.fd, file, script, site, now, disk, d);
      }
      isOpen := GetFd(ev.fd);
      if isOpen && ev.broken {
        CloseConnection(ev.fd);
      }
    }

    /** m_users[fd].get_fd() == fd */
    method GetFd(fd: nat) returns (isOpen: bool)
      requires Users() && fd < |m_users|
      ensures isOpen <==> fd in phases
    {
      assert Slot(m_users[fd], fd, At(phases, fd));
      isOpen := m_users[fd].m_sockfd == fd;
    }

    /** add_new_conn, into a closed slot. */
    method AddNewConn(fd: nat, now: int)
      requires Users() && fd !in phases
      modifies `armed, `live, `phases, m_timers, m_timers.m_seqs, if fd < |m_users| then {m_users[fd]} else {}
      ensures Users() && Now() == M.HandleMsg(old(Now()), M.NewConn(fd), now)
      ensures fd < M.MAX_FD ==> forall d :: D.Init(d) ==> Speaks(m_users[fd], d)
    {
      hide Slot, T.Added, Speaks, D.Init;
      if fd >= M.MAX_FD {
        live := live - {fd};
        return;
      }
      OpenSlot(fd);
      armed := armed[fd := M.Arming(false, true)];
      m_timers.Add(fd, M.TIMEOUT_SEC, now);
    }

    /** init on one slot. */
    method OpenSlot(fd: nat)
      requires Users() && fd < |m_users| && fd !in phases
      modifies `phases, m_users[fd]
      ensures Users() && phases == old(phases)[fd := M.Reading]
      ensures forall d :: D.Init(d) ==> Speaks(m_users[fd], d)
    {
      var c := m_users[fd];
      assert Slot(c, fd, At(phases, fd));
      c.Init(fd);
      phases := phases[fd := M.Reading];
      assert Slot(c, fd, Some(M.Reading));
      hide Slot;
      forall i | 0 <= i < |m_users| ensures Slot(m_users[i], i, At(phases, i)) {
        assert i != fd ==> old(Slot(m_users[i], i, At(phases, i))) && At(phases, i) == old(At(phases, i));
      }
    }

    /** handle_msg */
    method HandleMsg(m: M.Msg, now: int)
      requires Users() && (m.NewConn? ==> m.fd !in phases)
      modifies `armed, `live, `phases, m_timers, m_timers.m_seqs, if m.fd < |m_users| then {m_users[m.fd]} else {}
      ensures Users() && Now() == M.HandleMsg(old(Now()), m, now)
    {
      hide Slot, T.Added, T.Invalidated, M.Closed;
      match m
      case NewConn(fd) => AddNewConn(fd, now);
      case BusDone(fd, ready) =>
        if fd >= M.MAX_FD {
          return;
        }
        var isOpen := GetFd(fd);
        if !isOpen {
          return;
        }
        if ready {
          Rearm(fd, true);
          m_timers.Add(fd, M.TIMEOUT_SEC, now);
        } else {
          CloseConnection(fd);
        }
    }

    /** What a worker runs: on an open slot with a decided request it always succeeds, and the response is the one
        that was planned. */
    method RunTask(fd: nat, site: R.Site, ghost d: D.Dialogue) returns (ready: bool)
      requires Users() && fd < |m_users|
      requires fd in phases ==> phases[fd] == M.Parsed && d.phase == D.Parsed && Speaks(m_users[fd], d)
      modifies `phases, m_users[fd]
      ensures Users() && ready == (fd in old(phases))
      ensures phases == if ready then old(phases)[fd := M.Responding] else old(phases)
      ensures ready ==> Speaks(m_users[fd], d.(phase := D.Responding, off := 0))
    {
      hide H.HttpConn.Planned, Slot, H.HttpConn.Valid, H.HttpConn.Ledger;
      var c := m_users[fd];
      assert Slot(c, fd, At(phases, fd));
      SlotParses(c, fd, At(phases, fd));
      if c.m_sockfd != fd {
        return false;
      }
      PlannedIsDecided(c, fd);
      PlannedKeepsFile(c);
      var result := c.RunBusinessAndPrepareWrite(site);
      phases := phases[fd := M.Responding];
      RespondingSlot(c, fd);
      forall i | 0 <= i < |m_users| ensures Slot(m_users[i], i, At(phases, i)) {
        assert i != fd ==> old(Slot(m_users[i], i, At(phases, i))) && At(phases, i) == old(At(phases, i));
      }
      return result == 1;
    }

    /** tick's callback: the connection is closed; its version is spent already, so the timers do not change. */
    method CallBack(fd: int, ghost t0: M.Table, ghost closed: set<nat>)
      requires Users() && m_timers.m_seqs.Length == M.MAX_FD && T.Spent(m_timers.Now(), fd)
      requires Now() == M.TimedOut(t0, closed, m_timers.Now())
      modifies `armed, `live, `phases, m_timers, m_timers.m_seqs, m_users
      ensures Users() && m_timers.Now() == old(m_timers.Now()) && fd >= 0
      ensures Now() == M.TimedOut(t0, closed + {fd}, m_timers.Now())
    {
      T.SpentIsInRange(m_timers.Now(), fd);
      hide Slot, T.Spent, M.TimedOut, M.Closed, T.Invalidated;
      OneMoreTimedOut(t0, closed, m_timers.Now(), fd);
      T.SpentStays(m_timers.Now(), fd);
      ClosedTimers(Now(), fd);
      CloseConnection(fd);
    }

    /** handle_timeout: tick's loop, with its callback run inside it. `nodes` are the nodes that fired. */
    method HandleTimeout(now: int)
      returns (ghost fired: seq<int>, ghost nodes: seq<T.TimerNode>, ghost closed: set<nat>)
      requires Users() && m_timers.Now().Valid() && m_timers.m_seqs.Length == M.MAX_FD
      modifies `armed, `live, `phases, m_timers, m_timers.m_seqs, m_users
      ensures Users() && T.TickOutcome(old(m_timers.Now()), now, m_timers.Now(), fired, nodes)
      ensures forall fd: nat :: fd in closed <==> fd in fired
      ensures Now() == M.TimedOut(old(Now()), closed, m_timers.Now())
    {
      hide Slot, T.Ticking, T.TickOutcome, T.Timers.Valid, T.Spent, M.TimedOut;
      ghost var t0, t := Now(), m_timers.Now();
      fired, nodes, closed := [], [], {};
      T.TickingBegins(t, now);
      NoneTimedOut(t0);
      var due, node := m_timers.PopDue(now, t, fired, nodes);
      TimedOutWith(t0, {}, t, m_timers.Now());
      while due != T.NoneDue
        invariant due == T.NoneDue ==> forall n :: n in m_timers.m_heap ==> n.expire > now
        invariant if due.CallBack?
          then T.Ticking(t, now, m_timers.Now(), fired + [due.fd], nodes + [node]) && T.Spent(m_timers.Now(), due.fd)
          else T.Ticking(t, now, m_timers.Now(), fired, nodes)
        invariant Users() && m_timers.m_seqs.Length == M.MAX_FD && Now() == M.TimedOut(t0, closed, m_timers.Now())
        invariant forall fd: nat :: fd in closed <==> fd in fired
        decreases |m_timers.m_heap|, if due == T.NoneDue then 0 else 1
      {
        if due.CallBack? {
          CallBack(due.fd, t0, closed);
          fired, nodes, closed := fired + [due.fd], nodes + [node], closed + {due.fd as nat};
        }
        ghost var before := m_timers.Now();
        due, node := m_timers.PopDue(now, t, fired, nodes);
        TimedOutWith(t0, closed, before, m_timers.Now());
      }
      T.TickingEnds(t, now, m_timers.Now(), fired, nodes);
    }
  }

  lemma ClosedTimers(t: M.Table, fd: nat)
    ensures M.Closed(t, fd).timers == T.Invalidated(t.timers, fd)
  {
  }

  lemma TimedOutWith(t: M.Table, closed: set<nat>, u: T.Timers, v: T.Timers)
    ensures M.TimedOut(t, closed, v) == M.TimedOut(t, closed, u).(timers := v)
  {
  }

  lemma NoneTimedOut(t: M.Table)
    ensures M.TimedOut(t, {}, t.timers) == t
  {
    assert t.armed - {} == t.armed && t.conns - {} == t.conns;
  }

  lemma OneMoreTimedOut(t: M.Table, closed: set<nat>, after: T.Timers, fd: nat)
    requires T.Spent(after, fd)
    ensures M.Closed(M.TimedOut(t, closed, after), fd) == M.TimedOut(t, closed + {fd}, after)
  {
    T.SpentStays(after, fd);
    assert t.armed - closed - {fd} == t.armed - (closed + {fd}) && t.conns - closed - {fd} == t.conns - (closed + {fd});
  }

  lemma SlotParses(c: H.HttpConn, fd: nat, at: Option<M.Phase>)
    requires Slot(c, fd, at)
    ensures c.Valid() && c.Ledger() && c.m_sockfd == (if at.Some? then fd else -1)
    ensures c.m_read_idx <= c.m_read_buf.Length && c.Parse().Wf()
  {
  }

  lemma NoFileYet(c: H.HttpConn, fd: nat)
    requires Slot(c, fd, Some(M.Reading))
    ensures c.m_file == H.NO_FILE
  {
  }

  lemma ParsedSlot(c: H.HttpConn, fd: nat)
    requires c.Valid() && c.Ledger() && c.m_sockfd == fd && c.Planned().Some?
    ensures Slot(c, fd, Some(M.Parsed))
  {
  }

  lemma RespondingSlot(c: H.HttpConn, fd: nat)
    requires c.Valid() && c.Ledger() && c.m_sockfd == fd && c.m_write_offset == 0
    ensures Slot(c, fd, Some(M.Responding))
  {
  }

  lemma ReadingSlot(c: H.HttpConn, fd: nat)
    requires c.Valid() && c.Ledger() && c.m_sockfd == fd && c.m_file == H.NO_FILE
    ensures Slot(c, fd, Some(M.Reading)) && c.m_read_idx <= c.m_read_buf.Length
  {
  }

  lemma PlannedIsDecided(c: H.HttpConn, fd: nat)
    requires Slot(c, fd, Some(M.Parsed))
    ensures c.Planned().Some? && c.m_parsed_code != NoRequest && c.m_parsed_code != GetRequest
  {
  }

  /** The object is sending what the dialogue is, and `file` is what its file delivers. */
  ghost predicate Sends(c: H.HttpConn, file: R.Content, disk: D.Disk, d: D.Dialogue)
    reads c, c.m_read_buf
  {
    && D.Sound(disk, d) && d.phase == D.Responding && Speaks(c, d)
    && R.Bytes(file, d.w.size) == R.Bytes(disk(d.w), d.w.size)
  }

  /** The dialogue after one call of write, and how the call ends. */
  function Written(disk: D.Disk, d: D.Dialogue, script: seq<S.Kernel>): (S.Outcome, D.Dialogue)
    requires D.Sound(disk, d) && d.phase == D.Responding
  {
    var m := D.Message(disk, d.w);
    var r := S.Write(|d.w.head|, |m|, d.off, script);
    (r.0, d.(off := r.1, wire := d.wire + m[d.off..r.1]))
  }

  lemma SendsMessage(c: H.HttpConn, file: R.Content, disk: D.Disk, d: D.Dialogue)
    requires Sends(c, file, disk, d)
    ensures c.Message(file) == D.Message(disk, d.w) && c.m_response_head == d.w.head && c.m_write_offset == d.off
    ensures d.off <= |c.Message(file)| && |c.m_response_head| <= |c.Message(file)| && c.wire == d.wire
  {
  }

  lemma CalledIsWrite(head: nat, total: nat, off: nat, script: seq<S.Kernel>)
    requires off <= total && head <= total
    ensures H.Called(head, total, off, script) ==
      (S.Write(head, total, off, script).0, S.Write(head, total, off, script).1)
  {
  }

  lemma SpeaksResponding(c: H.HttpConn, d: D.Dialogue)
    requires Speaks(c, d) && d.phase == D.Responding
    ensures c.Valid() && c.wire == d.wire && c.m_request.linger == d.w.linger && c.Parse() == d.p.(linger := d.w.linger)
    ensures Reset(c.Parse()) == Reset(d.p) && Reset(d.p.(linger := d.w.linger)) == Reset(d.p)
  {
  }

  lemma SpeaksWire(c: H.HttpConn, d: D.Dialogue)
    requires Speaks(c, d)
    ensures c.wire == d.wire
  {
  }

  lemma ClosedSpeaks(c: H.HttpConn, d: D.Dialogue)
    requires c.Valid() && c.wire == d.wire && d.phase in {D.Finished, D.Aborted}
    ensures Speaks(c, d)
  {
  }

  /** A dialogue whose response is out, from what the object has become. */
  lemma CompletedSpeaks(c: H.HttpConn, site: R.Site, d: D.Dialogue)
    requires c.Valid() && c.wire == d.wire && d.p.Wf() && d.w.linger
    requires if Reset(d.p).buf == [] then c.Parse() == Reset(d.p) else c.Parse() == ProcessRead(Reset(d.p)).1
    requires Reset(d.p).buf != [] && ProcessRead(Reset(d.p)).0 != NoRequest ==>
      c.Planned() == Some(R.Answer(site, ProcessRead(Reset(d.p)).0, c.Parse()))
    ensures Speaks(c, D.Completed(site, d))
  {
    hide ProcessRead, R.Answer, H.HttpConn.Planned;
  }

  lemma CompletedEnds(site: R.Site, d: D.Dialogue)
    requires d.p.Wf() && !d.w.linger
    ensures D.Completed(site, d).phase == D.Finished && D.Completed(site, d).wire == d.wire
  {
  }

  /** The response planned uses the file that is open. */
  lemma PlannedKeepsFile(c: H.HttpConn)
    ensures c.Planned().Some? ==>
      c.Planned().value.sendfile == c.m_file.sendfile && c.Planned().value.size == c.m_file.size
  {
  }

  /** The dialogue after read_once and prepare_io_read. */
  function HasRead(site: R.Site, d: D.Dialogue, size: nat, script: seq<H.Recv>): D.Dialogue {
    if d.p.Wf() && |d.p.buf| <= size then
      D.Prepared(site, D.Fed(d, H.Receive(script, size - |d.p.buf|, false).1))
    else d
  }

  lemma SpeaksReading(c: H.HttpConn, d: D.Dialogue)
    requires Speaks(c, d) && d.phase == D.Reading
    ensures c.m_read_idx <= c.m_read_buf.Length && c.Parse() == d.p && d.p.Wf() && c.wire == d.wire
    ensures |d.p.buf| <= c.m_read_buf.Length
  {
  }

  /** A dialogue that has been fed and prepared, from what the object has become. */
  lemma ReadSpeaks(c: H.HttpConn, site: R.Site, d: D.Dialogue, size: nat, script: seq<H.Recv>)
    requires c.Valid() && c.wire == d.wire && d.p.Wf() && d.phase == D.Reading && |d.p.buf| <= size
    requires Arrived(d.p, size, script).0
    requires c.Parse() == ProcessRead(Arrived(d.p, size, script).1).1
    requires ProcessRead(Arrived(d.p, size, script).1).0 != NoRequest ==>
      c.Planned() == Some(R.Answer(site, ProcessRead(Arrived(d.p, size, script).1).0, c.Parse()))
    ensures Speaks(c, HasRead(site, d, size, script))
  {
    hide ProcessRead, R.Answer, H.Receive, H.HttpConn.Planned;
  }

  lemma RecvFails(room: nat)
    ensures room > 0 ==> H.Receive([H.Error], room, false) == (false, [])
  {
  }

  /** read_once on a buffer of that size. */
  function Arrived(p: Parser, size: nat, script: seq<H.Recv>): (r: (bool, Parser))
    requires p.Wf() && |p.buf| <= size
    ensures r.1.Wf()
  {
    if |p.buf| == size then (false, p) else H.Finish(p, H.Receive(script, size - |p.buf|, false))
  }
}
