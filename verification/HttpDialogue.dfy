/** One connection from its first byte to its last, whatever the arrivals, the worker's delay and the kernel's appetite:
    what has gone out is exactly what the bytes that have come in deserve, as far as sending has got. */
module HttpDialogue {
  import opened HttpParser
  import opened HttpResponse
  import opened HttpStreams
  import A = HttpArrivals
  import B = HttpBodies
  import R = HttpRoundTrip
  import S = HttpSend

  /** Waiting for input; with the pool; sending; closed by the server after a response; given up on a send error. */
  datatype Phase = Reading | Parsed | Responding | Finished | Aborted

  /** `w` is the response being made or sent and `off` how much of it is out. `received`, `wire` and `answered` are what
      has come in, what has gone out, and the responses that are out in full. */
  datatype Dialogue = Dialogue(phase: Phase, p: Parser, w: Response, off: nat,
                               received: seq<char>, wire: seq<char>, answered: seq<Response>)

  datatype Step = Read(bytes: seq<char>) | Business | Writable(script: seq<S.Kernel>)

  /** What the file opened for a response delivers. */
  type Disk = Response -> Content

  function Message(disk: Disk, w: Response): (m: seq<char>)
    ensures w.head <= m
  {
    w.head + w.Payload(disk(w))
  }

  function Messages(disk: Disk, ws: seq<Response>): seq<char> {
    if ws == [] then [] else Message(disk, ws[0]) + Messages(disk, ws[1..])
  }

  /** The parser's cursors are in order, and the offset is inside the message, at its start unless it is being sent. */
  predicate Sound(disk: Disk, d: Dialogue) {
    d.p.Wf() && if d.phase in {Reading, Parsed, Finished} then d.off == 0 else d.off <= |Message(disk, d.w)|
  }

  predicate Enabled(d: Dialogue, e: Step) {
    match e
    case Read(bytes) => d.phase == Reading && |d.p.buf| + |bytes| <= READ_BUFFER_SIZE
    case Business => d.phase == Parsed
    case Writable(_) => d.phase == Responding
  }

  function Fed(d: Dialogue, bytes: seq<char>): (n: Dialogue)
    ensures d.p.Wf() ==> n.p.Wf()
  {
    d.(p := Feed(d.p, bytes), received := d.received + bytes)
  }

  /** prepare_io_read: on to the pool with a decided request, or wait. */
  function Prepared(site: Site, d: Dialogue): Dialogue
    requires d.p.Wf()
  {
    var (c, q) := ProcessRead(d.p);
    if c == NoRequest then d.(phase := Reading, p := q) else d.(phase := Parsed, p := q, w := Answer(site, c, q))
  }

  /** deal_write once a response is out in full. */
  function Completed(site: Site, d: Dialogue): Dialogue
    requires d.p.Wf()
  {
    var done := d.(off := 0, answered := d.answered + [d.w]);
    if !d.w.linger then done.(phase := Finished)
    else if Reset(d.p).buf == [] then done.(phase := Reading, p := Reset(d.p))
    else Prepared(site, done.(p := Reset(d.p)))
  }

  /** A call of write, and what deal_write does behind it. */
  function Sent(site: Site, disk: Disk, d: Dialogue, script: seq<S.Kernel>): Dialogue
    requires Sound(disk, d) && d.phase == Responding
  {
    var m := Message(disk, d.w);
    var (o, to, _) := S.Write(|d.w.head|, |m|, d.off, script);
    var n := d.(off := to, wire := d.wire + m[d.off..to]);
    match o
    case Failed => n.(phase := Aborted)
    case Again => n
    case Done => Completed(site, n)
  }

  function Next(site: Site, disk: Disk, d: Dialogue, e: Step): (n: Dialogue)
    requires Sound(disk, d) && Enabled(d, e)
    ensures Sound(disk, n)
  {
    match e
    case Read(bytes) => Prepared(site, Fed(d, bytes))
    case Business => d.(phase := Responding, off := 0)
    case Writable(script) => Sent(site, disk, d, script)
  }

  predicate Init(d: Dialogue) {
    d.phase == Reading && d.p == Fresh([]) && d.off == 0 && d.received == [] && d.wire == [] && d.answered == []
  }

  ghost predicate IsRun(site: Site, disk: Disk, ds: seq<Dialogue>, es: seq<Step>) {
    && |ds| == |es| + 1 && Init(ds[0])
   
    && forall k :: 0 <= k < |es| ==>
         Sound(disk, ds[k]) && Enabled(ds[k], es[k]) && ds[k + 1] == Next(site, disk, ds[k], es[k])
  }

  // ---------- the invariant ----------

  /** What is still to be answered of what has come in, and how the connection will then stand. */
  function Rest(site: Site, d: Dialogue): (seq<Response>, Conn)
    requires d.p.Wf()
  {
    match d.phase
    case Reading => ([], Live(d.p))
    case Finished => ([], Closed)
    case _ =>
      if !d.w.linger then ([d.w], Closed)
      else ([d.w] + Pump(site, Reset(d.p)).0, Pump(site, Reset(d.p)).1)
  }

  ghost predicate Faithful(site: Site, disk: Disk, d: Dialogue) {
    && Sound(disk, d)
    && (d.phase == Reading ==> d.p.check != Body)
    && (d.phase in {Parsed, Responding} && d.w.linger ==> BodyFree(site, Reset(d.p)))
    && d.wire == Messages(disk, d.answered) + Message(disk, d.w)[..d.off]
    && Pump(site, Fresh(d.received)) == (d.answered + Rest(site, d).0, Rest(site, d).1)
  }

  lemma {:induction false} MessagesSnoc(disk: Disk, ws: seq<Response>, w: Response)
    ensures Messages(disk, ws + [w]) == Messages(disk, ws) + Message(disk, w)
  {
    if ws == [] {
      assert [] + [w] == [w];
    } else {
      assert (ws + [w])[1..] == ws[1..] + [w];
      MessagesSnoc(disk, ws[1..], w);
    }
  }

  /** A stream without bodies has none in its beginnings. */
  lemma {:induction false} BodyFreeBefore(site: Site, p: Parser, more: seq<char>)
    requires p.Wf() && p.check != Body && BodyFree(site, Feed(p, more))
    ensures BodyFree(site, p)
    decreases |p.buf|
  {
    hide Run, Answer, BodyFree;
    A.RunFeed(p, true, more);
    BodyFreeTurn(site, Feed(p, more));
    BodyFreeTurn(site, p);
    var (c, q) := ProcessRead(p);
    if c != NoRequest && Answer(site, c, q).linger {
      AnswerFeed(site, c, q, more);
      ResetFeed(q, more);
      BodyFreeBefore(site, Reset(q), more);
    }
  }

  /** prepare_io_read takes one turn of Pump. */
  lemma PreparedIsATurn(site: Site, d: Dialogue)
    requires d.p.Wf()
    ensures var n := Prepared(site, d); n.p.Wf() && Rest(site, n) == Pump(site, d.p)
  {
    hide Run, Answer, Pump;
    if ProcessRead(d.p).0 == NoRequest { PumpWaits(site, d.p); } else { PumpTurn(site, d.p); }
  }

  lemma PreparedIsBodyFree(site: Site, d: Dialogue)
    requires d.p.Wf() && BodyFree(site, d.p)
    ensures var n := Prepared(site, d);
      n.p.check != Body && (n.phase == Parsed && n.w.linger ==> BodyFree(site, Reset(n.p)))
  {
    hide Run, Answer, BodyFree;
    BodyFreeTurn(site, d.p);
  }

  lemma ReadKeeps(site: Site, disk: Disk, d: Dialogue, bytes: seq<char>)
    requires Faithful(site, disk, d) && d.phase == Reading
    requires BodyFree(site, Fresh(d.received + bytes))
    ensures Faithful(site, disk, Prepared(site, Fed(d, bytes)))
  {
    hide Run, Answer, Pump, BodyFree, ProcessRead, Message, Messages;
    var f := Fed(d, bytes);
    assert Feed(Fresh(d.received), bytes) == Fresh(f.received);
    assert d.answered + [] == d.answered;
    PumpFeed(site, Fresh(d.received), bytes);
    PreparedIsATurn(site, f);
    PreparedIsBodyFree(site, f);
  }

  /** Completing a response moves it from what is owed to what is answered. */
  lemma CompletedOwes(site: Site, d: Dialogue)
    requires d.p.Wf() && d.phase == Responding
    ensures var n := Completed(site, d);
      n.p.Wf() && n.answered == d.answered + [d.w] && n.answered + Rest(site, n).0 == d.answered + Rest(site, d).0
      && Rest(site, n).1 == Rest(site, d).1
  {
    hide Run, Answer, Pump, ProcessRead;
    var rest := Pump(site, Reset(d.p));
    PumpEmpty(site);
    if d.w.linger {
      PreparedIsATurn(site, d.(off := 0, answered := d.answered + [d.w], p := Reset(d.p)));
      assert d.answered + ([d.w] + rest.0) == (d.answered + [d.w]) + rest.0;
    }
    assert (d.answered + [d.w]) + [] == d.answered + [d.w];
  }

  lemma CompletedIsBodyFree(site: Site, d: Dialogue)
    requires d.p.Wf() && (d.w.linger ==> BodyFree(site, Reset(d.p)))
    ensures var n := Completed(site, d);
      && (n.phase == Reading ==> n.p.check != Body)
      && (n.phase in {Parsed, Responding} && n.w.linger ==> BodyFree(site, Reset(n.p)))
      && n.phase in {Reading, Parsed, Finished} && n.off == 0 && n.wire == d.wire && n.received == d.received
  {
    hide Run, Answer, BodyFree, ProcessRead;
    if d.w.linger {
      PreparedIsBodyFree(site, d.(off := 0, answered := d.answered + [d.w], p := Reset(d.p)));
    }
  }

  lemma CompletedKeeps(site: Site, disk: Disk, d: Dialogue)
    requires Faithful(site, disk, d) && d.phase == Responding && d.off == |Message(disk, d.w)|
    ensures Faithful(site, disk, Completed(site, d))
  {
    hide Run, Answer, Pump, BodyFree, ProcessRead, Message, Completed, Rest;
    var m, n := Message(disk, d.w), Completed(site, d);
    MessagesSnoc(disk, d.answered, d.w);
    CompletedOwes(site, d);
    CompletedIsBodyFree(site, d);
    assert m[..|m|] == m && Message(disk, n.w)[..0] == [];
  }

  lemma SentKeeps(site: Site, disk: Disk, d: Dialogue, script: seq<S.Kernel>)
    requires Faithful(site, disk, d) && d.phase == Responding
    ensures Faithful(site, disk, Sent(site, disk, d, script))
  {
    hide Run, Answer, Pump, BodyFree, ProcessRead, S.Write, Completed, Message;
    var m := Message(disk, d.w);
    var (o, to, _) := S.Write(|d.w.head|, |m|, d.off, script);
    var n := d.(off := to, wire := d.wire + m[d.off..to]);
    assert Faithful(site, disk, n) by { assert m[..d.off] + m[d.off..to] == m[..to]; }
    if o.Done? { CompletedKeeps(site, disk, n); }
  }

  lemma StepKeeps(site: Site, disk: Disk, d: Dialogue, e: Step)
    requires Faithful(site, disk, d) && Enabled(d, e)
    requires BodyFree(site, Fresh(Next(site, disk, d, e).received))
    ensures Faithful(site, disk, Next(site, disk, d, e))
  {
    hide Run, Answer, Pump, BodyFree, ProcessRead, Sent, Prepared;
    match e
    case Read(bytes) => PreparedReceives(site, Fed(d, bytes)); ReadKeeps(site, disk, d, bytes);
    case Business =>
    case Writable(script) => SentKeeps(site, disk, d, script);
  }

  lemma PreparedReceives(site: Site, d: Dialogue)
    requires d.p.Wf()
    ensures Prepared(site, d).received == d.received
  {
  }

  lemma ReceivedGrows(site: Site, disk: Disk, d: Dialogue, e: Step)
    requires Sound(disk, d) && Enabled(d, e)
    ensures d.received <= Next(site, disk, d, e).received
  {
    hide ProcessRead, Answer, Reset, S.Write;
  }

  lemma RunStep(site: Site, disk: Disk, ds: seq<Dialogue>, es: seq<Step>, k: nat)
    requires IsRun(site, disk, ds, es) && k < |es|
    ensures |ds| == |es| + 1 && Sound(disk, ds[k]) && Enabled(ds[k], es[k])
    ensures ds[k + 1] == Next(site, disk, ds[k], es[k])
  {
    hide Sound, Enabled, Next, Init;
  }

  lemma {:induction false} ReceivedOverRun(site: Site, disk: Disk, ds: seq<Dialogue>, es: seq<Step>, j: nat, k: nat)
    requires IsRun(site, disk, ds, es) && j <= k <= |es|
    ensures |ds| == |es| + 1 && ds[j].received <= ds[k].received
    decreases k
  {
    hide Next, Sound, Enabled, Init;
    if j < k {
      ReceivedOverRun(site, disk, ds, es, j, k - 1);
      RunStep(site, disk, ds, es, k - 1);
      hide IsRun;
      ReceivedGrows(site, disk, ds[k - 1], es[k - 1]);
    }
  }

  /** The theorem: at every moment of every run on a stream without bodies, the wire holds the responses answered in
      full, then as much of the one being sent as its offset says; and these are, in order, the responses that the
      bytes received deserve when taken all at once. */
  lemma {:induction false} WireIsFaithful(site: Site, disk: Disk, ds: seq<Dialogue>, es: seq<Step>, k: nat)
    requires IsRun(site, disk, ds, es) && k <= |es| && BodyFree(site, Fresh(ds[k].received))
    ensures Faithful(site, disk, ds[k])
    decreases k
  {
    hide Run, Answer, Pump, BodyFree, ProcessRead, Faithful, Next, Enabled, Sound;
    if k == 0 {
      BeginsFaithful(site, disk, ds[0]);
    } else {
      var d, n := ds[k - 1], ds[k];
      ReceivedOverRun(site, disk, ds, es, k - 1, k);
      var more := n.received[|d.received|..];
      assert Feed(Fresh(d.received), more) == Fresh(n.received);
      BodyFreeBefore(site, Fresh(d.received), more);
      WireIsFaithful(site, disk, ds, es, k - 1);
      StepKeeps(site, disk, d, es[k - 1]);
    }
  }

  lemma BeginsFaithful(site: Site, disk: Disk, d: Dialogue)
    requires Init(d)
    ensures Faithful(site, disk, d)
  {
    hide Run, Answer, BodyFree, ProcessRead, Pump;
    PumpEmpty(site);
    assert Message(disk, d.w)[..0] == [];
  }

  /** Printed requests: whenever the connection waits, or the server has closed it, everything the requests deserve is
      out, byte for byte, and nothing else. */
  lemma PrintedDialogue(site: Site, disk: Disk, ds: seq<Dialogue>, es: seq<Step>, k: nat, rs: seq<R.Request>)
    requires IsRun(site, disk, ds, es) && k <= |es| && ds[k].received == PrintAll(rs)
    requires forall r :: r in rs ==> R.WfRequest(r)
    ensures ds[k].phase == Reading || ds[k].phase == Finished ==>
      ds[k].wire == Messages(disk, DeservedAll(site, rs).0)
      && (ds[k].phase == Reading <==> DeservedAll(site, rs).1)
  {
    hide Run, Answer, Pump, BodyFree, ProcessRead, DeservedAll, Messages;
    PumpPrinted(site, rs);
    WireIsFaithful(site, disk, ds, es, k);
    var d := ds[k];
    assert d.phase == Reading || d.phase == Finished ==> d.answered + [] == d.answered && Message(disk, d.w)[..0] == [];
    assert Messages(disk, d.answered) + [] == Messages(disk, d.answered);
  }

  /** And each response can be told from the next: a client finds its head, its length and whether the server goes on.
      */
  lemma DeservedIsFramed(site: Site, disk: Disk, r: R.Request)
    ensures var w := Deserved(site, r); Framed(Message(disk, w), |w.head|, w.PayloadLength(), w.linger)
  {
    hide Framed, DoRequest, Head, ContentType, ErrorPage, R.HostOf, R.LingerOf;
    var host, linger := R.HostOf(r.fields, ""), R.LingerOf(r.fields, r.http11);
    var res := if r.http11 && host == "" then NoFile(BadRequest) else DoRequest(site, r.url);
    var w := Deserved(site, r);
    ResponseIsFramed(res.code, r.url, linger, res, w.Payload(disk(w)));
  }

  // ---------- every run, bodies included ----------

  /** Waiting, the cursors are in order with no line break between them; the bytes fit the buffer; and a decided request
      has used some of them. */
  predicate CursorInv(d: Dialogue) {
    && d.p.Wf() && |d.p.buf| <= READ_BUFFER_SIZE
    && (d.phase == Reading ==> A.Cursors(d.p))
    && (d.phase in {Parsed, Responding} ==> d.p.start > 0)
  }

  lemma PreparedHasCursors(site: Site, d: Dialogue)
    requires A.Cursors(d.p) && |d.p.buf| <= READ_BUFFER_SIZE
    ensures CursorInv(Prepared(site, d)) && !A.RunTakesLoneLf(d.p, true)
  {
    hide Run, A.RunTakesLoneLf, Answer;
    A.RunKeepsCursors(d.p, true);
  }

  lemma StepKeepsCursors(site: Site, disk: Disk, d: Dialogue, e: Step)
    requires CursorInv(d) && Sound(disk, d) && Enabled(d, e)
    ensures CursorInv(Next(site, disk, d, e))
  {
    hide A.Cursors, Prepared, S.Write, A.RunTakesLoneLf;
    match e
    case Read(bytes) =>
      A.FeedKeepsCursors(d.p, bytes);
      PreparedHasCursors(site, Fed(d, bytes));
    case Business =>
    case Writable(script) =>
      A.ResetHasCursors(d.p);
      var n := Sent(site, disk, d, script);
      var to := S.Write(|d.w.head|, |Message(disk, d.w)|, d.off, script).1;
      PreparedHasCursors(site, d.(off := 0, answered := d.answered + [d.w], p := Reset(d.p),
                                  wire := d.wire + Message(disk, d.w)[d.off..to]));
  }

  lemma {:induction false} CursorsHold(site: Site, disk: Disk, ds: seq<Dialogue>, es: seq<Step>, k: nat)
    requires IsRun(site, disk, ds, es) && k <= |es|
    ensures |ds| == |es| + 1 && CursorInv(ds[k])
    decreases k
  {
    hide Next, Enabled, Sound, CursorInv;
    if k == 0 {
      assert CursorInv(ds[0]) by { BeginsWithCursors(ds[0]); }
    } else {
      CursorsHold(site, disk, ds, es, k - 1);
      RunStep(site, disk, ds, es, k - 1);
      StepKeepsCursors(site, disk, ds[k - 1], es[k - 1]);
    }
  }

  lemma BeginsWithCursors(d: Dialogue)
    requires Init(d)
    ensures CursorInv(d)
  {
  }

  /** In every state of every run, whatever is received: start <= checked <= read <= buffer size, and while the
      connection waits no CR or LF lies from the first to the second. */
  lemma CursorsInEveryRun(site: Site, disk: Disk, ds: seq<Dialogue>, es: seq<Step>, k: nat)
    requires IsRun(site, disk, ds, es) && k <= |es|
    ensures |ds| == |es| + 1
    ensures ds[k].p.start <= ds[k].p.checked <= |ds[k].p.buf| <= READ_BUFFER_SIZE
    ensures ds[k].phase == Reading ==> forall j :: ds[k].p.start <= j < ds[k].p.checked ==> !IsEol(ds[k].p.buf[j])
  {
    hide Next, Enabled, Sound, IsRun;
    CursorsHold(site, disk, ds, es, k);
  }

  /** And no line scan of any run takes the lone-LF branch: neither on an arrival nor behind a reset. */
  lemma LoneLfIsDeadInEveryRun(site: Site, disk: Disk, ds: seq<Dialogue>, es: seq<Step>, k: nat)
    requires IsRun(site, disk, ds, es) && k < |es|
    ensures |ds| == |es| + 1 && ds[k].p.Wf()
    ensures es[k].Read? ==> !A.RunTakesLoneLf(Feed(ds[k].p, es[k].bytes), true)
    ensures es[k].Writable? ==> !A.RunTakesLoneLf(Reset(ds[k].p), true)
  {
    CursorsHold(site, disk, ds, es, k);
    RunStep(site, disk, ds, es, k);
    hide IsRun, Next, Sound, A.RunTakesLoneLf;
    if es[k].Read? {
      A.FeedKeepsCursors(ds[k].p, es[k].bytes);
      A.RunKeepsCursors(Feed(ds[k].p, es[k].bytes), true);
    } else {
      A.ResetHasCursors(ds[k].p);
      A.RunKeepsCursors(Reset(ds[k].p), true);
    }
  }

  /** The terminator over every run: an arrival makes parse_body write behind the buffer if and only if it fills it, and
      either the body under way ends there with the text pointer at the scan, or a head ends in this call that with the
      body it declares comes to the size of the buffer. A request found behind a reset never does. */
  lemma TerminatorOverrunsIff(site: Site, disk: Disk, ds: seq<Dialogue>, es: seq<Step>, k: nat)
    requires IsRun(site, disk, ds, es) && k < |es|
    ensures |ds| == |es| + 1 && ds[k].p.Wf()
    ensures es[k].Read? ==>
      var p := Feed(ds[k].p, es[k].bytes);
      Overruns(p, READ_BUFFER_SIZE) <==>
        |p.buf| == READ_BUFFER_SIZE &&
        if p.check == Body then p.start == p.checked && p.checked + p.contentLength == READ_BUFFER_SIZE
        else B.HeadDone(p).Some? && B.HeadDone(p).value.checked + B.HeadDone(p).value.contentLength == READ_BUFFER_SIZE
    ensures es[k].Writable? ==> !Overruns(Reset(ds[k].p), READ_BUFFER_SIZE)
  {
    CursorsHold(site, disk, ds, es, k);
    RunStep(site, disk, ds, es, k);
    hide IsRun, Next, Sound, Overruns, A.Cursors, B.HeadDone;
    if es[k].Read? {
      var p := Feed(ds[k].p, es[k].bytes);
      if p.check == Body { B.BodyOverrunsIff(p, READ_BUFFER_SIZE); } else { B.OverrunsIff(p, READ_BUFFER_SIZE); }
    } else if es[k].Writable? {
      B.OverrunsIff(Reset(ds[k].p), READ_BUFFER_SIZE);
    }
  }

  lemma FirstRead(site: Site, disk: Disk, d: Dialogue, bytes: seq<char>) returns (ds: seq<Dialogue>, es: seq<Step>)
    requires Init(d) && |bytes| <= READ_BUFFER_SIZE
    ensures IsRun(site, disk, ds, es) && ds[0] == d && es == [Read(bytes)] && Feed(d.p, bytes) == Fresh(bytes)
  {
    assert Sound(disk, d) && Enabled(d, Read(bytes));
    hide Prepared;
    ds, es := [d, Next(site, disk, d, Read(bytes))], [Read(bytes)];
  }

  /** It happens: on the first arrival of a connection, with any 16343 bytes behind the head. */
  lemma TerminatorOverruns(site: Site, disk: Disk, d: Dialogue, body: string) returns (ds: seq<Dialogue>, es: seq<Step>)
    requires Init(d) && |body| == 16343
    ensures IsRun(site, disk, ds, es) && ds[0] == d && es == [Read(R.Print(B.FILLING) + body)]
    ensures d.p.Wf() && Overruns(Feed(d.p, R.Print(B.FILLING) + body), READ_BUFFER_SIZE)
  {
    hide Run, Terminator, R.Print, IsRun, Next, ProcessRead;
    B.FullBufferOverruns(body);
    ds, es := FirstRead(site, disk, d, R.Print(B.FILLING) + body);
  }
}
