/** One connection as a stream processor: parse, answer, reset, and go on with what is already buffered
    (deal_read and deal_write around prepare_io_read and reset_for_next). Buffer capacity is not modelled here. */
module HttpStreams {
  import opened CText
  import opened HttpParser
  import opened A = HttpArrivals
  import opened T = HttpRoundTrip
  import opened HttpResponse

  datatype Conn = Live(p: Parser) | Closed

  /** All requests that the buffered bytes complete, answered in turn; a response that does not keep the
      connection ends it. */
  function Pump(site: Site, p: Parser): (r: (seq<Response>, Conn))
    requires p.Wf()
    ensures r.1.Live? ==> r.1.p.Wf()
    decreases |p.buf|
  {
    var (c, q) := ProcessRead(p);
    if c == NoRequest then ([], Live(q))
    else
      var w := Answer(site, c, q);
      if !w.linger then ([w], Closed)
      else if Reset(q).buf == [] then ([w], Live(Reset(q)))
      else var (ws, k) := Pump(site, Reset(q)); ([w] + ws, k)
  }

  /** No request the buffered bytes complete or begin declares a body. */
  predicate BodyFree(site: Site, p: Parser)
    requires p.Wf()
    decreases |p.buf|
  {
    var (c, q) := ProcessRead(p);
    q.check != Body &&
    (c != NoRequest && Answer(site, c, q).linger && Reset(q).buf != [] ==> BodyFree(site, Reset(q)))
  }

  /** The connection over a whole series of arrivals; a closed one reads no more. */
  function Serve(site: Site, k: Conn, chunks: seq<seq<char>>): (seq<Response>, Conn)
    requires k.Live? ==> k.p.Wf()
    decreases |chunks|
  {
    if chunks == [] || k.Closed? then ([], k)
    else
      var (ws, k') := Pump(site, Feed(k.p, chunks[0]));
      var (more, k'') := Serve(site, k', chunks[1..]);
      (ws + more, k'')
  }

  // ---------- cutting a stream ----------

  lemma ResetFeed(q: Parser, more: seq<char>)
    requires q.Wf()
    ensures Reset(Feed(q, more)) == Feed(Reset(q), more)
  {
  }

  /** An empty connection pumps nothing. */
  lemma PumpEmpty(site: Site)
    ensures Pump(site, Fresh([])) == ([], Live(Fresh([]))) && BodyFree(site, Fresh([]))
  {
    assert ParseLine(Fresh([])) == (Open, Fresh([]));
  }

  lemma PumpTurn(site: Site, p: Parser)
    requires p.Wf() && ProcessRead(p).0 != NoRequest
    ensures var (c, q) := ProcessRead(p); var w := Answer(site, c, q);
      Pump(site, p) == if !w.linger then ([w], Closed) else ([w] + Pump(site, Reset(q)).0, Pump(site, Reset(q)).1)
  {
    hide Run, Answer;
    var (c, q) := ProcessRead(p);
    PumpEmpty(site);
    if Reset(q).buf == [] {
      assert Reset(q) == Fresh([]);
      assert [Answer(site, c, q)] + [] == [Answer(site, c, q)];
    }
  }

  lemma BodyFreeTurn(site: Site, p: Parser)
    requires p.Wf()
    ensures var (c, q) := ProcessRead(p);
      BodyFree(site, p) <==>
        q.check != Body && (c != NoRequest && Answer(site, c, q).linger ==> BodyFree(site, Reset(q)))
  {
    hide Run, Answer;
    var (c, q) := ProcessRead(p);
    PumpEmpty(site);
    assert Reset(q).buf == [] ==> Reset(q) == Fresh([]);
  }

  /** Pump sees a connection through process_read only. */
  lemma PumpSeesReads(site: Site, p: Parser, p': Parser)
    requires p.Wf() && p'.Wf() && ProcessRead(p) == ProcessRead(p')
    ensures Pump(site, p) == Pump(site, p') && BodyFree(site, p) == BodyFree(site, p')
  {
    hide Run, Answer;
  }

  lemma PumpWaits(site: Site, p: Parser)
    requires p.Wf() && ProcessRead(p).0 == NoRequest
    ensures Pump(site, p) == ([], Live(ProcessRead(p).1))
  {
    hide Run, Answer;
  }

  /** Pumping early and again later is pumping once. */
  lemma {:induction false} PumpFeed(site: Site, p: Parser, more: seq<char>)
    requires p.Wf() && p.check != Body && BodyFree(site, Feed(p, more))
    ensures var (ws, k) := Pump(site, p);
      if k.Closed? then Pump(site, Feed(p, more)) == (ws, Closed)
      else
        k.p.check != Body && BodyFree(site, Feed(k.p, more)) &&
        var (ws', k') := Pump(site, Feed(k.p, more));
        Pump(site, Feed(p, more)) == (ws + ws', k')
    decreases |p.buf|
  {
    hide Run, Answer, Pump, BodyFree;
    RunFeed(p, true, more);
    BodyFreeTurn(site, Feed(p, more));
    var (c, q) := ProcessRead(p);
    if c == NoRequest {
      PumpWaits(site, p);
      PumpSeesReads(site, Feed(p, more), Feed(q, more));
      assert [] + Pump(site, Feed(q, more)).0 == Pump(site, Feed(q, more)).0;
    } else {
      var w := Answer(site, c, q);
      AnswerFeed(site, c, q, more);
      ResetFeed(q, more);
      PumpTurn(site, p);
      PumpTurn(site, Feed(p, more));
      if w.linger {
        PumpFeed(site, Reset(q), more);
        var (ws, k) := Pump(site, Reset(q));
        if k.Live? {
          var ws' := Pump(site, Feed(k.p, more)).0;
          assert [w] + (ws + ws') == ([w] + ws) + ws';
        }
      }
    }
  }

  /** The answer does not look at the buffer. */
  lemma AnswerFeed(site: Site, c: HttpCode, q: Parser, more: seq<char>)
    requires c == BadRequest || c == GetRequest
    ensures Answer(site, c, Feed(q, more)) == Answer(site, c, q)
  {
    hide ProcessWrite, DoRequest;
  }

  lemma ConcatCons(chunks: seq<seq<char>>, p: Parser)
    requires chunks != []
    ensures Feed(p, Concat(chunks)) == Feed(Feed(p, chunks[0]), Concat(chunks[1..]))
  {
    assert p.buf + Concat(chunks) == (p.buf + chunks[0]) + Concat(chunks[1..]);
  }

  /** The responses to a body-free stream, and the state it leaves, do not depend on how its bytes arrive. */
  lemma {:induction false} StreamCutsDoNotMatter(site: Site, p: Parser, chunks: seq<seq<char>>)
    requires p.Wf() && p.check != Body && chunks != []
    requires BodyFree(site, Feed(p, Concat(chunks)))
    ensures Serve(site, Live(p), chunks) == Pump(site, Feed(p, Concat(chunks)))
    decreases |chunks|
  {
    hide Run, Answer, Pump, BodyFree;
    var f, rest := Feed(p, chunks[0]), Concat(chunks[1..]);
    ConcatCons(chunks, p);
    PumpFeed(site, f, rest);
    var (ws, k) := Pump(site, f);
    if |chunks| == 1 {
      assert Feed(f, rest) == f;
      assert ws + [] == ws;
    } else if k.Live? {
      StreamCutsDoNotMatter(site, k.p, chunks[1..]);
    } else {
      assert ws + [] == ws;
    }
  }

  // ---------- pipelining ----------

  predicate SameFrom(a: seq<char>, b: seq<char>, i: nat) {
    |a| == |b| && forall j :: i <= j < |a| ==> a[j] == b[j]
  }

  /** What process_read leaves from its cursor on is what was received: every byte it overwrites lies before. */
  lemma {:induction false} SuffixUntouched(p: Parser, lineOk: bool)
    requires p.Wf() && p.check != Body
    ensures var q := Run(p, lineOk).1; q.check != Body ==> SameFrom(q.buf, p.buf, q.start)
    decreases |p.buf| - p.checked
  {
    hide Run, Dispatch;
    RunUnfolds(p, lineOk);
    var (st, q) := ParseLine(p);
    if st.Ok? {
      assert SameFrom(q.buf, p.buf, q.checked) by {
        assert forall j :: q.checked <= j < |p.buf| ==> q.buf[j] == q.buf[q.checked..][j - q.checked];
        assert forall j :: q.checked <= j < |p.buf| ==> p.buf[j] == p.buf[q.checked..][j - q.checked];
      }
      LineEndsInNul(p);
      DispatchKeepsSuffix(q);
      var (c, n) := Dispatch(q);
      if c == NoRequest && n.check != Body {
        SuffixUntouched(n, true);
      }
    }
  }

  lemma DispatchKeepsSuffix(q: Parser)
    requires q.Wf() && q.checked > q.start && q.check != Body && q.buf[q.checked - 1] == NUL
    ensures SameFrom(Dispatch(q).1.buf, q.buf, q.checked)
  {
    hide ParseRequestLine, ParseHeader;
    var t := CStr(q.buf[q.start..]);
    assert |t| <= q.checked - 1 - q.start by {
      assert q.buf[q.start..][q.checked - 1 - q.start] == NUL;
      assert forall i :: 0 <= i < |t| ==> q.buf[q.start..][i] == t[i] && t[i] in t;
    }
  }

  /** `b` is one complete request without a body, to its last byte, that keeps the connection open. */
  predicate KeptAlive(site: Site, b: seq<char>) {
    var (c, q) := ProcessRead(Fresh(b));
    c != NoRequest && q.check != Body && q.start == |b| && Answer(site, c, q).linger
  }

  function AnswersTo(site: Site, bs: seq<seq<char>>): (ws: seq<Response>)
    requires forall b :: b in bs ==> KeptAlive(site, b)
    ensures |ws| == |bs|
  {
    if bs == [] then []
    else
      assert KeptAlive(site, bs[0]);
      var (c, q) := ProcessRead(Fresh(bs[0]));
      [Answer(site, c, q)] + AnswersTo(site, bs[1..])
  }

  /** Pipelining refines a list: buffered requests come out as if each had been alone, and what follows them
      is left exactly as received. */
  lemma {:induction false} PipelineIsAList(site: Site, bs: seq<seq<char>>, tail: seq<char>)
    requires forall b :: b in bs ==> KeptAlive(site, b)
    ensures var (ws, k) := Pump(site, Fresh(tail));
      Pump(site, Fresh(Concat(bs) + tail)) == (AnswersTo(site, bs) + ws, k)
    decreases |bs|
  {
    hide Run, Answer, Pump;
    if bs == [] {
      assert Concat(bs) + tail == tail;
      assert [] + Pump(site, Fresh(tail)).0 == Pump(site, Fresh(tail)).0;
    } else {
      var b, rest := bs[0], Concat(bs[1..]) + tail;
      assert KeptAlive(site, b);
      var (c, q) := ProcessRead(Fresh(b));
      assert b + rest == Concat(bs) + tail;
      assert Feed(Fresh(b), rest) == Fresh(Concat(bs) + tail);
      DecisionIsFinal(Fresh(b), rest);
      AnswerFeed(site, c, q, rest);
      ResetFeed(q, rest);
      assert Feed(Reset(q), rest) == Fresh(rest);
      PumpTurn(site, Fresh(Concat(bs) + tail));
      PipelineIsAList(site, bs[1..], tail);
      var as', ws := AnswersTo(site, bs[1..]), Pump(site, Fresh(tail)).0;
      assert [Answer(site, c, q)] + (as' + ws) == ([Answer(site, c, q)] + as') + ws;
    }
  }

  // ---------- printed requests, end to end ----------

  /** The answer a request deserves, from the request alone. */
  function Deserved(site: Site, r: Request): Response {
    var host, linger := HostOf(r.fields, ""), LingerOf(r.fields, r.http11);
    var res := if r.http11 && host == "" then NoFile(BadRequest) else DoRequest(site, r.url);
    ProcessWrite(res.code, r.url, linger, res).value
  }

  /** The answers to a list of requests, up to the first that ends the connection. */
  function DeservedAll(site: Site, rs: seq<Request>): (seq<Response>, bool) {
    if rs == [] then ([], true)
    else
      var w := Deserved(site, rs[0]);
      if !w.linger then ([w], false)
      else var (ws, open) := DeservedAll(site, rs[1..]); ([w] + ws, open)
  }

  function PrintAll(rs: seq<Request>): seq<char> {
    if rs == [] then [] else Print(rs[0]) + PrintAll(rs[1..])
  }

  lemma DeservedIsAnswer(site: Site, r: Request, c: HttpCode, q: Parser)
    requires c == (if r.http11 && HostOf(r.fields, "") == "" then BadRequest else GetRequest)
    requires q.url == r.url && q.linger == LingerOf(r.fields, r.http11)
    ensures Answer(site, c, q) == Deserved(site, r)
  {
    hide ProcessWrite, DoRequest, HostOf, LingerOf;
  }

  lemma {:induction false} PumpPrinted(site: Site, rs: seq<Request>)
    requires forall r :: r in rs ==> WfRequest(r)
    ensures var (ws, open) := DeservedAll(site, rs);
      Pump(site, Fresh(PrintAll(rs))) == (ws, if open then Live(Fresh([])) else Closed)
    ensures BodyFree(site, Fresh(PrintAll(rs)))
    decreases |rs|
  {
    hide Run, Answer, Pump, BodyFree, Deserved, Print;
    if rs == [] {
      PumpEmpty(site);
    } else {
      var b, rest := Print(rs[0]), PrintAll(rs[1..]);
      PrintThenParse(rs[0], "");
      assert b + "" == b;
      var (c, q) := ProcessRead(Fresh(b));
      assert Feed(Fresh(b), rest) == Fresh(PrintAll(rs));
      DecisionIsFinal(Fresh(b), rest);
      ResetFeed(q, rest);
      AnswerFeed(site, c, q, rest);
      assert Feed(Reset(q), rest) == Fresh(rest);
      PumpTurn(site, Fresh(PrintAll(rs)));
      BodyFreeTurn(site, Fresh(PrintAll(rs)));
      DeservedIsAnswer(site, rs[0], c, q);
      PumpPrinted(site, rs[1..]);
    }
  }

  /** End to end: any list of printed requests, sent back to back and cut into arrivals anyhow, gets the list of
      answers each request deserves by itself, in order, up to the first that ends the connection. */
  lemma PrintedStreamIsServed(site: Site, rs: seq<Request>, chunks: seq<seq<char>>)
    requires chunks != [] && Concat(chunks) == PrintAll(rs)
    requires forall r :: r in rs ==> WfRequest(r)
    ensures var (ws, open) := DeservedAll(site, rs);
      Serve(site, Live(Fresh([])), chunks) == (ws, if open then Live(Fresh([])) else Closed)
  {
    hide Run, Answer, Pump, BodyFree;
    PumpPrinted(site, rs);
    assert Feed(Fresh([]), Concat(chunks)) == Fresh(PrintAll(rs));
    StreamCutsDoNotMatter(site, Fresh([]), chunks);
  }
}
