/** How the parser behaves over arrivals: a request without a body parses the same however its bytes are cut, its
    cursors stay in order, and scanning is linear. */
module HttpArrivals {
  import opened CText
  import opened HttpParser

  // ---------- more bytes behind the scan ----------

  lemma EolIs(buf: seq<char>, i: nat, k: nat)
    requires i <= k <= |buf|
    requires forall j :: i <= j < k ==> !IsEol(buf[j])
    requires k < |buf| ==> IsEol(buf[k])
    ensures Eol(buf, i) == k
  {
    var e := Eol(buf, i);
  }

  lemma EolFeed(buf: seq<char>, more: seq<char>, i: nat)
    requires i <= |buf|
    ensures Eol(buf, i) < |buf| ==> Eol(buf + more, i) == Eol(buf, i)
    ensures Eol(buf, i) == |buf| ==> Eol(buf + more, i) == Eol(buf + more, |buf|)
  {
    var k := Eol(buf, i);
    if k < |buf| {
      EolIs(buf + more, i, k);
    } else {
      EolIs(buf + more, i, Eol(buf + more, |buf|));
    }
  }

  lemma UpdateFeed(buf: seq<char>, more: seq<char>, k: nat, c: char)
    requires k < |buf|
    ensures (buf + more)[k := c] == buf[k := c] + more
  {
  }

  lemma BlotFeed(buf: seq<char>, more: seq<char>, k: nat)
    requires k + 1 < |buf|
    ensures Blot(buf + more, k) == Blot(buf, k) + more
  {
  }

  lemma DecidedLineFeed(p: Parser, more: seq<char>, k: nat)
    requires p.Wf() && p.checked <= k < |p.buf| && IsEol(p.buf[k])
    requires !LineAt(p, k).0.Open?
    ensures LineAt(Feed(p, more), k) == (LineAt(p, k).0, Feed(LineAt(p, k).1, more))
  {
    var f := Feed(p, more);
    assert forall j :: 0 <= j < |p.buf| ==> f.buf[j] == p.buf[j];
    if p.buf[k] == '\r' && k + 1 < |p.buf| {
      BlotFeed(p.buf, more, k);
    } else if k >= 1 && p.buf[k] == '\n' {
      BlotFeed(p.buf, more, k - 1);
    }
  }

  lemma LineAtElsewhere(p: Parser, c: nat, k: nat)
    requires p.Wf() && p.checked <= c <= k <= |p.buf|
    requires k < |p.buf| ==> IsEol(p.buf[k])
    ensures LineAt(p.(checked := c), k) == LineAt(p, k)
  {
  }

  /** A finished scan keeps its answer; an unfinished one goes on where it stopped. */
  lemma LineFeed(p: Parser, more: seq<char>)
    requires p.Wf()
    ensures var r, r' := ParseLine(p), ParseLine(Feed(p, more));
      if r.0.Open? then ParseLine(Feed(r.1, more)) == r' else r' == (r.0, Feed(r.1, more))
  {
    var k := Eol(p.buf, p.checked);
    EolFeed(p.buf, more, p.checked);
    if !LineAt(p, k).0.Open? {
      DecidedLineFeed(p, more, k);
    } else {
      if k < |p.buf| { EolIs(p.buf + more, k, k); }
      LineAtElsewhere(Feed(p, more), k, Eol(p.buf + more, k));
      assert Feed(p, more).(checked := k) == Feed(p.(checked := k), more);
    }
  }

  lemma RequestLineFeed(p: Parser, more: seq<char>, at: nat, t: string)
    requires at + |t| <= |p.buf|
    ensures var r := ParseRequestLine(p, at, t);
      ParseRequestLine(Feed(p, more), at, t) == (r.0, Feed(r.1, more))
  {
    var i := IndexFrom(t, 0, ' ');
    if i < |t| {
      UpdateFeed(p.buf, more, at + i, NUL);
      var j := IndexFrom(t, i + 1, ' ');
      if j < |t| {
        UpdateFeed(p.buf[at + i := NUL], more, at + j, NUL);
      }
    }
  }

  lemma HeaderFeed(p: Parser, more: seq<char>, t: string)
    ensures var r := ParseHeader(p, t);
      ParseHeader(Feed(p, more), t) == (r.0, Feed(r.1, more))
  {
  }

  lemma DispatchFeed(p: Parser, more: seq<char>)
    requires p.Wf() && p.checked > 0 && p.check != Body && NUL in p.buf[p.start..]
    ensures var r := Dispatch(p); Dispatch(Feed(p, more)) == (r.0, Feed(r.1, more))
  {
    assert Feed(p, more).buf[p.start..] == p.buf[p.start..] + more;
    CStrStopsAtNul(p.buf[p.start..], more);
    var q, t := p.(start := p.checked), CStr(p.buf[p.start..]);
    assert Feed(p, more).(start := p.checked) == Feed(q, more);
    if p.check == RequestLine {
      RequestLineFeed(q, more, p.start, t);
    } else {
      HeaderFeed(q, more, t);
    }
  }

  lemma LineEndsInNul(p: Parser)
    requires p.Wf() && ParseLine(p).0.Ok?
    ensures var q := ParseLine(p).1; NUL in q.buf[q.start..]
  {
    var q := ParseLine(p).1;
    assert q.buf[q.start..][q.checked - 1 - q.start] == NUL;
  }

  lemma BadLineStays(p: Parser, more: seq<char>)
    requires p.Wf() && p.check != Body && ParseLine(p).0.Bad?
    ensures var q := Feed(ParseLine(p).1, more);
      ProcessRead(Feed(p, more)) == (NoRequest, q) && q.check != Body && ParseLine(q) == (Bad, q)
  {
    LineFeed(p, more);
    var q := Feed(ParseLine(p).1, more);
    EolIs(q.buf, q.checked, q.checked);
    LineAtElsewhere(Feed(p, more), q.checked, q.checked);
    assert Feed(p, more).(checked := q.checked) == q;
  }

  /** The loop on a connection that is not in the body: scan a line, handle it, go on. */
  lemma RunUnfolds(p: Parser, lineOk: bool)
    requires p.Wf() && p.check != Body
    ensures var (st, q) := ParseLine(p);
      Run(p, lineOk) ==
        if !st.Ok? then (NoRequest, q)
        else if Dispatch(q).0 != NoRequest then Dispatch(q)
        else Run(Dispatch(q).1, true)
  {
  }

  /** One call on `buf` and then one on `buf + more` end as a single call on `buf + more`, unless a body starts. */
  lemma {:induction false} RunFeed(p: Parser, lineOk: bool, more: seq<char>)
    requires p.Wf() && p.check != Body
    ensures var r, r' := Run(p, lineOk), Run(Feed(p, more), lineOk);
      if r.1.check == Body then r'.1.check == Body
      else if r.0 == NoRequest then Run(Feed(r.1, more), true) == r'
      else r' == (r.0, Feed(r.1, more))
    decreases |p.buf| - p.checked
  {
    LineFeed(p, more);
    var (st, q) := ParseLine(p);
    RunUnfolds(p, lineOk);
    RunUnfolds(Feed(p, more), lineOk);
    if st.Open? {
      RunUnfolds(Feed(q, more), true);
    } else if st.Bad? {
      BadLineStays(p, more);
    } else {
      LineEndsInNul(p);
      DispatchFeed(q, more);
      var (c, n) := Dispatch(q);
      if c == NoRequest && n.check != Body {
        RunFeed(n, true, more);
      }
    }
  }

  // ---------- arrivals ----------

  function Concat(chunks: seq<seq<char>>): seq<char> {
    if chunks == [] then [] else chunks[0] + Concat(chunks[1..])
  }

  /** process_read after every arrival, until it decides; what arrives later only lengthens the buffer. */
  function Arrive(p: Parser, chunks: seq<seq<char>>): (r: (HttpCode, Parser))
    requires p.Wf() && chunks != []
    decreases |chunks|
  {
    var (c, q) := ProcessRead(Feed(p, chunks[0]));
    if c != NoRequest then (c, Feed(q, Concat(chunks[1..])))
    else if |chunks| == 1 then (c, q)
    else Arrive(q, chunks[1..])
  }

  /** Cut independence: the same decision, fields, cursors and buffer as one call on the whole. */
  lemma {:induction false} ArrivalsDoNotMatter(p: Parser, chunks: seq<seq<char>>)
    requires p.Wf() && p.check != Body && chunks != []
    requires ProcessRead(Feed(p, Concat(chunks))).1.check != Body
    ensures Arrive(p, chunks) == ProcessRead(Feed(p, Concat(chunks)))
    decreases |chunks|
  {
    var f, rest := Feed(p, chunks[0]), Concat(chunks[1..]);
    assert Feed(f, rest) == Feed(p, Concat(chunks));
    RunFeed(f, true, rest);
    var (c, q) := ProcessRead(f);
    if |chunks| == 1 {
      assert f == Feed(p, Concat(chunks));
      assert Feed(q, rest) == q;
    } else if c == NoRequest {
      ArrivalsDoNotMatter(q, chunks[1..]);
    }
  }

  /** A decision is final: extra bytes never change it. */
  lemma DecisionIsFinal(p: Parser, more: seq<char>)
    requires p.Wf() && p.check != Body
    requires ProcessRead(p).0 != NoRequest && ProcessRead(p).1.check != Body
    ensures ProcessRead(Feed(p, more)) == (ProcessRead(p).0, Feed(ProcessRead(p).1, more))
  {
    RunFeed(p, true, more);
  }

  /** A connection whose scan stopped at a bad line break never decides, whatever arrives and however. */
  lemma {:induction false} BadLineIsStuck(p: Parser, chunks: seq<seq<char>>)
    requires p.Wf() && p.check != Body && chunks != [] && ParseLine(p).0.Bad?
    ensures Arrive(p, chunks) == (NoRequest, Feed(ParseLine(p).1, Concat(chunks)))
    decreases |chunks|
  {
    BadLineStays(p, chunks[0]);
    var q := ParseLine(p).1;
    var f := Feed(q, chunks[0]);
    assert Feed(f, Concat(chunks[1..])) == Feed(q, Concat(chunks));
    if |chunks| == 1 {
      assert Feed(f, Concat(chunks[1..])) == f;
    } else {
      BadLineIsStuck(f, chunks[1..]);
    }
  }

  // ---------- cursors ----------

  /** No line break is left behind the scan, so the byte just before it is no CR. */
  predicate Cursors(p: Parser) {
    && p.Wf()
    && (forall j :: p.start <= j < p.checked ==> !IsEol(p.buf[j]))
    && (p.checked > 0 ==> p.buf[p.checked - 1] != '\r')
  }

  /** parse_line would take its branch for a lone LF behind a CR that an earlier call left. */
  predicate TakesLoneLf(p: Parser)
    requires p.Wf()
  {
    var k := Eol(p.buf, p.checked);
    k < |p.buf| && p.buf[k] == '\n' && k >= 1 && p.buf[k - 1] == '\r'
  }

  /** Some parse_line of a process_read takes it. */
  predicate RunTakesLoneLf(p: Parser, lineOk: bool)
    requires p.Wf()
    decreases |p.buf| - p.checked, if p.check == Body && lineOk then 1 else 0
  {
    if p.check == Body && lineOk then
      var (c, n) := Dispatch(p);
      c == NoRequest && RunTakesLoneLf(n, false)
    else
      TakesLoneLf(p) ||
      var (st, q) := ParseLine(p);
      st.Ok? &&
      var (c, n) := Dispatch(q);
      c == NoRequest && RunTakesLoneLf(n, q.check != Body)
  }

  lemma LoneLfBranchIsDead(p: Parser)
    requires Cursors(p)
    ensures !TakesLoneLf(p)
  {
    var k := Eol(p.buf, p.checked);
    if k < |p.buf| && k > p.checked {
      assert !IsEol(p.buf[k - 1]);
    }
  }

  lemma FeedKeepsCursors(p: Parser, more: seq<char>)
    requires Cursors(p)
    ensures Cursors(Feed(p, more))
  {
  }

  /** A reset starts afresh, whatever a completed body has left. */
  lemma ResetHasCursors(p: Parser)
    requires p.Wf()
    ensures Cursors(Reset(p))
  {
  }

  lemma LineKeepsCursors(p: Parser)
    requires Cursors(p)
    ensures var r := ParseLine(p);
      if r.0.Ok? then r.1.checked >= p.start + 2 && r.1.buf[r.1.checked - 1] == r.1.buf[r.1.checked - 2] == NUL
      else Cursors(r.1)
  {
    LoneLfBranchIsDead(p);
    var k := Eol(p.buf, p.checked);
    assert k > p.checked ==> !IsEol(p.buf[k - 1]);
  }

  lemma DispatchKeepsCursors(p: Parser)
    requires p.Wf() && p.checked > 0 && p.buf[p.checked - 1] != '\r'
    requires p.check != Body ==>
      p.checked >= p.start + 2 && p.buf[p.checked - 1] == p.buf[p.checked - 2] == NUL
    ensures Dispatch(p).0 == NoRequest || p.check != Body ==> Cursors(Dispatch(p).1)
  {
    if p.check == RequestLine {
      var t := CStr(p.buf[p.start..]);
      assert forall j :: 0 <= j < |t| ==> p.buf[p.start + j] == t[j] != NUL;
    }
  }

  /** Every call of process_read keeps the cursors in order: start <= checked <= read, and no line break lies between;
      and none of its line scans takes the lone-LF branch. (A completed body may be the exception to the first: its
      terminator is written behind the scan, and a reset follows.) */
  lemma {:induction false} RunKeepsCursors(p: Parser, lineOk: bool)
    requires Cursors(p)
    ensures Run(p, lineOk).1.check != Body || Run(p, lineOk).0 == NoRequest ==> Cursors(Run(p, lineOk).1)
    ensures !RunTakesLoneLf(p, lineOk)
    decreases |p.buf| - p.checked, if p.check == Body && lineOk then 1 else 0
  {
    hide TakesLoneLf, LineAt;
    if p.check == Body && lineOk {
      DispatchKeepsCursors(p);
      var (c, n) := Dispatch(p);
      if c == NoRequest { RunKeepsCursors(n, false); }
    } else {
      LoneLfBranchIsDead(p);
      LineKeepsCursors(p);
      var (st, q) := ParseLine(p);
      if st.Ok? {
        DispatchKeepsCursors(q);
        var (c, n) := Dispatch(q);
        if c == NoRequest { RunKeepsCursors(n, q.check != Body); }
      }
    }
  }

  // ---------- cost ----------

  /** Loop iterations parse_line makes during one process_read. */
  function RunCost(p: Parser, lineOk: bool): nat
    requires p.Wf()
    decreases |p.buf| - p.checked, if p.check == Body && lineOk then 1 else 0
  {
    if p.check == Body && lineOk then
      var (c, n) := Dispatch(p);
      if c != NoRequest then 0 else RunCost(n, false)
    else
      ScanCost(p) +
      var (st, q) := ParseLine(p);
      if !st.Ok? then 0
      else
        var (c, n) := Dispatch(q);
        if c != NoRequest then 0 else RunCost(n, q.check != Body)
  }

  /** Scanning is linear: a call looks at each byte it passes once, and at one more at most. */
  lemma {:induction false} ScanIsLinear(p: Parser, lineOk: bool)
    requires p.Wf()
    ensures RunCost(p, lineOk) <= Run(p, lineOk).1.checked - p.checked + 1
    decreases |p.buf| - p.checked, if p.check == Body && lineOk then 1 else 0
  {
    if p.check == Body && lineOk {
      var (c, n) := Dispatch(p);
      if c == NoRequest { ScanIsLinear(n, false); }
    } else {
      var (st, q) := ParseLine(p);
      if st.Ok? {
        var (c, n) := Dispatch(q);
        if c == NoRequest { ScanIsLinear(n, q.check != Body); }
      }
    }
  }

  function ArriveCost(p: Parser, chunks: seq<seq<char>>): nat
    requires p.Wf()
    decreases |chunks|
  {
    if chunks == [] then 0
    else
      var f := Feed(p, chunks[0]);
      var (c, q) := ProcessRead(f);
      RunCost(f, true) + if c != NoRequest then 0 else ArriveCost(q, chunks[1..])
  }

  /** Over all calls for one request, bodies included: at most the bytes received plus one per call. */
  lemma {:induction false} ArrivalsAreLinear(p: Parser, chunks: seq<seq<char>>)
    requires p.Wf()
    ensures ArriveCost(p, chunks) <= |p.buf| - p.checked + |Concat(chunks)| + |chunks|
    decreases |chunks|
  {
    if chunks != [] {
      var f := Feed(p, chunks[0]);
      ScanIsLinear(f, true);
      ArrivalsAreLinear(ProcessRead(f).1, chunks[1..]);
    }
  }
}
