/** Requests with a body: when one completes, for any bytes and any arrivals, and where its terminator is written. */
module HttpBodies {
  import opened CText
  import opened HttpParser
  import opened A = HttpArrivals
  import opened R = HttpRoundTrip

  // ---------- one look at a body ----------

  /** What a line scan of body bytes leaves unscanned: whole CRLFs are passed, any other line break stops it. */
  function Unscanned(t: seq<char>): (u: seq<char>)
    ensures |u| <= |t|
    decreases |t|
  {
    var k := Eol(t, 0);
    if CrLfAt(t, k) then Unscanned(t[k + 2..]) else t[k..]
  }

  /** In a body, with no CR just behind the scan. */
  predicate InBody(p: Parser) { p.Wf() && p.check == Body && p.buf[p.checked - 1] != '\r' }

  lemma InBodyIsWf(p: Parser)
    requires InBody(p)
    ensures p.Wf()
  {
  }

  lemma EolBehind(buf: seq<char>, i: nat)
    requires i <= |buf|
    ensures Eol(buf, i) == i + Eol(buf[i..], 0)
  {
    var k := Eol(buf[i..], 0);
    assert forall j :: i <= j < i + k ==> buf[j] == buf[i..][j - i];
    EolIs(buf, i, i + k);
  }

  /** A CRLF lies at `k`. */
  predicate CrLfAt(t: seq<char>, k: nat) { k + 1 < |t| && t[k] == '\r' && t[k + 1] == '\n' }

  /** What parse_line has made of a body whose unscanned bytes were `t`, their first line break at `k`. */
  predicate LineTaken(p: Parser, t: seq<char>, k: nat, st: LineStatus, q: Parser) {
    && k <= |t| && q.Wf() && |q.buf| == |p.buf|
    && if CrLfAt(t, k) then
         && st.Ok? && q == p.(buf := q.buf, checked := p.checked + k + 2) && q.buf[q.checked..] == t[k + 2..]
         && q.buf[q.checked - 1] == NUL
       else !st.Ok? && q == p.(checked := p.checked + k) && q.buf[q.checked..] == t[k..] && InBody(q)
  }

  lemma BodyLineAt(p: Parser, t: seq<char>, k: nat)
    requires InBody(p) && t == p.buf[p.checked..] && k <= |t| && (k < |t| ==> IsEol(t[k]))
    requires forall j :: 0 <= j < k ==> !IsEol(t[j])
    ensures LineTaken(p, t, k, LineAt(p, p.checked + k).0, LineAt(p, p.checked + k).1)
  {
    var at := p.checked + k;
    assert k < |t| ==> p.buf[at] == t[k];
    assert k + 1 < |t| ==> p.buf[at + 1] == t[k + 1];
    assert at > 0 && p.buf[at - 1] != '\r' by {
      if k > 0 { assert p.buf[at - 1] == t[k - 1]; }
    }
    assert p.buf[at..] == t[k..];
    if CrLfAt(t, k) { assert p.buf[at + 2..] == t[k + 2..]; }
  }

  /** parse_line inside a body. */
  lemma BodyLine(p: Parser)
    requires InBody(p)
    ensures var t := p.buf[p.checked..]; LineTaken(p, t, Eol(t, 0), ParseLine(p).0, ParseLine(p).1)
  {
    hide LineAt, LineTaken, Eol, InBody;
    assert p.Wf() by { InBodyIsWf(p); }
    var t := p.buf[p.checked..];
    var k := Eol(t, 0);
    EolBehind(p.buf, p.checked);
    assert ParseLine(p) == LineAt(p, p.checked + k);
    hide ParseLine;
    BodyLineAt(p, t, k);
  }

  /** parse_body from the loop. */
  lemma BodyDispatch(p: Parser)
    requires p.Wf() && p.check == Body
    ensures if |p.buf| >= p.checked + p.contentLength then Dispatch(p).0 == GetRequest
            else Dispatch(p) == (NoRequest, p.(start := p.checked))
  {
  }

  lemma TurnUnfolds(p: Parser)
    requires p.Wf() && p.check == Body
    ensures var (c, n) := Dispatch(p);
      && Run(p, true) == (if c != NoRequest then (c, n) else Run(n, false))
      && Terminator(p, true) == if c != NoRequest then Some(p.start + p.contentLength) else Terminator(n, false)
  {
    hide Dispatch, ParseLine;
  }

  lemma ScanUnfolds(p: Parser)
    requires p.Wf() && p.check == Body && |p.buf| < p.checked + p.contentLength
    ensures var (st, q) := ParseLine(p); var n := q.(start := q.checked);
      if !st.Ok? then Run(p, false) == (NoRequest, q) && Terminator(p, false) == None
      else n.Wf() && Run(p, false) == Run(n, false) && Terminator(p, false) == Terminator(n, false)
  {
    hide LineAt;
    var (st, q) := ParseLine(p);
    if st.Ok? {
      BodyDispatch(q);
      hide Dispatch;
    }
  }

  /** Where a look at a body leaves it: nothing decided, and of the unscanned bytes those a line scan leaves. */
  predicate Looked(p: Parser, r: (HttpCode, Parser)) {
    && p.Wf() && r.0 == NoRequest && InBody(r.1) && r.1.contentLength == p.contentLength && |r.1.buf| == |p.buf|
    && r.1.buf[r.1.checked..] == Unscanned(p.buf[p.checked..])
  }

  lemma LookedOn(p: Parser, n: Parser, r: (HttpCode, Parser))
    requires InBody(p) && LineTaken(p, p.buf[p.checked..], Eol(p.buf[p.checked..], 0), Ok, n)
    requires Looked(n.(start := n.checked), r)
    ensures Looked(p, r)
  {
  }

  lemma LookedAll(p: Parser, st: LineStatus, q: Parser)
    requires InBody(p) && !st.Ok? && LineTaken(p, p.buf[p.checked..], Eol(p.buf[p.checked..], 0), st, q)
    ensures Looked(p, (NoRequest, q))
  {
    hide Eol;
  }

  /** Behind an incomplete turn in the body the loop scans on: it never completes the body in this call. */
  lemma {:induction false} BodyScan(p: Parser)
    requires InBody(p) && |p.buf| < p.checked + p.contentLength
    ensures Looked(p, Run(p, false)) && Terminator(p, false) == None
    decreases |p.buf| - p.checked
  {
    BodyLine(p);
    ScanUnfolds(p);
    hide ParseLine, Run, Terminator, Eol, Unscanned, Looked;
    var (st, q) := ParseLine(p);
    if st.Ok? {
      BodyScan(q.(start := q.checked));
      LookedOn(p, q, Run(q.(start := q.checked), false));
    } else {
      LookedAll(p, st, q);
    }
  }

  /** process_read inside a body: it completes exactly when the bytes behind the scan reach the declared length, and
      otherwise leaves of them only what a line scan does. */
  lemma BodyTurn(p: Parser)
    requires InBody(p)
    ensures
      if |p.buf| - p.checked >= p.contentLength then
        ProcessRead(p).0 == GetRequest && Terminator(p, true) == Some(p.start + p.contentLength)
      else Looked(p, ProcessRead(p)) && Terminator(p, true) == None
  {
    BodyDispatch(p);
    TurnUnfolds(p);
    hide Dispatch, Run, Terminator, Looked;
    var q := p.(start := p.checked);
    if Dispatch(p).0 == NoRequest {
      BodyScan(q);
      LookIgnoresStart(p, q, Run(q, false));
    }
  }

  lemma LookIgnoresStart(p: Parser, q: Parser, r: (HttpCode, Parser))
    requires p.Wf() && q == p.(start := p.checked) && Looked(q, r)
    ensures Looked(p, r)
  {
  }

  // ---------- over arrivals ----------

  /** Whether arrivals complete a body of `n` bytes of which `tail` is still unscanned. */
  predicate Completes(n: nat, tail: seq<char>, chunks: seq<seq<char>>)
    decreases |chunks|
  {
    chunks != [] && (|tail + chunks[0]| >= n || Completes(n, Unscanned(tail + chunks[0]), chunks[1..]))
  }

  /** When a body completes, whatever its bytes and however they arrive. */
  lemma {:induction false} BodyCompletesIff(p: Parser, chunks: seq<seq<char>>)
    requires InBody(p) && chunks != []
    ensures Arrive(p, chunks).0 ==
      if Completes(p.contentLength, p.buf[p.checked..], chunks) then GetRequest else NoRequest
    decreases |chunks|
  {
    hide Run, Terminator, Unscanned;
    var f := Feed(p, chunks[0]);
    assert f.buf[f.checked..] == p.buf[p.checked..] + chunks[0];
    BodyTurn(f);
    var (c, q) := ProcessRead(f);
    if c == NoRequest && |chunks| > 1 {
      BodyCompletesIff(q, chunks[1..]);
    }
  }

  predicate NoEol(s: seq<char>) { forall i :: 0 <= i < |s| ==> !IsEol(s[i]) }

  lemma {:induction false} OneArrivalIff(n: nat, chunks: seq<seq<char>>)
    requires forall c :: c in chunks ==> NoEol(c)
    ensures Completes(n, [], chunks) <==> exists c :: c in chunks && |c| >= n
    decreases |chunks|
  {
    if chunks != [] {
      assert [] + chunks[0] == chunks[0] && chunks[0] in chunks;
      EolIs(chunks[0], 0, |chunks[0]|);
      assert Unscanned(chunks[0]) == [];
      OneArrivalIff(n, chunks[1..]);
      assert chunks == [chunks[0]] + chunks[1..];
    }
  }

  /** Bodies are not independent of their arrival: without line breaks, one completes exactly when one single arrival
      brings as many bytes as the whole body has. */
  lemma BodyNeedsOneArrival(p: Parser, chunks: seq<seq<char>>)
    requires InBody(p) && p.checked == |p.buf| && chunks != []
    requires forall c :: c in chunks ==> NoEol(c)
    ensures Arrive(p, chunks).0 == (if exists c :: c in chunks && |c| >= p.contentLength then GetRequest else NoRequest)
  {
    BodyCompletesIff(p, chunks);
    OneArrivalIff(p.contentLength, chunks);
  }

  // ---------- from the first byte of the request ----------

  /** A head that declares a body, and is not refused. */
  predicate DeclaresBody(r: Request) {
    WfHead(r) && LengthOf(r.fields, 0) > 0 && (r.http11 ==> HostOf(r.fields, "") != "")
  }

  /** A printed head that declares a body comes to its body, with the bytes behind it unscanned. */
  lemma BodyBegins(r: Request, rest: string) returns (b: Parser)
    requires DeclaresBody(r)
    ensures ComesTo(Fresh(Print(r) + rest), b) && InBody(b) && b.contentLength == LengthOf(r.fields, 0)
    ensures b.start == b.checked == |Print(r)| && |b.buf| == |Print(r)| + |rest| && b.buf[b.checked..] == rest
  {
    hide Run, Terminator, WfField;
    var n := ParseHead(r, rest);
    EndHead(n, rest);
    var q := ParseLine(n).1;
    b := q.(start := q.checked, check := Body);
    assert r.http11 || Version(r) != "HTTP/1.1" by { assert "HTTP/1.0"[7] != "HTTP/1.1"[7]; }
  }

  /** A whole request with a body, from its first byte: it completes if and only if its body does. */
  lemma PrintedBodyCompletesIff(r: Request, first: string, chunks: seq<seq<char>>)
    requires DeclaresBody(r)
    ensures Arrive(Fresh([]), [Print(r) + first] + chunks).0 ==
      if Completes(LengthOf(r.fields, 0), [], [first] + chunks) then GetRequest else NoRequest
  {
    hide Run, Terminator, Print, WfHead, LengthOf;
    var all := [Print(r) + first] + chunks;
    assert all[0] == Print(r) + first && all[1..] == chunks;
    assert Feed(Fresh([]), all[0]) == Fresh(Print(r) + first);
    var b := BodyBegins(r, first);
    BodyTurn(b);
    assert [] + first == first && ([first] + chunks)[1..] == chunks;
    var (c, q) := ProcessRead(b);
    if c == NoRequest && chunks != [] {
      BodyCompletesIff(q, chunks);
    }
  }

  /** So a body cut in two stalls although the same bytes in one piece complete it. */
  lemma BodyCutInTwoStalls(r: Request, a: string, b: string)
    requires DeclaresBody(r) && NoEol(a) && NoEol(b)
    requires a != [] && b != [] && |a| + |b| == LengthOf(r.fields, 0)
    ensures Arrive(Fresh([]), [Print(r) + (a + b)]).0 == GetRequest
    ensures Arrive(Fresh([]), [Print(r) + a, b]).0 == NoRequest
  {
    hide Arrive, Print, WfHead, Completes;
    var n := LengthOf(r.fields, 0);
    PrintedBodyCompletesIff(r, a + b, []);
    PrintedBodyCompletesIff(r, a, [b]);
    assert [Print(r) + (a + b)] + [] == [Print(r) + (a + b)] && [a + b] + [] == [a + b];
    assert [Print(r) + a] + [b] == [Print(r) + a, b] && [a] + [b] == [a, b];
    assert NoEol(a + b);
    OneArrivalIff(n, [a + b]);
    OneArrivalIff(n, [a, b]);
    assert a + b in [a + b];
  }

  // ---------- where the terminator is written ----------

  /** Where a process_read that starts before the body gets to it: behind the head, before any look at the body. */
  function HeadDone(p: Parser): (b: Option<Parser>)
    requires p.Wf()
    ensures b.Some? ==> b.value.Wf() && b.value.check == Body && |b.value.buf| == |p.buf|
    ensures b.Some? && p.check != Body ==> b.value.start == b.value.checked
    decreases |p.buf| - p.checked
  {
    if p.check == Body then Some(p)
    else
      var (st, q) := ParseLine(p);
      if !st.Ok? then None
      else
        var (c, n) := Dispatch(q);
        if c != NoRequest then None else HeadDone(n)
  }

  lemma {:induction false} NoTerminatorBehind(p: Parser)
    requires p.Wf() && p.check == Body && |p.buf| < p.checked + p.contentLength
    ensures Terminator(p, false) == None
    decreases |p.buf| - p.checked
  {
    ScanUnfolds(p);
    var (st, q) := ParseLine(p);
    hide Terminator, Run;
    if st.Ok? {
      NoTerminatorBehind(q.(start := q.checked));
    }
  }

  /** Inside a body: behind the buffer if and only if the buffer is full, the body ends on its last byte, and the text
      pointer stands where the scan does. */
  lemma BodyOverrunsIff(p: Parser, size: nat)
    requires p.Wf() && p.check == Body && |p.buf| <= size
    ensures Overruns(p, size) <==> |p.buf| == size && p.start == p.checked && p.checked + p.contentLength == size
  {
    BodyDispatch(p);
    TurnUnfolds(p);
    hide Dispatch, Run, Terminator;
    var (c, n) := Dispatch(p);
    if c == NoRequest {
      NoTerminatorBehind(n);
    }
  }

  lemma {:induction false} TerminatorFromHead(p: Parser)
    requires p.Wf() && p.check != Body
    ensures Terminator(p, true) == match HeadDone(p) case None => None case Some(b) => Terminator(b, true)
    decreases |p.buf| - p.checked
  {
    var (st, q) := ParseLine(p);
    if st.Ok? {
      var (c, n) := Dispatch(q);
      if c == NoRequest && n.check != Body { TerminatorFromHead(n); }
    }
  }

  /** From before the body: process_read writes behind the buffer if and only if the buffer is full and the head and the
      body it declares fill it exactly. */
  lemma OverrunsIff(p: Parser, size: nat)
    requires p.Wf() && p.check != Body && |p.buf| <= size
    ensures Overruns(p, size) <==>
      |p.buf| == size && HeadDone(p).Some? && HeadDone(p).value.checked + HeadDone(p).value.contentLength == size
  {
    hide Terminator;
    TerminatorFromHead(p);
    match HeadDone(p)
    case None =>
    case Some(b) => BodyOverrunsIff(b, size);
  }

  /** For a printed head with any bytes behind it that the buffer holds. */
  lemma PrintedOverrunsIff(r: Request, rest: string, size: nat)
    requires WfHead(r) && |Print(r)| + |rest| <= size
    ensures Overruns(Fresh(Print(r) + rest), size) <==>
      DeclaresBody(r) && |Print(r)| + LengthOf(r.fields, 0) == size && |rest| == LengthOf(r.fields, 0)
  {
    hide Run, Terminator, Print, WfField, LengthOf;
    if DeclaresBody(r) {
      var b := BodyBegins(r, rest);
      BodyOverrunsIff(b, size);
      assert Overruns(Fresh(Print(r) + rest), size) == Overruns(b, size);
    } else {
      var n := ParseHead(r, rest);
      EndHead(n, rest);
    }
  }

  /** GET / HTTP/1.0 with a Content-Length of 16343. */
  const FILLING := Request("/", false, [Field("Content-Length", "16343")])

  lemma DigitsOfLength()
    ensures ContentLength("16343") == Some(16343)
  {
    var t: string := "16343";
    assert t[..4] == "1634" && t[..4][..3] == "163" && t[..4][..3][..2] == "16" && t[..4][..3][..2][..1] == "1";
    assert Decimal("1") == 1 && Decimal("16") == 16 && Decimal("163") == 163;
    assert Decimal("1634") == 1634 && Decimal(t) == 16343;
  }

  lemma FillingField()
    ensures WfField(FILLING.fields[0]) && LengthOf(FILLING.fields, 0) == 16343
  {
    var f := FILLING.fields[0];
    DigitsOfLength();
    hide ContentLength;
    LastOfOne(f, "Content-Length");
    assert f.name == "Content-Length" && f.value == "16343" && EqNoCase(f.name, "Content-Length");
  }

  lemma FillingHead()
    ensures DeclaresBody(FILLING) && LengthOf(FILLING.fields, 0) == 16343 && |Print(FILLING)| == 41
  {
    FillingField();
    hide LengthOf, WfField;
    assert FILLING.fields == [FILLING.fields[0]];
    assert Plain("/") && forall c :: c in "/" ==> !IsBlank(c);
    assert |RequestLineOf(FILLING)| == 14;
    assert FILLING.fields[1..] == [] && |FieldLine(FILLING.fields[0])| == 21;
    assert |PrintFields(FILLING.fields)| == 23;
  }

  /** A full first read that is such a head with any bytes behind it: the terminator is written one byte behind the
      buffer. */
  lemma FullBufferOverruns(body: string)
    requires |body| == 16343
    ensures |Print(FILLING) + body| == READ_BUFFER_SIZE
    ensures ProcessRead(Fresh(Print(FILLING) + body)).0 == GetRequest
    ensures Terminator(Fresh(Print(FILLING) + body), true) == Some(READ_BUFFER_SIZE)
  {
    FillingHead();
    hide Run, Terminator, Print, LengthOf, WfHead;
    var b := BodyBegins(FILLING, body);
    BodyTurn(b);
  }
}
