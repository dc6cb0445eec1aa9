/** What http_conn's parser does to one connection, as functions on values: the line scanner
    (parse_line), the three line handlers and the loop that drives them (process_read).
    HttpConn proves that the in-place code computes exactly these functions. */
module HttpParser {
  import opened CText

  const READ_BUFFER_SIZE: nat := 16384

  datatype CheckState = RequestLine | Header | Body

  datatype LineStatus = Ok | Bad | Open

  datatype HttpCode =
    | NoRequest
    | GetRequest
    | BadRequest
    | NoResource
    | ForbiddenRequest
    | FileRequest
    | InternalError

  /** `buf` is m_read_buf up to m_read_idx, with the NULs written so far;
      `checked` and `start` are m_checked_idx and m_start_line. */
  datatype Parser = Parser(
    buf: seq<char>,
    checked: nat,
    start: nat,
    check: CheckState,
    url: string,
    version: string,
    host: string,
    linger: bool,
    contentLength: nat)
  {
    /** The body is only entered behind a header section. */
    predicate Wf() { start <= checked <= |buf| && (check == Body ==> checked > 0) }
  }

  /** A connection whose next request starts at the head of `bytes`. */
  function Fresh(bytes: seq<char>): Parser {
    Parser(bytes, 0, 0, RequestLine, "", "", "", false, 0)
  }

  /** recv appends at m_read_idx. */
  function Feed(p: Parser, more: seq<char>): Parser {
    p.(buf := p.buf + more)
  }

  /** reset_for_next: the bytes from m_start_line on move to the front, everything else is cleared. */
  function Reset(p: Parser): Parser {
    Fresh(if p.start > |p.buf| then [] else p.buf[p.start..])
  }

  // ---------- parse_line ----------

  predicate IsEol(c: char) { c == '\r' || c == '\n' }

  /** Where the scan that starts at `i` stops: the first CR or LF, or the end. */
  function Eol(buf: seq<char>, i: nat): (k: nat)
    requires i <= |buf|
    ensures i <= k <= |buf|
    ensures forall j :: i <= j < k ==> !IsEol(buf[j])
    ensures k < |buf| ==> IsEol(buf[k])
    decreases |buf| - i
  {
    if i == |buf| || IsEol(buf[i]) then i else Eol(buf, i + 1)
  }

  /** Two adjacent bytes overwritten with NUL. */
  function Blot(buf: seq<char>, k: nat): (b: seq<char>)
    requires k + 1 < |buf|
    ensures |b| == |buf| && b[k] == NUL && b[k + 1] == NUL
    ensures forall j :: 0 <= j < |buf| && j != k && j != k + 1 ==> b[j] == buf[j]
  {
    buf[k := NUL][k + 1 := NUL]
  }

  /** `k` is where the scan stopped. */
  function LineAt(p: Parser, k: nat): (r: (LineStatus, Parser))
    requires p.Wf() && p.checked <= k <= |p.buf|
    requires k < |p.buf| ==> IsEol(p.buf[k])
    ensures r.1.Wf() && |r.1.buf| == |p.buf| && r.1.checked >= p.checked
    ensures r.0.Ok? ==> r.1.checked > p.checked && p.buf[r.1.checked - 1] == '\n'
    ensures r.0.Ok? ==> r.1.buf[r.1.checked - 1] == NUL
    ensures r.1.buf[r.1.checked..] == p.buf[r.1.checked..]
    ensures !r.0.Ok? ==> r.1 == p.(checked := k)
    ensures r.1 == p.(buf := r.1.buf, checked := r.1.checked)
  {
    if k == |p.buf| then (Open, p.(checked := k))
    else if p.buf[k] == '\r' then
      if k + 1 == |p.buf| then (Open, p.(checked := k))
      else if p.buf[k + 1] == '\n' then (Ok, p.(buf := Blot(p.buf, k), checked := k + 2))
      else (Bad, p.(checked := k))
    else if k >= 1 && p.buf[k - 1] == '\r' then (Ok, p.(buf := Blot(p.buf, k - 1), checked := k + 1))
    else (Bad, p.(checked := k))
  }

  function ParseLine(p: Parser): (r: (LineStatus, Parser))
    requires p.Wf()
    ensures r.1.Wf() && |r.1.buf| == |p.buf| && (r.0.Ok? ==> r.1.checked > p.checked)
  {
    LineAt(p, Eol(p.buf, p.checked))
  }

  /** Loop iterations one parse_line call makes. */
  function ScanCost(p: Parser): nat
    requires p.Wf()
  {
    var k := Eol(p.buf, p.checked);
    k - p.checked + if k < |p.buf| then 1 else 0
  }

  // ---------- parse_request_line ----------

  /** `t` is the C string at offset `at`; the two spaces that split it become NULs. */
  function ParseRequestLine(p: Parser, at: nat, t: string): (r: (HttpCode, Parser))
    requires at + |t| <= |p.buf|
    ensures r.0 == NoRequest || r.0 == BadRequest
    ensures |r.1.buf| == |p.buf|
    ensures forall j :: 0 <= j < |p.buf| && !(at <= j < at + |t|) ==> r.1.buf[j] == p.buf[j]
    ensures r.1.start == p.start && r.1.checked == p.checked && r.1.contentLength == p.contentLength
    ensures r.0 == NoRequest ==> r.1.check == Header
    ensures r.0 == BadRequest ==> r.1.check == p.check
  {
    var i := IndexFrom(t, 0, ' ');
    if i == |t| then (BadRequest, p) else
    var p1 := p.(buf := p.buf[at + i := NUL]);
    if BlankAt(t, i + 1) || !EqNoCase(t[..i], "GET") then (BadRequest, p1) else
    var j := IndexFrom(t, i + 1, ' ');
    if j == |t| then (BadRequest, p1) else
    var p2 := p1.(buf := p1.buf[at + j := NUL]);
    if BlankAt(t, j + 1) then (BadRequest, p2) else
    var p3 := p2.(url := t[i + 1..j]);
    if HasPrefixNoCase(t[j + 1..], "HTTP/1.1") then
      (NoRequest, p3.(version := "HTTP/1.1", linger := true, check := Header))
    else if HasPrefixNoCase(t[j + 1..], "HTTP/1.0") then
      (NoRequest, p3.(version := "HTTP/1.0", linger := false, check := Header))
    else (BadRequest, p3)
  }

  // ---------- parse_headers ----------

  datatype Option<T> = None | Some(value: T)

  /** An optional sign and one to ten digits, with a value in [0, READ_BUFFER_SIZE). */
  function ContentLength(t: string): (r: Option<nat>)
    ensures r.Some? ==> r.value < READ_BUFFER_SIZE
  {
    var d := if |t| > 0 && (t[0] == '-' || t[0] == '+') then t[1..] else t;
    if |d| == 0 || |d| > 10 || exists c :: c in d && !IsDigit(c) then None
    else
      var v: int := if t[0] == '-' then 0 - (Decimal(d) as int) else Decimal(d);
      if v < 0 || v >= READ_BUFFER_SIZE then None else Some(v)
  }

  function ParseHeader(p: Parser, t: string): (r: (HttpCode, Parser))
    ensures r.0 == NoRequest || r.0 == BadRequest || r.0 == GetRequest
    ensures r.1.buf == p.buf && r.1.start == p.start && r.1.checked == p.checked
    ensures r.0 != NoRequest ==> r.1.check == p.check
    ensures r.0 == GetRequest ==> p.contentLength == 0
    ensures r.1.check == p.check || (r.1.check == Body && r.0 == NoRequest && r.1.contentLength > 0)
  {
    if t == "" then
      if p.version == "HTTP/1.1" && p.host == "" then (BadRequest, p)
      else if p.contentLength != 0 then (NoRequest, p.(check := Body))
      else (GetRequest, p)
    else if HasPrefixNoCase(t, "Host:") then
      (NoRequest, p.(host := SkipBlanks(t[5..])))
    else if HasPrefixNoCase(t, "Connection:") then
      (NoRequest, p.(linger := EqNoCase(SkipBlanks(t[11..]), "keep-alive")))
    else if HasPrefixNoCase(t, "Content-Length:") then
      match ContentLength(SkipBlanks(t[15..]))
      case None => (BadRequest, p)
      case Some(n) => (NoRequest, p.(contentLength := n))
    else if ':' in t then (NoRequest, p)
    else (BadRequest, p)
  }

  // ---------- parse_body ----------

  /** `at` is where the text pointer stands. The terminator lands at `at + contentLength`: on a received byte, or
      behind them, where no byte counts; Terminator says where. */
  function ParseBody(p: Parser, at: nat): (r: (HttpCode, Parser))
    ensures r.0 == NoRequest ==> r.1 == p
    ensures r.0 == NoRequest || r.0 == GetRequest
    ensures r.1 == p.(buf := r.1.buf) && |r.1.buf| == |p.buf|
  {
    if |p.buf| >= p.contentLength + p.checked then
      (GetRequest,
       if at + p.contentLength < |p.buf| then p.(buf := p.buf[at + p.contentLength := NUL]) else p)
    else (NoRequest, p)
  }

  // ---------- process_read ----------

  /** One turn of the loop body, on a connection that stands behind a complete line (or is in the body). */
  function Dispatch(p: Parser): (r: (HttpCode, Parser))
    requires p.Wf() && p.checked > 0
    ensures r.1.Wf() && r.1.start == r.1.checked == p.checked && |r.1.buf| == |p.buf|
    ensures r.0 == NoRequest || r.0 == BadRequest || r.0 == GetRequest
    ensures p.check == Body ==> r.1.check == Body && (r.0 == NoRequest ==> r.1.buf == p.buf)
    ensures r.1.check == Body ==> p.check == Body || (p.check == Header && r.0 == NoRequest)
    ensures p.check == Body && r.0 == NoRequest ==> r.1 == p.(start := p.checked)
  {
    var q := p.(start := p.checked);
    match p.check
    case RequestLine => ParseRequestLine(q, p.start, CStr(p.buf[p.start..]))
    case Header => ParseHeader(q, CStr(p.buf[p.start..]))
    case Body => ParseBody(q, p.start)
  }

  /** The loop of process_read; `lineOk` is line_status == Ok. GetRequest stands for the call of do_request. */
  function Run(p: Parser, lineOk: bool): (r: (HttpCode, Parser))
    requires p.Wf()
    ensures r.1.Wf() && |r.1.buf| == |p.buf| && r.1.checked >= p.checked && r.1.start >= p.start
    ensures r.0 == NoRequest || r.0 == BadRequest || r.0 == GetRequest
    ensures p.check == Body ==> r.1.check == Body
    ensures r.0 != NoRequest ==> r.1.start > 0
    decreases |p.buf| - p.checked, if p.check == Body && lineOk then 1 else 0
  {
    if p.check == Body && lineOk then
      var (c, n) := Dispatch(p);
      if c != NoRequest then (c, n) else Run(n, false)
    else
      var (st, q) := ParseLine(p);
      if !st.Ok? then (NoRequest, q)
      else
        var (c, n) := Dispatch(q);
        if c != NoRequest then (c, n) else Run(n, q.check != Body)
  }

  /** process_read up to the point where it would call do_request. */
  function ProcessRead(p: Parser): (r: (HttpCode, Parser))
    requires p.Wf()
    ensures r.1.Wf() && (r.0 == NoRequest || r.0 == BadRequest || r.0 == GetRequest)
  {
    Run(p, true)
  }

  /** Where parse_body writes its terminator during a process_read, if the call gets there. */
  function Terminator(p: Parser, lineOk: bool): Option<nat>
    requires p.Wf()
    decreases |p.buf| - p.checked, if p.check == Body && lineOk then 1 else 0
  {
    if p.check == Body && lineOk then
      var (c, n) := Dispatch(p);
      if c != NoRequest then Some(p.start + p.contentLength) else Terminator(n, false)
    else
      var (st, q) := ParseLine(p);
      if !st.Ok? then None
      else
        var (c, n) := Dispatch(q);
        if c == NoRequest then Terminator(n, q.check != Body)
        else if q.check == Body then Some(q.start + q.contentLength)
        else None
  }

  /** process_read writes behind a buffer of that size. */
  predicate Overruns(p: Parser, size: nat)
    requires p.Wf()
  {
    match Terminator(p, true) case None => false case Some(k) => k >= size
  }
}
