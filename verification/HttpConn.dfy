/** http_conn as it is written: one object, a byte buffer edited in place, cursors that loops advance, and two
    descriptors. Every method is proved against the functions of HttpParser, HttpResponse and HttpSend. */
module HttpConn {
  import opened CText
  import opened HttpParser
  import opened HttpResponse
  import A = HttpArrivals
  import S = HttpSend

  /** What one recv comes to; the kernel hands over a prefix of `bytes` when there is no room for all. */
  datatype Recv = Data(bytes: seq<char>) | WouldBlock | Interrupted | Eof | Error

  /** One recv with `room` bytes left: whether the loop goes on, what read_once returns if not, and the bytes stored.
      `some` says that this read_once has stored bytes before. */
  function RecvOnce(event: Recv, room: nat, some: bool): (r: (bool, bool, seq<char>))
    requires room > 0
    ensures |r.2| <= room && (if r.0 then r.1 else r.2 == [])
  {
    match event
    case WouldBlock => (false, true, [])
    case Interrupted => (true, true, [])
    case Eof => (false, some, [])
    case Error => (false, false, [])
    case Data(bytes) =>
      if bytes == [] then (false, some, [])
      else (true, true, if |bytes| <= room then bytes else bytes[..room])
  }

  /** read_once with `room` bytes left: its result and the bytes it stores. A script that has run out stands for
      an empty socket. */
  function Receive(script: seq<Recv>, room: nat, some: bool): (r: (bool, seq<char>))
    ensures |r.1| <= room
    decreases |script|
  {
    if script == [] || room == 0 then (true, [])
    else
      var (again, ok, got) := RecvOnce(script[0], room, some);
      if !again then (ok, [])
      else var (end, more) := Receive(script[1..], room - |got|, some || |got| > 0); (end, got + more)
  }

  /** recv comes to nothing more in this read_once: an empty socket, the end of the stream, an error. */
  predicate EndsReading(event: Recv) {
    event == WouldBlock || event == Eof || event == Error || event == Data([])
  }

  /** The bytes that arrive before that, in order. */
  function Arriving(script: seq<Recv>): seq<char> {
    if script == [] || EndsReading(script[0]) then []
    else (if script[0].Data? then script[0].bytes else []) + Arriving(script[1..])
  }

  /** What ends it; a script that has run out is an empty socket. */
  function Ending(script: seq<Recv>): Recv {
    if script == [] then WouldBlock else if EndsReading(script[0]) then script[0] else Ending(script[1..])
  }

  /** An error, or the end of a stream that has brought nothing. */
  predicate EndsBadly(script: seq<Recv>, some: bool) {
    Ending(script) == Error || (Ending(script) in {Eof, Data([])} && Arriving(script) == [] && !some)
  }

  /** read_once stores the first `room` of the bytes that arrive, none left out and none twice; EINTR changes nothing;
      and it fails exactly on an error, or on the end of a stream that has brought nothing, with room to spare. */
  lemma {:induction false} ReceiveMeans(script: seq<Recv>, room: nat, some: bool)
    ensures var (ok, got) := Receive(script, room, some); var all := Arriving(script);
      && got == (if |all| <= room then all else all[..room])
      && (!ok <==> |all| < room && EndsBadly(script, some))
    decreases |script|
  {
    if script != [] && room > 0 && !EndsReading(script[0]) {
      var bytes := if script[0].Data? then script[0].bytes else [];
      ReceiveFirst(script, room, some);
      ArrivingFirst(script, some);
      hide Receive, Arriving, EndsBadly, EndsReading;
      if |bytes| < room { ReceiveMeans(script[1..], room - |bytes|, some || bytes != []); }
      FirstOf(bytes, Arriving(script[1..]), room);
    }
  }

  /** Bytes that arrive in two parts, as far as they go into the room there is. */
  lemma FirstOf(a: seq<char>, b: seq<char>, room: nat)
    ensures var all := a + b;
      (if |all| <= room then all else all[..room]) ==
      if |a| >= room then a[..room] else a + if |b| <= room - |a| then b else b[..room - |a|]
  {
    if |a| < room < |a + b| { assert (a + b)[..room] == a + b[..room - |a|]; }
  }

  lemma ReceiveFirst(script: seq<Recv>, room: nat, some: bool)
    requires script != [] && room > 0 && !EndsReading(script[0])
    ensures var bytes := if script[0].Data? then script[0].bytes else [];
      Receive(script, room, some) ==
      if |bytes| >= room then (true, bytes[..room])
      else
        var r := Receive(script[1..], room - |bytes|, some || bytes != []);
        (r.0, bytes + r.1)
  {
    var bytes := if script[0].Data? then script[0].bytes else [];
    assert |bytes| >= room ==> bytes[..room] + [] == bytes[..room];
    assert |bytes| == room ==> bytes[..room] == bytes;
  }

  lemma ArrivingFirst(script: seq<Recv>, some: bool)
    requires script != [] && !EndsReading(script[0])
    ensures var bytes := if script[0].Data? then script[0].bytes else [];
      && Arriving(script) == bytes + Arriving(script[1..])
      && (EndsBadly(script, some) <==> EndsBadly(script[1..], some || bytes != []))
  {
  }

  /** A connection once read_once is through with it. */
  function Finish(p: Parser, r: (bool, seq<char>)): (bool, Parser) { (r.0, Feed(p, r.1)) }

  lemma ReceiveStep(p: Parser, script: seq<Recv>, i: nat, room: nat, some: bool)
    requires i <= |script|
    ensures Finish(p, Receive(script[i..], room, some)) ==
      if i == |script| || room == 0 then (true, p)
      else
        var (again, ok, got) := RecvOnce(script[i], room, some);
        if !again then (ok, Feed(p, got))
        else Finish(Feed(p, got), Receive(script[i + 1..], room - |got|, some || |got| > 0))
  {
    assert p.buf + [] == p.buf;
    if i < |script| && room > 0 {
      assert script[i..][0] == script[i] && script[i..][1..] == script[i + 1..];
      var (again, ok, got) := RecvOnce(script[i], room, some);
      var n := Receive(script[i + 1..], room - |got|, some || |got| > 0);
      assert (p.buf + got) + n.1 == p.buf + (got + n.1);
    }
  }

  /** What the request line and the header fields have set. */
  datatype RequestFields = RequestFields(
    state: CheckState, url: string, version: string, host: string, linger: bool, contentLength: nat)

  /** m_file_content, m_file_fd, m_file_size and m_use_sendfile. */
  datatype FileFields = FileFields(content: string, fd: int, size: nat, sendfile: bool)

  /** Bytes still to be scanned, and whether a turn in the body comes first. */
  function ScanLeft(p: Parser, lineOk: bool): nat
    requires p.Wf()
  {
    2 * (|p.buf| - p.checked) + if p.check == Body && lineOk then 1 else 0
  }

  /** process_read's loop has come from `p` to `n`: it goes on there, or has ended there with `code`. */
  predicate Reaches(p: Parser, lineOk: bool, n: Parser, again: bool, ok: bool, code: HttpCode)
    requires p.Wf() && n.Wf()
  {
    if again then Run(n, ok) == Run(p, lineOk) && Terminator(n, ok) == Terminator(p, lineOk)
    else Run(p, lineOk) == (code, n)
  }

  /** A write at that place falls behind a buffer of that size. */
  predicate Lands(at: Option<nat>, size: nat) { match at case None => false case Some(k) => k >= size }

  /** How a turn of a sending loop ends. */
  datatype Turn = Stop(o: S.Outcome) | Go(taken: nat)

  const NO_REQUEST := RequestFields(RequestLine, "", "", "", false, 0)
  const NO_FILE := FileFields("", -1, 0, false)

  class HttpConn {
    var m_sockfd: int
    var m_read_buf: array<char>
    var m_read_idx: nat
    var m_checked_idx: nat
    var m_start_line: nat
    var m_request: RequestFields
    var m_file: FileFields
    var m_response_head: string
    var m_response_body: string
    var m_write_offset: nat
    var m_parsed_code: HttpCode

    /** Over the object's whole life, in order: sockets adopted and closed, files opened and closed. */
    ghost var socketsTaken: seq<int>
    ghost var socketsClosed: seq<int>
    ghost var filesOpened: seq<int>
    ghost var filesClosed: seq<int>

    /** A byte has been written behind m_read_buf. */
    ghost var overran: bool

    /** Everything handed to the present socket. */
    ghost var wire: seq<char>

    ghost function Parse(): Parser
      reads this, m_read_buf
      requires m_read_idx <= m_read_buf.Length
    {
      Parser(m_read_buf[..m_read_idx], m_checked_idx, m_start_line, m_request.state, m_request.url,
             m_request.version, m_request.host, m_request.linger, m_request.contentLength)
    }

    /** Cursors in order, and the file flag agrees with the file descriptor. */
    ghost predicate Valid()
      reads this, m_read_buf
    {
      && m_read_idx <= m_read_buf.Length <= READ_BUFFER_SIZE
      && m_start_line <= m_checked_idx <= m_read_idx
      && (m_request.state == Body ==> m_checked_idx > 0)
      && (m_file.sendfile <==> m_file.fd != -1)
      && m_request.contentLength < READ_BUFFER_SIZE
    }

    /** Every descriptor ever taken has been closed, once and in order, except those held now. */
    ghost predicate Ledger()
      reads `m_sockfd, `m_file, `socketsTaken, `socketsClosed, `filesOpened, `filesClosed
    {
      && socketsTaken == (if m_sockfd == -1 then socketsClosed else socketsClosed + [m_sockfd])
      && filesOpened == (if m_file.fd == -1 then filesClosed else filesClosed + [m_file.fd])
    }

    // ---------- lifecycle ----------

    constructor ()
      ensures Valid() && Ledger() && m_sockfd == -1 && m_file == NO_FILE && !overran
    {
      m_sockfd := -1;
      m_read_buf := new char[0];
      m_read_idx, m_checked_idx, m_start_line := 0, 0, 0;
      m_request, m_file := NO_REQUEST, NO_FILE;
      m_response_head, m_response_body, m_write_offset := "", "", 0;
      m_parsed_code := NoRequest;
      socketsTaken, socketsClosed, filesOpened, filesClosed, wire, overran := [], [], [], [], [], false;
    }

    /** Clears everything but the socket; a held file descriptor would be lost, so there must be none. */
    method InitState()
      requires Valid() && m_file.fd == -1
      modifies `m_read_idx, `m_checked_idx, `m_start_line, `m_request, `m_file,
               `m_response_head, `m_response_body, `m_write_offset, `m_parsed_code
      ensures Valid() && Parse() == Fresh([]) && m_parsed_code == NoRequest && m_file == NO_FILE
      ensures m_response_head == m_response_body == "" && m_write_offset == 0
    {
      m_read_idx, m_checked_idx, m_start_line := 0, 0, 0;
      m_request, m_file := NO_REQUEST, NO_FILE;
      m_response_head, m_response_body, m_write_offset := "", "", 0;
      m_parsed_code := NoRequest;
    }

    /** Adopts a socket into a closed slot. */
    method Init(sockfd: int)
      requires Valid() && Ledger() && m_sockfd == -1 && m_file.fd == -1 && sockfd >= 0
      modifies `m_read_idx, `m_checked_idx, `m_start_line, `m_request, `m_file,
               `m_response_head, `m_response_body, `m_write_offset, `m_parsed_code,
               `m_sockfd, `m_read_buf, `socketsTaken, `wire
      ensures Valid() && Ledger() && Parse() == Fresh([]) && m_sockfd == sockfd && m_file == NO_FILE && wire == []
      ensures socketsTaken == old(socketsTaken) + [sockfd]
      ensures m_read_buf.Length == READ_BUFFER_SIZE && (m_read_buf == old(m_read_buf) || fresh(m_read_buf))
    {
      InitState();
      m_sockfd := sockfd;
      socketsTaken, wire := socketsTaken + [sockfd], [];
      if m_read_buf.Length < READ_BUFFER_SIZE {
        m_read_buf := new char[READ_BUFFER_SIZE];
      }
    }

    method CloseSocket()
      requires Valid() && Ledger()
      modifies `m_sockfd, `socketsClosed
      ensures Valid() && Ledger() && m_sockfd == -1
    {
      if m_sockfd != -1 {
        socketsClosed := socketsClosed + [m_sockfd];
        m_sockfd := -1;
      }
    }

    method CloseFile()
      requires Valid() && Ledger()
      modifies `m_file, `filesClosed
      ensures Valid() && Ledger() && m_file.fd == -1
    {
      if m_file.fd != -1 {
        filesClosed := filesClosed + [m_file.fd];
        m_file := m_file.(fd := -1, sendfile := false);
      }
    }

    /** Closes what is held, once. */
    method CloseConn()
      requires Valid() && Ledger()
      modifies `m_read_idx, `m_checked_idx, `m_start_line, `m_request, `m_file,
               `m_response_head, `m_response_body, `m_write_offset, `m_parsed_code, `m_sockfd,
               `socketsClosed, `filesClosed
      ensures Valid() && Ledger() && m_sockfd == -1 && m_file == NO_FILE && Parse() == Fresh([])
      ensures socketsClosed == socketsTaken && filesClosed == filesOpened
    {
      CloseSocket();
      CloseFile();
      InitState();
    }

    // ---------- reading ----------

    /** recv into the free end of the buffer. */
    method Store(bytes: seq<char>)
      requires Valid() && m_read_idx + |bytes| <= m_read_buf.Length
      modifies this`m_read_idx, m_read_buf
      ensures Valid() && Parse() == Feed(old(Parse()), bytes) && m_read_idx == old(m_read_idx) + |bytes|
    {
      ghost var had := m_read_buf[..m_read_idx];
      forall k | 0 <= k < |bytes| { m_read_buf[m_read_idx + k] := bytes[k]; }
      m_read_idx := m_read_idx + |bytes|;
      assert m_read_buf[..m_read_idx] == had + bytes;
    }

    /** The recv loop. */
    method DrainSocket(script: seq<Recv>) returns (ok: bool)
      requires Valid() && m_read_idx < m_read_buf.Length
      modifies `m_read_idx, m_read_buf
      ensures Valid()
      ensures (ok, Parse()) ==
        Finish(old(Parse()), Receive(script, m_read_buf.Length - old(m_read_idx), false))
    {
      hide Receive, RecvOnce, Finish, Feed;
      ghost var r := Finish(Parse(), Receive(script, m_read_buf.Length - m_read_idx, false));
      var before, i, again := m_read_idx, 0, true;
      ok := true;
      assert script[0..] == script;
      while again && i < |script| && m_read_idx < m_read_buf.Length
        invariant i <= |script| && before <= m_read_idx && Valid()
        invariant if !again then r == (ok, Parse())
          else ok && r == Finish(Parse(), Receive(script[i..], m_read_buf.Length - m_read_idx, m_read_idx > before))
        decreases |script| - i
      {
        ReceiveStep(Parse(), script, i, m_read_buf.Length - m_read_idx, m_read_idx > before);
        var event := RecvOnce(script[i], m_read_buf.Length - m_read_idx, m_read_idx > before);
        again, ok := event.0, event.1;
        Store(event.2);
        i := i + 1;
      }
      if again {
        ReceiveStep(Parse(), script, i, m_read_buf.Length - m_read_idx, m_read_idx > before);
      }
    }

    /** A full buffer is a failure before anything is read. */
    method ReadOnce(script: seq<Recv>) returns (ok: bool)
      requires Valid()
      modifies `m_read_idx, m_read_buf
      ensures Valid()
      ensures old(m_read_idx) == m_read_buf.Length ==> !ok && Parse() == old(Parse())
      ensures old(m_read_idx) < m_read_buf.Length ==>
        (ok, Parse()) == Finish(old(Parse()), Receive(script, m_read_buf.Length - old(m_read_idx), false))
      ensures old(m_read_idx) <= m_read_idx
      ensures old(m_read_idx) < m_read_buf.Length ==> var all := Arriving(script);
        && m_read_buf[old(m_read_idx)..m_read_idx] ==
           (if |all| <= m_read_buf.Length - old(m_read_idx) then all else all[..m_read_buf.Length - old(m_read_idx)])
        && (!ok <==> m_read_idx < m_read_buf.Length && EndsBadly(script, false))
    {
      if m_read_idx >= m_read_buf.Length {
        return false;
      }
      ghost var had := m_read_idx;
      ReceiveMeans(script, m_read_buf.Length - had, false);
      ok := DrainSocket(script);
      assert m_read_buf[had..m_read_idx] == Parse().buf[had..];
    }

    // ---------- parsing ----------

    method WriteNulPair(k: nat)
      requires Valid() && k + 1 < m_read_idx
      modifies m_read_buf
      ensures Valid() && m_read_buf[..m_read_idx] == Blot(old(m_read_buf[..m_read_idx]), k)
    {
      m_read_buf[k] := NUL;
      m_read_buf[k + 1] := NUL;
    }

    /** parse_line on the byte its scan has stopped at. */
    method EndOfScan() returns (status: LineStatus)
      requires Valid() && (m_checked_idx < m_read_idx ==> IsEol(m_read_buf[m_checked_idx]))
      modifies `m_checked_idx, m_read_buf
      ensures Valid() && (status, Parse()) == LineAt(old(Parse()), old(m_checked_idx))
    {
      var k := m_checked_idx;
      if k == m_read_idx {
        return Open;
      }
      if m_read_buf[k] == '\r' {
        if k + 1 == m_read_idx {
          return Open;
        }
        if m_read_buf[k + 1] == '\n' {
          WriteNulPair(k);
          m_checked_idx := k + 2;
          return Ok;
        }
        return Bad;
      }
      if k >= 1 && m_read_buf[k - 1] == '\r' {
        WriteNulPair(k - 1);
        m_checked_idx := k + 1;
        return Ok;
      }
      return Bad;
    }

    /** `turns` counts the iterations of the loop, the one that finds the line break included. */
    method ParseLine() returns (status: LineStatus, ghost turns: nat)
      requires Valid()
      modifies `m_checked_idx, m_read_buf
      ensures Valid()
      ensures (status, Parse()) == HttpParser.ParseLine(old(Parse()))
      ensures turns == ScanCost(old(Parse()))
    {
      hide LineAt;
      ghost var p := Parse();
      turns := 0;
      while m_checked_idx < m_read_idx && m_read_buf[m_checked_idx] != '\r' && m_read_buf[m_checked_idx] != '\n'
        modifies `m_checked_idx
        invariant old(m_checked_idx) <= m_checked_idx <= m_read_idx
        invariant forall j :: old(m_checked_idx) <= j < m_checked_idx ==> !IsEol(p.buf[j])
        invariant turns == m_checked_idx - old(m_checked_idx)
      {
        m_checked_idx := m_checked_idx + 1;
        turns := turns + 1;
      }
      assert m_read_buf[..m_read_idx] == p.buf;
      A.EolIs(p.buf, old(m_checked_idx), m_checked_idx);
      if m_checked_idx < m_read_idx {
        turns := turns + 1;
      }
      A.LineAtElsewhere(p, m_checked_idx, m_checked_idx);
      status := EndOfScan();
    }

    method WriteNul(k: nat)
      requires Valid() && k < m_read_idx
      modifies m_read_buf
      ensures Valid() && Parse() == old(Parse()).(buf := old(Parse()).buf[k := NUL])
    {
      m_read_buf[k] := NUL;
    }

    /** The line at `text`, as the C routines see it. */
    method CLine(text: nat) returns (t: string)
      requires Valid() && text <= m_read_idx
      ensures t == CStr(Parse().buf[text..])
    {
      var n := text;
      while n < m_read_idx && m_read_buf[n] != NUL
        invariant text <= n <= m_read_idx && NUL !in m_read_buf[text..n]
      {
        assert m_read_buf[text..n + 1] == m_read_buf[text..n] + [m_read_buf[n]];
        n := n + 1;
      }
      t := m_read_buf[text..n];
      ghost var s := Parse().buf[text..];
      assert t == s[..|t|];
      if n < m_read_idx {
        assert s[|t|] == NUL;
        CStrIs(s, t);
      } else {
        assert s == t;
        assert forall i :: 0 <= i < |s| ==> s[i] in t;
      }
    }

    method ParseRequestLine(text: nat) returns (code: HttpCode)
      requires Valid() && text <= m_read_idx
      modifies `m_request, m_read_buf
      ensures Valid()
      ensures (code, Parse()) == HttpParser.ParseRequestLine(old(Parse()), text, CStr(old(Parse()).buf[text..]))
    {
      hide EqNoCase, HasPrefixNoCase, IndexFrom, CStr;
      var t := CLine(text);
      var i := IndexFrom(t, 0, ' ');
      if i == |t| {
        return BadRequest;
      }
      WriteNul(text + i);
      if BlankAt(t, i + 1) || !EqNoCase(t[..i], "GET") {
        return BadRequest;
      }
      var j := IndexFrom(t, i + 1, ' ');
      if j == |t| {
        return BadRequest;
      }
      WriteNul(text + j);
      if BlankAt(t, j + 1) {
        return BadRequest;
      }
      m_request := m_request.(url := t[i + 1..j]);
      code := TakeVersion(t[j + 1..]);
    }

    method TakeVersion(v: string) returns (code: HttpCode)
      requires Valid()
      modifies `m_request
      ensures Valid() && (code, Parse()) ==
        var p := old(Parse());
        if HasPrefixNoCase(v, "HTTP/1.1") then (NoRequest, p.(version := "HTTP/1.1", linger := true, check := Header))
        else if HasPrefixNoCase(v, "HTTP/1.0") then
          (NoRequest, p.(version := "HTTP/1.0", linger := false, check := Header))
        else (BadRequest, p)
    {
      if HasPrefixNoCase(v, "HTTP/1.1") {
        m_request := m_request.(version := "HTTP/1.1", linger := true);
      } else if HasPrefixNoCase(v, "HTTP/1.0") {
        m_request := m_request.(version := "HTTP/1.0", linger := false);
      } else {
        return BadRequest;
      }
      m_request := m_request.(state := Header);
      return NoRequest;
    }

    /** The digits are counted by hand, then strtol converts. */
    static method ParseLength(t: string) returns (r: Option<nat>)
      ensures r == ContentLength(t)
    {
      var d := if |t| > 0 && (t[0] == '-' || t[0] == '+') then t[1..] else t;
      var digits := 0;
      while digits < |d| && IsDigit(d[digits])
        invariant digits <= |d| && forall k :: 0 <= k < digits ==> IsDigit(d[k])
      {
        digits := digits + 1;
      }
      if digits < |d| {
        assert d[digits] in d;
        return None;
      }
      if digits == 0 || digits > 10 {
        return None;
      }
      var val: int := Decimal(d);
      if t[0] == '-' {
        val := -val;
      }
      return if val < 0 || val >= READ_BUFFER_SIZE then None else Some(val);
    }

    method ParseHeaders(text: nat) returns (code: HttpCode)
      requires Valid() && text <= m_read_idx && m_checked_idx > 0
      modifies `m_request
      ensures Valid()
      ensures (code, Parse()) == HttpParser.ParseHeader(old(Parse()), CStr(Parse().buf[text..]))
    {
      var t := CLine(text);
      if t == "" {
        if m_request.version == "HTTP/1.1" && m_request.host == "" {
          return BadRequest;
        }
        if m_request.contentLength != 0 {
          m_request := m_request.(state := Body);
          return NoRequest;
        }
        return GetRequest;
      }
      if HasPrefixNoCase(t, "Host:") {
        m_request := m_request.(host := SkipBlanks(t[5..]));
      } else if HasPrefixNoCase(t, "Connection:") {
        m_request := m_request.(linger := EqNoCase(SkipBlanks(t[11..]), "keep-alive"));
      } else if HasPrefixNoCase(t, "Content-Length:") {
        var n := ParseLength(SkipBlanks(t[15..]));
        if n.None? {
          return BadRequest;
        }
        m_request := m_request.(contentLength := n.value);
      } else if ':' !in t {
        return BadRequest;
      }
      return NoRequest;
    }

    /** The terminator is written unchecked: behind the buffer there is no byte of this object to write, only the
        fact. */
    method ParseBody(text: nat) returns (code: HttpCode)
      requires Valid()
      modifies m_read_buf, `overran
      ensures Valid() && (code, Parse()) == HttpParser.ParseBody(old(Parse()), text)
      ensures overran ==
        (old(overran) || (code == GetRequest && text + m_request.contentLength >= m_read_buf.Length))
    {
      if m_read_idx >= m_request.contentLength + m_checked_idx {
        var k := text + m_request.contentLength;
        if k < m_read_buf.Length {
          m_read_buf[k] := NUL;
        } else {
          overran := true;
        }
        return GetRequest;
      }
      return NoRequest;
    }

    /** The switch of process_read. */
    method Dispatch() returns (code: HttpCode)
      requires Valid() && m_checked_idx > 0
      modifies `m_start_line, `m_request, m_read_buf, `overran
      ensures Valid() && (code, Parse()) == HttpParser.Dispatch(old(Parse()))
      ensures overran ==
        (old(overran) || (old(m_request.state) == Body && code != NoRequest
                          && old(m_start_line + m_request.contentLength) >= m_read_buf.Length))
    {
      hide HttpParser.ParseRequestLine, HttpParser.ParseHeader, HttpParser.ParseBody;
      var text := m_start_line;
      m_start_line := m_checked_idx;
      match m_request.state {
        case RequestLine => code := ParseRequestLine(text);
        case Header => code := ParseHeaders(text);
        case Body => code := ParseBody(text);
      }
    }

    static function FileOf(r: Resource): FileFields { FileFields(r.content, r.fd, r.size, r.sendfile) }

    /** A file opened here is held until the next reset or close. */
    method DoRequest(site: Site) returns (code: HttpCode)
      requires Valid() && Ledger() && m_file == NO_FILE
      modifies `m_file, `filesOpened
      ensures Valid() && Ledger()
      ensures var r := HttpResponse.DoRequest(site, m_request.url); code == r.code && m_file == FileOf(r)
    {
      if m_request.url == "/" {
        m_file := m_file.(content := site.welcome, sendfile := false);
        return FileRequest;
      }
      if HasDotDot(m_request.url) {
        return ForbiddenRequest;
      }
      var a := site.files(site.root + m_request.url);
      if a.kind.Missing? || a.kind.Directory? {
        return NoResource;
      }
      if !a.kind.Regular? {
        return ForbiddenRequest;
      }
      if a.fd < 0 {
        return NoResource;
      }
      filesOpened := filesOpened + [a.fd];
      m_file := m_file.(fd := a.fd, size := a.kind.size, sendfile := true);
      return FileRequest;
    }

    /** One turn of process_read's loop; `again` and `ok` are whether it goes on, and line_status == Ok then. */
    method LoopTurn(lineOk: bool) returns (code: HttpCode, again: bool, ok: bool)
      requires Valid()
      modifies `m_checked_idx, `m_start_line, `m_request, m_read_buf, `overran
      ensures Valid()
      ensures Reaches(old(Parse()), lineOk, Parse(), again, ok, code)
      ensures again ==> overran == old(overran) && ScanLeft(Parse(), ok) < old(ScanLeft(Parse(), lineOk))
      ensures !again ==>
        overran == (old(overran) || Lands(Terminator(old(Parse()), lineOk), m_read_buf.Length))
    {
      hide HttpParser.ParseLine, HttpParser.Dispatch;
      var inBody := m_request.state == Body;
      if !inBody || !lineOk {
        var status, turns := ParseLine();
        if status != Ok {
          return NoRequest, false, false;
        }
      }
      code := Dispatch();
      return code, code == NoRequest, !inBody;
    }

    /** The whole loop: incremental parsing, and the resource once a request is complete. */
    method ProcessRead(site: Site) returns (code: HttpCode)
      requires Valid() && Ledger() && m_file == NO_FILE
      modifies `m_checked_idx, `m_start_line, `m_request, `m_file, `filesOpened, m_read_buf, `overran
      ensures Valid() && Ledger()
      ensures Parse() == HttpParser.ProcessRead(old(Parse())).1
      ensures var c := HttpParser.ProcessRead(old(Parse())).0;
        var r := if c == GetRequest then HttpResponse.DoRequest(site, m_request.url) else NoFile(c);
        code == r.code && m_file == FileOf(r)
      ensures overran == (old(overran) || Overruns(old(Parse()), m_read_buf.Length))
    {
      hide Run, Terminator, HttpResponse.DoRequest, ScanLeft;
      var lineOk, again := true, true;
      code := NoRequest;
      while again
        modifies `m_checked_idx, `m_start_line, `m_request, m_read_buf, `overran
        invariant Valid()
        invariant Reaches(old(Parse()), true, Parse(), again, lineOk, code)
        invariant overran ==
          (old(overran) || (!again && Lands(Terminator(old(Parse()), true), m_read_buf.Length)))
        decreases again, ScanLeft(Parse(), lineOk)
      {
        code, again, lineOk := LoopTurn(lineOk);
      }
      if code == GetRequest {
        code := DoRequest(site);
      }
    }

    // ---------- answering ----------

    ghost function Res(code: HttpCode): Resource
      reads `m_file
    {
      Resource(code, m_file.content, m_file.fd, m_file.size, m_file.sendfile)
    }

    /** What the business side will make of m_parsed_code. */
    ghost function Planned(): Option<Response>
      reads `m_file, `m_request, `m_parsed_code
    {
      HttpResponse.ProcessWrite(m_parsed_code, m_request.url, m_request.linger, Res(m_parsed_code))
    }

    /** 0 means more bytes are needed; 1 hands a decided request to the business side, which then cannot fail:
        the answer it will build is the one the request deserves. */
    method PrepareIoRead(site: Site) returns (r: nat)
      requires Valid() && Ledger() && m_file == NO_FILE
      modifies `m_checked_idx, `m_start_line, `m_request, `m_file, `filesOpened, `m_parsed_code, m_read_buf, `overran
      ensures Valid() && Ledger()
      ensures Parse() == HttpParser.ProcessRead(old(Parse())).1
      ensures r == if HttpParser.ProcessRead(old(Parse())).0 == NoRequest then 0 else 1
      ensures overran == (old(overran) || Overruns(old(Parse()), m_read_buf.Length))
      ensures r == 0 ==> m_parsed_code == old(m_parsed_code) && m_file == NO_FILE
      ensures r == 1 ==> Planned() == Some(Answer(site, HttpParser.ProcessRead(old(Parse())).0, Parse()))
    {
      hide HttpParser.ProcessRead, HttpResponse.ProcessWrite, HttpResponse.DoRequest;
      var ret := ProcessRead(site);
      if ret == NoRequest {
        return 0;
      }
      m_parsed_code := ret;
      return 1;
    }

    method ProcessWrite(code: HttpCode) returns (ok: bool)
      requires Valid()
      modifies `m_request, `m_file, `m_response_head, `m_response_body, `m_write_offset
      ensures Valid() && m_write_offset == 0 && Parse() == old(Parse()).(linger := m_request.linger)
      ensures m_file == old(m_file).(content := m_file.content)
      ensures var w := HttpResponse.ProcessWrite(code, old(m_request.url), old(m_request.linger), old(Res(code)));
        ok == w.Some? && (ok ==> m_response_head == w.value.head && m_response_body == w.value.body
                                 && m_request.linger == w.value.linger)
    {
      hide StatusOf, ErrorPage, Head, ContentType;
      m_response_head, m_response_body, m_write_offset := "", "", 0;
      var s := StatusOf(code);
      if s.None? {
        return false;
      }
      var (status, title) := s.value;
      if code != FileRequest {
        m_response_body := ErrorPage(status, title);
      }
      if code != FileRequest && code != NoResource {
        m_request := m_request.(linger := false);
      }
      var ctype := "text/html";
      if code == FileRequest && m_request.url != "" && m_request.url != "/" {
        ctype := ContentType(m_request.url);
      }
      var length: nat;
      if code == FileRequest {
        length := if m_file.sendfile then m_file.size else |m_file.content|;
      } else {
        length := |m_response_body|;
      }
      m_response_head := Head(status, title, length, ctype, m_request.linger);
      if code == FileRequest && !m_file.sendfile {
        m_response_body := m_file.content;
        m_file := m_file.(content := "");
      }
      return true;
    }

    /** 1 means the response is ready, 2 that there is none. */
    method RunBusinessAndPrepareWrite(site: Site) returns (r: nat)
      requires Valid() && Ledger() && (m_parsed_code == GetRequest ==> m_file == NO_FILE)
      modifies `m_request, `m_file, `filesOpened, `m_response_head, `m_response_body, `m_write_offset
      ensures Valid() && Ledger() && m_write_offset == 0
      ensures Parse() == old(Parse()).(linger := m_request.linger)
      ensures m_parsed_code == NoRequest ==> r == 2
      ensures m_parsed_code != NoRequest ==> r == 1
      ensures var w := old(Planned()); w.Some? ==>
        m_response_head == w.value.head && m_response_body == w.value.body && m_request.linger == w.value.linger
        && m_file == old(m_file).(content := m_file.content)
    {
      hide HttpResponse.DoRequest, ErrorPage, Head, ContentType;
      var code := m_parsed_code;
      if code == GetRequest {
        code := DoRequest(site);
      }
      var ok := ProcessWrite(code);
      return if ok then 1 else 2;
    }

    // ---------- sending ----------

    /** The whole response: the head and what follows it, from memory or from the open file. */
    ghost function Message(file: Content): seq<char>
      reads `m_file, `m_response_head, `m_response_body
    {
      m_response_head + if m_file.sendfile then Bytes(file, m_file.size) else m_response_body
    }

    /** One send, writev or sendfile of `chunk`, and the tests on its errno: the loop goes on with `taken` bytes more,
        or write returns. The ghosts are the message and where its head ends. */
    method TryOnce(chunk: seq<char>, script: seq<S.Kernel>, i: nat, ghost head: nat, ghost m: seq<char>)
      returns (turn: Turn)
      requires i <= |script| && head <= |m| && m_write_offset < |m| && chunk != []
      requires m_write_offset + |chunk| == S.SegmentEnd(head, |m|, m_write_offset)
      requires chunk == m[m_write_offset..m_write_offset + |chunk|]
      modifies `m_write_offset, `wire
      ensures old(m_write_offset) <= m_write_offset <= |m|
      ensures wire == old(wire) + m[old(m_write_offset)..m_write_offset]
      ensures match turn
        case Stop(o) =>
          m_write_offset == old(m_write_offset) && Called(head, |m|, m_write_offset, script[i..]) == (o, m_write_offset)
        case Go(taken) =>
          && i < |script| && m_write_offset == old(m_write_offset) + taken && taken <= |chunk|
          && Called(head, |m|, old(m_write_offset), script[i..]) == Called(head, |m|, m_write_offset, script[i + 1..])
      ensures turn == if i == |script| || script[i].Full? then Stop(S.Again)
        else if script[i].Broken? then Stop(S.Failed)
        else if script[i].Interrupted? then Go(0)
        else if script[i].n <= |chunk| then Go(script[i].n)
        else Go(|chunk|)
    {
      hide S.Write, Called;
      WriteStep(head, |m|, m_write_offset, script, i);
      assert m[m_write_offset..m_write_offset] == [];
      if i == |script| || script[i].Full? {
        return Stop(S.Again);
      }
      if script[i].Broken? {
        return Stop(S.Failed);
      }
      if script[i].Interrupted? {
        return Go(0);
      }
      var taken := S.Min(script[i].n, |chunk|);
      assert chunk[..taken] == m[m_write_offset..m_write_offset + taken];
      m_write_offset := m_write_offset + taken;
      wire := wire + chunk[..taken];
      return Go(taken);
    }

    /** The first phase of the sendfile path: the head, by send. `i` is how much of the script it has used. */
    method SendHead(ghost m: seq<char>, script: seq<S.Kernel>) returns (stopped: bool, o: S.Outcome, i: nat)
      requires m_response_head <= m && m_write_offset <= |m|
      modifies `m_write_offset, `wire
      ensures i <= |script| && old(m_write_offset) <= m_write_offset <= |m|
      ensures wire == old(wire) + m[old(m_write_offset)..m_write_offset]
      ensures Called(|m_response_head|, |m|, old(m_write_offset), script) ==
        if stopped then (o, m_write_offset) else Called(|m_response_head|, |m|, m_write_offset, script[i..])
      ensures !stopped ==> m_write_offset >= |m_response_head|
    {
      hide S.Write, Called;
      ghost var head, from := |m_response_head|, m_write_offset;
      i, stopped, o := 0, false, S.Again;
      assert script[0..] == script && [] == m[from..from];
      while m_write_offset < |m_response_head|
        invariant i <= |script| && from <= m_write_offset <= |m|
        invariant Called(head, |m|, m_write_offset, script[i..]) == Called(head, |m|, from, script)
        invariant wire == old(wire) + m[from..m_write_offset]
        decreases |script| - i
      {
        var chunk := m_response_head[m_write_offset..];
        assert m[m_write_offset..head] == chunk;
        ghost var at := m_write_offset;
        var turn := TryOnce(chunk, script, i, head, m);
        SliceJoins(m, from, at, m_write_offset);
        if turn.Stop? {
          return true, turn.o, i;
        }
        i := i + 1;
      }
    }

    /** The second phase: the file from where the head ends; sendfile moves the file offset itself. */
    method SendFile(file: seq<char>, ghost m: seq<char>, script: seq<S.Kernel>) returns (o: S.Outcome)
      requires m == m_response_head + file && |file| == m_file.size
      requires |m_response_head| <= m_write_offset <= |m|
      modifies `m_write_offset, `wire
      ensures (o, m_write_offset) == Called(|m_response_head|, |m|, old(m_write_offset), script)
      ensures old(m_write_offset) <= m_write_offset <= |m|
      ensures wire == old(wire) + m[old(m_write_offset)..m_write_offset]
    {
      hide S.Write, Called;
      ghost var head, from := |m_response_head|, m_write_offset;
      var fileOffset: nat := m_write_offset - |m_response_head|;
      assert script[0..] == script && [] == m[from..from];
      if fileOffset >= m_file.size {
        WriteDone(head, |m|, m_write_offset, script);
        return S.Done;
      }
      var remaining, i := m_file.size - fileOffset, 0;
      while remaining > 0
        invariant i <= |script| && from <= m_write_offset <= |m|
        invariant fileOffset == m_write_offset - head && remaining == |m| - m_write_offset
        invariant Called(head, |m|, m_write_offset, script[i..]) == Called(head, |m|, from, script)
        invariant wire == old(wire) + m[from..m_write_offset]
        decreases |script| - i
      {
        FileChunk(m_response_head, file, fileOffset);
        ghost var at := m_write_offset;
        var turn := TryOnce(file[fileOffset..], script, i, head, m);
        SliceJoins(m, from, at, m_write_offset);
        if turn.Stop? {
          return turn.o;
        }
        fileOffset, remaining, i := fileOffset + turn.taken, remaining - turn.taken, i + 1;
      }
      WriteDone(head, |m|, m_write_offset, script[i..]);
      return S.Done;
    }

    method WriteWithSendfile(file: Content, script: seq<S.Kernel>) returns (o: S.Outcome)
      requires Valid() && m_file.sendfile && m_write_offset <= |Message(file)|
      modifies `m_write_offset, `wire
      ensures (o, m_write_offset) == Called(|m_response_head|, |Message(file)|, old(m_write_offset), script)
      ensures wire == old(wire) + Message(file)[old(m_write_offset)..m_write_offset]
    {
      hide S.Write, Called;
      ghost var m := Message(file);
      var stopped, i;
      stopped, o, i := SendHead(m, script);
      if !stopped {
        ghost var mid := m_write_offset;
        o := SendFile(Bytes(file, m_file.size), m, script[i..]);
        SliceJoins(m, old(m_write_offset), mid, m_write_offset);
      }
    }

    /** The vectors writev is given: exactly one in each call, and never an empty one. */
    method Vectors(total: nat) returns (iv: seq<seq<char>>)
      requires m_write_offset < total == |m_response_head| + |m_response_body|
      ensures |iv| == 1 && iv[0] != []
      ensures var m := m_response_head + m_response_body;
        m_write_offset + |iv[0]| == S.SegmentEnd(|m_response_head|, total, m_write_offset)
        && m[m_write_offset..m_write_offset + |iv[0]|] == iv[0]
    {
      iv := [];
      var head := |m_response_head|;
      var headSent := if m_write_offset < head then m_write_offset else head;
      if headSent < head {
        iv := iv + [m_response_head[headSent..]];
      }
      if m_response_body != "" && m_write_offset >= head {
        iv := iv + [m_response_body[m_write_offset - head..]];
      }
    }

    /** The writev path. */
    method WriteWithWritev(script: seq<S.Kernel>) returns (o: S.Outcome)
      requires Valid() && !m_file.sendfile && m_write_offset <= |m_response_head| + |m_response_body|
      modifies `m_write_offset, `wire
      ensures var m := m_response_head + m_response_body;
        (o, m_write_offset) == Called(|m_response_head|, |m|, old(m_write_offset), script)
        && wire == old(wire) + m[old(m_write_offset)..m_write_offset]
    {
      hide S.Write, Called;
      ghost var m, from := m_response_head + m_response_body, m_write_offset;
      var head, i := |m_response_head|, 0;
      var total := head + |m_response_body|;
      assert script[0..] == script && [] == m[from..from];
      while m_write_offset < total
        invariant i <= |script| && from <= m_write_offset <= total == |m|
        invariant Called(head, |m|, m_write_offset, script[i..]) == Called(head, |m|, from, script)
        invariant wire == old(wire) + m[from..m_write_offset]
        decreases |script| - i
      {
        var iv := Vectors(total);
        ghost var at := m_write_offset;
        var turn := TryOnce(iv[0], script, i, head, m);
        SliceJoins(m, from, at, m_write_offset);
        if turn.Stop? {
          return turn.o;
        }
        i := i + 1;
      }
      WriteDone(head, |m|, m_write_offset, script[i..]);
      return S.Done;
    }

    /** write, against a kernel script; `file` is what the open file delivers. */
    method Write(file: Content, script: seq<S.Kernel>) returns (o: S.Outcome)
      requires Valid() && m_write_offset <= |Message(file)|
      modifies `m_write_offset, `wire
      ensures (o, m_write_offset) == Called(|m_response_head|, |Message(file)|, old(m_write_offset), script)
      ensures wire == old(wire) + Message(file)[old(m_write_offset)..m_write_offset]
      ensures o.Done? <==> m_write_offset == |Message(file)|
    {
      if m_file.sendfile {
        o := WriteWithSendfile(file, script);
      } else {
        o := WriteWithWritev(script);
      }
    }

    // ---------- the next request ----------

    /** The bytes behind m_start_line move to the front; a file still open is closed, once. */
    method ResetForNext() returns (more: bool)
      requires Valid() && Ledger()
      modifies `m_read_idx, `m_checked_idx, `m_start_line, `m_request, `m_file,
               `m_response_head, `m_response_body, `m_write_offset, `m_parsed_code, `filesClosed, m_read_buf
      ensures Valid() && Ledger() && m_file == NO_FILE && m_parsed_code == NoRequest && m_write_offset == 0
      ensures Parse() == Reset(old(Parse())) && (more <==> Parse().buf != [])
    {
      ghost var p := Parse();
      CloseFile();
      MoveDown();
      var kept := m_read_idx;
      InitState();
      m_read_idx := kept;
      assert Parse().buf == Reset(p).buf;
      return m_read_idx > 0;
    }

    method MoveDown()
      requires Valid()
      modifies `m_read_idx, `m_checked_idx, `m_start_line, `m_request, m_read_buf
      ensures Valid() && m_read_buf[..m_read_idx] == Reset(old(Parse())).buf
    {
      ghost var p := Parse();
      m_request := NO_REQUEST;
      var start := m_start_line;
      m_checked_idx, m_start_line := 0, 0;
      if start > m_read_idx {
        assert false;  // the source's defence against a cursor out of order is never needed
      } else {
        var leftover := m_read_idx - start;
        forall k | 0 <= k < leftover { m_read_buf[k] := m_read_buf[start + k]; }
        m_read_idx := leftover;
      }
      assert m_read_buf[..m_read_idx] == p.buf[start..];
    }
  }

  // ---------- write, seen from the kernel script ----------

  /** How a call of write ends and where it leaves the offset. */
  function Called(head: nat, total: nat, off: nat, script: seq<S.Kernel>): (r: (S.Outcome, nat))
    requires off <= total && head <= total
    ensures off <= r.1 <= total && (r.0.Done? <==> r.1 == total)
  {
    var r := S.Write(head, total, off, script); (r.0, r.1)
  }

  lemma WriteStep(head: nat, total: nat, off: nat, script: seq<S.Kernel>, i: nat)
    requires off < total && head <= total && i <= |script|
    ensures Called(head, total, off, script[i..]) ==
      if i == |script| || script[i].Full? then (S.Again, off)
      else if script[i].Broken? then (S.Failed, off)
      else if script[i].Interrupted? then Called(head, total, off, script[i + 1..])
      else Called(head, total, off + S.Min(script[i].n, S.SegmentEnd(head, total, off) - off), script[i + 1..])
  {
    if i < |script| {
      assert script[i..][0] == script[i] && script[i..][1..] == script[i + 1..];
    }
  }

  lemma WriteDone(head: nat, total: nat, off: nat, script: seq<S.Kernel>)
    requires off == total && head <= total
    ensures Called(head, total, off, script) == (S.Done, off)
  {
  }

  lemma FileChunk(head: string, file: seq<char>, at: nat)
    requires at <= |file|
    ensures (head + file)[|head| + at..] == file[at..]
  {
  }

  /** Two adjacent pieces of the message are one. */
  lemma SliceJoins(m: seq<char>, from: nat, at: nat, to: nat)
    requires from <= at <= to <= |m|
    ensures m[from..at] + m[at..to] == m[from..to]
  {
  }
}
