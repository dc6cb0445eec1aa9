/** Printing a request and parsing it back (RFC 7230, sections 3.1.1, 3.2 and 5.4). */
module HttpRoundTrip {
  import opened CText
  import opened HttpParser
  import A = HttpArrivals

  const CRLF: string := "\r\n"

  datatype Field = Field(name: string, value: string)

  datatype Request = Request(url: string, http11: bool, fields: seq<Field>)

  /** Bytes that neither end a line nor a C string. */
  predicate Plain(s: string) {
    forall i :: 0 <= i < |s| ==> !IsEol(s[i]) && s[i] != NUL
  }

  predicate PlainField(f: Field) {
    && f.name != "" && Plain(f.name) && ':' !in f.name
    && Plain(f.value) && !BlankAt(f.value, 0)
  }

  /** A Content-Length, if given, is one the server takes. */
  predicate WfField(f: Field) {
    && PlainField(f)
    && (EqNoCase(f.name, "Content-Length") ==> ContentLength(f.value).Some?)
  }

  /** A request line and header section. */
  predicate WfHead(r: Request) {
    && r.url != "" && Plain(r.url) && (forall c :: c in r.url ==> !IsBlank(c))
    && forall f :: f in r.fields ==> WfField(f)
  }

  /** A request without a body. */
  predicate WfRequest(r: Request) { WfHead(r) && LengthOf(r.fields, 0) == 0 }

  function Version(r: Request): string {
    if r.http11 then "HTTP/1.1" else "HTTP/1.0"
  }

  function FieldLine(f: Field): string { f.name + ": " + f.value }

  function PrintFields(fs: seq<Field>): string {
    if fs == [] then "" else FieldLine(fs[0]) + CRLF + PrintFields(fs[1..])
  }

  function RequestLineOf(r: Request): string { "GET" + " " + r.url + " " + Version(r) }

  function Print(r: Request): string {
    RequestLineOf(r) + CRLF + (PrintFields(r.fields) + CRLF)
  }

  /** The value of the last field of that name, if any. */
  function Last(fs: seq<Field>, name: string): Option<string> {
    if fs == [] then None
    else
      match Last(fs[1..], name)
      case Some(v) => Some(v)
      case None => if EqNoCase(fs[0].name, name) then Some(fs[0].value) else None
  }

  function HostOf(fs: seq<Field>, otherwise: string): string {
    match Last(fs, "Host") case None => otherwise case Some(v) => v
  }

  /** The last Connection field decides; without one the version does. */
  function LingerOf(fs: seq<Field>, otherwise: bool): bool {
    match Last(fs, "Connection") case None => otherwise case Some(v) => EqNoCase(v, "keep-alive")
  }

  /** The last Content-Length declares the body's length. */
  function LengthOf(fs: seq<Field>, otherwise: nat): nat {
    match Last(fs, "Content-Length")
    case None => otherwise
    case Some(v) => if ContentLength(v).Some? then ContentLength(v).value else 0
  }

  // ---------- one line ----------

  lemma LineBreakAt(buf: seq<char>, i: nat, line: string, rest: string)
    requires i <= |buf| && Plain(line) && buf[i..] == line + CRLF + rest
    ensures var k := i + |line|;
      && k + 1 < |buf| && buf[k] == '\r' && buf[k + 1] == '\n'
      && Eol(buf, i) == k && buf[i..k] == line && buf[k + 2..] == rest
  {
    var k, s := i + |line|, line + CRLF + rest;
    assert forall j {:trigger s[j]} :: 0 <= j < |s| ==> s[j] == buf[i..][j] == buf[i + j];
    assert s[..|line|] == line && s[|line|] == '\r' && s[|line| + 1] == '\n' && s[|line| + 2..] == rest;
    forall j | i <= j < k ensures !IsEol(buf[j]) {
      assert buf[j] == s[j - i] == line[j - i] && line[j - i] in line;
    }
    A.EolIs(buf, i, k);
  }

  /** A plain line and its CRLF at the cursor are scanned as one line. */
  lemma ScanLine(p: Parser, line: string, rest: string)
    requires p.Wf() && p.start == p.checked && Plain(line)
    requires p.buf[p.start..] == line + CRLF + rest
    ensures var r := ParseLine(p); var q := r.1;
      && r.0.Ok? && q.start == p.start && q == p.(buf := q.buf, checked := p.start + |line| + 2)
      && CStr(q.buf[q.start..]) == line
      && q.buf[q.checked..] == rest
  {
    LineBreakAt(p.buf, p.start, line, rest);
    var k := p.start + |line|;
    var b := Blot(p.buf, k);
    assert ParseLine(p) == (Ok, p.(buf := b, checked := k + 2));
    assert b[k + 2..] == p.buf[k + 2..];
    assert b[p.start..][..|line|] == p.buf[p.start..k];
    assert b[p.start..][|line|] == NUL;
    CStrIs(b[p.start..], line);
  }

  // ---------- header fields ----------

  /** The first colon of a printed field ends its name. */
  lemma NameEndsAtColon(f: Field, name: string)
    requires PlainField(f) && ':' !in name && HasPrefixNoCase(FieldLine(f), name + ":")
    ensures |f.name| == |name|
  {
    var t, p, n, m := FieldLine(f), name + ":", |name|, |f.name|;
    assert forall i :: 0 <= i <= n ==> Lower(t[i]) == Lower(p[i]) by {
      assert forall i :: 0 <= i <= n ==> t[..n + 1][i] == t[i];
    }
    assert forall i :: 0 <= i < m ==> t[i] == f.name[i] && f.name[i] in f.name;
    assert forall i :: 0 <= i < n ==> p[i] == name[i] && name[i] in name;
    assert t[m] == ':' && p[n] == ':';
    assert Lower(t[n]) == Lower(p[n]);
  }

  lemma PrefixIsName(f: Field, name: string)
    requires PlainField(f) && ':' !in name
    ensures HasPrefixNoCase(FieldLine(f), name + ":") <==> EqNoCase(f.name, name)
  {
    var t, p, n := FieldLine(f), name + ":", |name|;
    if HasPrefixNoCase(t, p) {
      NameEndsAtColon(f, name);
    }
    if |f.name| == n {
      assert t[..n + 1] == f.name + ":";
      assert forall i :: 0 <= i < n ==> (f.name + ":")[i] == f.name[i] && p[i] == name[i];
    }
  }

  /** parse_headers on a printed field. */
  lemma ParseField(p: Parser, f: Field)
    requires WfField(f)
    ensures ParseHeader(p, FieldLine(f)) == (NoRequest,
      if EqNoCase(f.name, "Host") then p.(host := f.value)
      else if EqNoCase(f.name, "Connection") then p.(linger := EqNoCase(f.value, "keep-alive"))
      else if EqNoCase(f.name, "Content-Length") then p.(contentLength := ContentLength(f.value).value)
      else p)
  {
    var t := FieldLine(f);
    PrefixIsName(f, "Host");
    PrefixIsName(f, "Connection");
    PrefixIsName(f, "Content-Length");
    assert "Host" + ":" == "Host:" && "Connection" + ":" == "Connection:"
      && "Content-Length" + ":" == "Content-Length:";
    assert t[|f.name| + 1..] == " " + f.value;
    assert (" " + f.value)[1..] == f.value;
    assert SkipBlanks(" " + f.value) == SkipBlanks(f.value) == f.value;
    assert t[|f.name|] == ':';
  }

  lemma LastOfOne(f: Field, name: string)
    ensures Last([f], name) == if EqNoCase(f.name, name) then Some(f.value) else None
  {
    assert [f][1..] == [];
  }

  /** One turn of the loop on a header line. */
  lemma HeaderTurn(p: Parser)
    requires p.Wf() && p.check == Header && ParseLine(p).0.Ok?
    ensures var q := ParseLine(p).1; var r := ParseHeader(q.(start := q.checked), CStr(q.buf[q.start..]));
      && Dispatch(q) == r && Run(p, true) == (if r.0 == NoRequest then Run(r.1, true) else r)
      && Terminator(p, true) == if r.0 == NoRequest then Terminator(r.1, true) else None
  {
    hide LineAt, ParseHeader, ParseBody, HttpParser.ParseRequestLine, CStr;
  }

  lemma FieldLineIsPlain(f: Field)
    requires Plain(f.name) && Plain(f.value)
    ensures Plain(FieldLine(f))
  {
  }

  /** The loop comes from `p` to `n`: what process_read makes of the one it makes of the other. */
  predicate ComesTo(p: Parser, n: Parser) {
    p.Wf() && n.Wf() && Run(p, true) == Run(n, true) && Terminator(p, true) == Terminator(n, true)
  }

  /** `n` stands behind `length` bytes more than `p`, `fs` have been taken in, and `rest` follows. */
  predicate Behind(p: Parser, n: Parser, fs: seq<Field>, length: nat, rest: string) {
    && n == p.(buf := n.buf, start := n.start, checked := n.checked, host := HostOf(fs, p.host),
               linger := LingerOf(fs, p.linger), contentLength := LengthOf(fs, p.contentLength))
    && n.Wf() && n.start == n.checked == p.start + length && |n.buf| == |p.buf| && n.buf[n.start..] == rest
  }

  /** One printed field: the loop goes on behind its line. */
  lemma StepField(p: Parser, f: Field, rest: string)
    requires p.Wf() && p.start == p.checked && p.check == Header
    requires p.buf[p.start..] == FieldLine(f) + CRLF + rest && WfField(f)
    ensures var n := Dispatch(ParseLine(p).1).1;
      ComesTo(p, n) && Behind(p, n, [f], |FieldLine(f)| + 2, rest)
  {
    hide Run, Terminator;
    FieldLineIsPlain(f);
    ScanLine(p, FieldLine(f), rest);
    var q := ParseLine(p).1;
    ParseField(q.(start := q.checked), f);
    HeaderTurn(p);
    LastOfOne(f, "Host");
    LastOfOne(f, "Connection");
    LastOfOne(f, "Content-Length");
  }

  lemma FieldsCons(fs: seq<Field>, rest: string)
    requires fs != []
    ensures PrintFields(fs) + rest == FieldLine(fs[0]) + CRLF + (PrintFields(fs[1..]) + rest)
  {
  }

  /** The last of several fields decides over the first. */
  lemma BehindCons(p: Parser, n: Parser, m: Parser, fs: seq<Field>, rest: string)
    requires fs != [] && Behind(p, n, [fs[0]], |FieldLine(fs[0])| + 2, PrintFields(fs[1..]) + rest)
    requires Behind(n, m, fs[1..], |PrintFields(fs[1..])|, rest)
    ensures Behind(p, m, fs, |PrintFields(fs)|, rest)
  {
    LastOfOne(fs[0], "Host");
    LastOfOne(fs[0], "Connection");
    LastOfOne(fs[0], "Content-Length");
    hide ContentLength, EqNoCase;
  }

  /** The printed fields: the loop comes to what follows them, with the last of each name taken in. */
  lemma {:induction false} ParseFields(p: Parser, fs: seq<Field>, rest: string) returns (n: Parser)
    requires p.Wf() && p.start == p.checked && p.check == Header
    requires p.buf[p.start..] == PrintFields(fs) + rest
    requires forall f :: f in fs ==> WfField(f)
    ensures ComesTo(p, n) && Behind(p, n, fs, |PrintFields(fs)|, rest)
    decreases |fs|
  {
    hide Run, Terminator;
    if fs == [] {
      n := p;
    } else {
      FieldsCons(fs, rest);
      StepField(p, fs[0], PrintFields(fs[1..]) + rest);
      var m := Dispatch(ParseLine(p).1).1;
      n := ParseFields(m, fs[1..], rest);
      BehindCons(p, m, n, fs, rest);
    }
  }

  // ---------- the request line ----------

  lemma VersionPrefix(r: Request)
    ensures HasPrefixNoCase(Version(r), "HTTP/1.1") <==> r.http11
    ensures HasPrefixNoCase(Version(r), "HTTP/1.0") <==> !r.http11
  {
    assert Version(r)[..8] == Version(r);
    assert Lower("HTTP/1.0"[7]) != Lower("HTTP/1.1"[7]);
  }

  /** Where the two spaces split a line of three parts. */
  lemma TwoSpaces(a: string, b: string, c: string)
    requires ' ' !in a && ' ' !in b && b != "" && c != ""
    ensures var t, i, j := a + " " + b + " " + c, |a|, |a| + 1 + |b|;
      && |t| == j + 1 + |c| && IndexFrom(t, 0, ' ') == i && IndexFrom(t, i + 1, ' ') == j
      && t[..i] == a && t[i + 1..j] == b && t[j + 1..] == c && t[i + 1] == b[0] && t[j + 1] == c[0]
  {
    var t, i, j := a + " " + b + " " + c, |a|, |a| + 1 + |b|;
    assert t[..i] == a && t[i] == ' ' && t[i + 1..j] == b && t[j] == ' ' && t[j + 1..] == c;
    assert forall k :: 0 <= k < i ==> t[k] == a[k];
    IndexIs(t, 0, i, ' ');
    assert forall k :: i + 1 <= k < j ==> t[k] == b[k - i - 1];
    IndexIs(t, i + 1, j, ' ');
  }

  /** parse_request_line on a line of three parts. */
  lemma ParseThreeParts(p: Parser, at: nat, t: string, i: nat, j: nat)
    requires at + |t| <= |p.buf| && i < j < |t| && !BlankAt(t, i + 1) && !BlankAt(t, j + 1)
    requires IndexFrom(t, 0, ' ') == i && IndexFrom(t, i + 1, ' ') == j && EqNoCase(t[..i], "GET")
    requires HasPrefixNoCase(t[j + 1..], "HTTP/1.1") <==> !HasPrefixNoCase(t[j + 1..], "HTTP/1.0")
    ensures var o, http11 := ParseRequestLine(p, at, t), HasPrefixNoCase(t[j + 1..], "HTTP/1.1");
      && o.0 == NoRequest
      && o.1 == p.(buf := o.1.buf, url := t[i + 1..j], linger := http11, check := Header,
                   version := if http11 then "HTTP/1.1" else "HTTP/1.0")
  {
  }

  /** Where a printed request line splits. */
  lemma RequestLineParts(r: Request)
    requires WfHead(r)
    ensures var t, i, j := RequestLineOf(r), 3, 4 + |r.url|;
      && i < j < |t| && IndexFrom(t, 0, ' ') == i && IndexFrom(t, i + 1, ' ') == j
      && !BlankAt(t, i + 1) && !BlankAt(t, j + 1)
      && t[..i] == "GET" && t[i + 1..j] == r.url && t[j + 1..] == Version(r)
  {
    assert forall c :: c in r.url ==> c != ' ';
    TwoSpaces("GET", r.url, Version(r));
    assert r.url[0] in r.url && Version(r)[0] == 'H';
  }

  lemma GetIsGet()
    ensures EqNoCase("GET", "GET")
  {
  }

  /** parse_request_line on a printed request line. */
  lemma ParsePrintedRequestLine(p: Parser, at: nat, r: Request)
    requires WfHead(r) && at + |RequestLineOf(r)| <= |p.buf|
    ensures var o := ParseRequestLine(p, at, RequestLineOf(r));
      && o.0 == NoRequest
      && o.1 == p.(buf := o.1.buf, url := r.url, version := Version(r), linger := r.http11, check := Header)
  {
    RequestLineParts(r);
    VersionPrefix(r);
    GetIsGet();
    assert Version(r) == if r.http11 then "HTTP/1.1" else "HTTP/1.0";
    hide HttpParser.ParseRequestLine, Version, IndexFrom, HasPrefixNoCase, EqNoCase, BlankAt, WfHead, RequestLineOf;
    ParseThreeParts(p, at, RequestLineOf(r), 3, 4 + |r.url|);
  }

  lemma RequestLineIsPlain(r: Request)
    requires WfHead(r)
    ensures Plain(RequestLineOf(r))
  {
  }

  /** The first turn of the loop on a printed request. */
  lemma StepRequestLine(r: Request, rest: string)
    requires WfHead(r)
    ensures var p := Fresh(RequestLineOf(r) + CRLF + rest); var n := Dispatch(ParseLine(p).1).1;
      && ComesTo(p, n)
      && n == p.(buf := n.buf, start := n.start, checked := n.checked,
                 url := r.url, version := Version(r), linger := r.http11, check := Header)
      && n.start == n.checked == |RequestLineOf(r)| + 2 && |n.buf| == |p.buf|
      && n.buf[n.start..] == rest
  {
    var p, t := Fresh(RequestLineOf(r) + CRLF + rest), RequestLineOf(r);
    RequestLineIsPlain(r);
    assert p.buf[p.start..] == t + CRLF + rest;
    ScanLine(p, t, rest);
    var q := ParseLine(p).1;
    ParsePrintedRequestLine(q.(start := q.checked), q.start, r);
  }

  /** A printed head up to its empty line, with anything behind it. */
  lemma ParseHead(r: Request, rest: string) returns (n: Parser)
    requires WfHead(r)
    ensures ComesTo(Fresh(Print(r) + rest), n)
    ensures n.check == Header && n.url == r.url && n.version == Version(r) && n.host == HostOf(r.fields, "")
    ensures n.linger == LingerOf(r.fields, r.http11) && n.contentLength == LengthOf(r.fields, 0)
    ensures n.start == n.checked == |Print(r)| - 2 && |n.buf| == |Print(r)| + |rest|
    ensures n.buf[n.start..] == "" + CRLF + rest
  {
    hide Run, Terminator, WfField;
    var after := PrintFields(r.fields) + ("" + CRLF + rest);
    assert Print(r) + rest == RequestLineOf(r) + CRLF + after;
    StepRequestLine(r, after);
    var m := Dispatch(ParseLine(Fresh(Print(r) + rest)).1).1;
    n := ParseFields(m, r.fields, "" + CRLF + rest);
  }

  /** The empty line of a printed head: the request is refused, complete, or its body begins. */
  lemma EndHead(n: Parser, rest: string)
    requires n.Wf() && n.start == n.checked && n.check == Header && n.buf[n.start..] == "" + CRLF + rest
    ensures var q := ParseLine(n).1; var e := q.(start := q.checked);
      && e.Wf() && e.checked == n.checked + 2 && |e.buf| == |n.buf| && e.buf[e.checked..] == rest
      && e.buf[e.checked - 1] == NUL && e == n.(buf := e.buf, start := e.start, checked := e.checked)
      && (if n.version == "HTTP/1.1" && n.host == "" then
            Run(n, true) == (BadRequest, e) && Terminator(n, true) == None
          else if n.contentLength == 0 then Run(n, true) == (GetRequest, e) && Terminator(n, true) == None
          else ComesTo(n, e.(check := Body)))
  {
    ScanLine(n, "", rest);
    HeaderTurn(n);
    hide Run, Terminator;
    var q := ParseLine(n).1;
    assert q.buf[q.checked - 1] == NUL;
  }

  /** Print-then-parse: a printed request comes back field by field, and exactly its own bytes are consumed, whatever
      follows. Without a Host field HTTP/1.1 is refused (RFC 7230, section 5.4) and HTTP/1.0 is not. */
  lemma PrintThenParse(r: Request, rest: string)
    requires WfRequest(r)
    ensures var (c, q) := ProcessRead(Fresh(Print(r) + rest));
      && c == (if r.http11 && HostOf(r.fields, "") == "" then BadRequest else GetRequest)
      && q.url == r.url && q.version == Version(r) && q.host == HostOf(r.fields, "")
      && q.linger == LingerOf(r.fields, r.http11)
      && q.start == q.checked == |Print(r)| && q.check == Header && q.contentLength == 0
      && q.buf[q.checked..] == rest
  {
    hide Run, Terminator, WfField;
    var n := ParseHead(r, rest);
    EndHead(n, rest);
  }
}
