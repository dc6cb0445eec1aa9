/** Resources (do_request), response heads (process_write) and the resumable sender (write), as functions. */
module HttpResponse {
  import opened CText
  import opened HttpParser
  import opened T = HttpRoundTrip

  // ---------- do_request ----------

  datatype FileKind = Missing | Directory | Regular(size: nat) | Other

  /** What stat and open answer for a path; `fd` is negative when open fails. */
  datatype FsAnswer = FsAnswer(kind: FileKind, fd: int)

  /** The document root, the page served for "/", and the file system as an oracle on paths. */
  datatype Site = Site(root: string, welcome: string, files: string -> FsAnswer)

  datatype Resource = Resource(code: HttpCode, content: string, fd: int, size: nat, sendfile: bool)

  predicate HasDotDot(url: string) {
    exists i :: 0 <= i < |url| - 1 && url[i] == '.' && url[i + 1] == '.'
  }

  function NoFile(code: HttpCode): Resource { Resource(code, "", -1, 0, false) }

  function DoRequest(site: Site, url: string): (r: Resource)
    ensures r.code == FileRequest || r.code == NoResource || r.code == ForbiddenRequest
    ensures r.sendfile ==> r.code == FileRequest && r.fd >= 0
    ensures !r.sendfile ==> r.fd == -1 && r.size == 0
  {
    if url == "/" then Resource(FileRequest, site.welcome, -1, 0, false)
    else if HasDotDot(url) then NoFile(ForbiddenRequest)
    else
      var a := site.files(site.root + url);
      match a.kind
      case Missing => NoFile(NoResource)
      case Directory => NoFile(NoResource)
      case Other => NoFile(ForbiddenRequest)
      case Regular(size) =>
        if a.fd < 0 then NoFile(NoResource) else Resource(FileRequest, "", a.fd, size, true)
  }

  /** Which url leads to which answer, by what the file system says of its path. */
  lemma Outcomes(site: Site, url: string)
    ensures var r, a := DoRequest(site, url), site.files(site.root + url);
      && (r.code == FileRequest <==> url == "/" || (!HasDotDot(url) && a.kind.Regular? && a.fd >= 0))
      && (r.code == ForbiddenRequest <==> url != "/" && (HasDotDot(url) || a.kind.Other?))
      && (r.sendfile <==> r.code == FileRequest && url != "/")
      && (r.sendfile ==> r.fd == a.fd && r.size == a.kind.size)
  {
  }

  /** A url with two dots in a row is answered without a look at the file system. */
  lemma DotDotOpensNothing(site: Site, files: string -> FsAnswer, url: string)
    requires HasDotDot(url)
    ensures DoRequest(site, url) == DoRequest(site.(files := files), url)
  {
  }

  // ---------- process_write ----------

  function Dec(n: nat): (s: string)
    ensures s != "" && forall c :: c in s ==> IsDigit(c)
  {
    if n < 10 then ['0' + n as char] else Dec(n / 10) + ['0' + (n % 10) as char]
  }

  lemma {:induction false} DecimalOfDec(n: nat)
    ensures Decimal(Dec(n)) == n
  {
    if n < 10 {
      assert Dec(n)[..0] == "";
    } else {
      DecimalOfDec(n / 10);
      assert Dec(n)[..|Dec(n)| - 1] == Dec(n / 10);
    }
  }

  function Pow10(k: nat): (p: nat)
    ensures p > 0
  {
    if k == 0 then 1 else 10 * Pow10(k - 1)
  }

  lemma {:induction false} DecIsShort(n: nat, k: nat)
    requires 0 < k && n < Pow10(k)
    ensures |Dec(n)| <= k
  {
    if n >= 10 {
      assert k > 1 && n / 10 < Pow10(k - 1);
      DecIsShort(n / 10, k - 1);
    }
  }

  /** Where strrchr(url, '.') points, or the length of `url`. */
  function LastDot(url: string): (k: nat)
    ensures k <= |url|
  {
    if '.' !in url then |url|
    else if url[|url| - 1] == '.' then |url| - 1
    else LastDot(url[..|url| - 1])
  }

  function ContentType(url: string): string {
    var d := url[LastDot(url)..];
    if d == "" then "text/plain"
    else if EqNoCase(d, ".html") || EqNoCase(d, ".htm") then "text/html"
    else if EqNoCase(d, ".css") then "text/css"
    else if EqNoCase(d, ".js") then "application/javascript"
    else if EqNoCase(d, ".png") then "image/png"
    else if EqNoCase(d, ".jpg") || EqNoCase(d, ".jpeg") then "image/jpeg"
    else if EqNoCase(d, ".gif") then "image/gif"
    else if EqNoCase(d, ".txt") then "text/plain"
    else "application/octet-stream"
  }

  function StatusOf(code: HttpCode): Option<(nat, string)> {
    match code
    case FileRequest => Some((200, "OK"))
    case BadRequest => Some((400, "Bad Request"))
    case ForbiddenRequest => Some((403, "Forbidden"))
    case NoResource => Some((404, "Not Found"))
    case InternalError => Some((500, "Internal Server Error"))
    case NoRequest => None
    case GetRequest => None
  }

  /** Whether the connection may go on after an answer of this kind. */
  predicate StaysOpen(code: HttpCode, linger: bool) {
    linger && (code == FileRequest || code == NoResource)
  }

  function ErrorPage(status: nat, title: string): string {
    "<html><body><h1>" + Dec(status) + " " + title + "</h1></body></html>"
  }

  function HeadFields(length: nat, ctype: string, linger: bool): seq<Field> {
    [Field("Server", "EpollETReactor/1.0 (Modern C++)"), Field("Content-Length", Dec(length)),
     Field("Content-Type", ctype), Field("Connection", if linger then "keep-alive" else "close")]
  }

  function StatusLine(status: nat, title: string): string {
    "HTTP/1.1 " + Dec(status) + " " + title
  }

  function Head(status: nat, title: string, length: nat, ctype: string, linger: bool): string {
    StatusLine(status, title) + CRLF + (PrintFields(HeadFields(length, ctype, linger)) + CRLF)
  }

  datatype Response = Response(
    code: HttpCode, head: string, body: string, sendfile: bool, fd: int, size: nat, linger: bool)
  {
    /** Bytes announced to follow the head. */
    function PayloadLength(): nat { if sendfile then size else |body| }

    function Payload(file: Content): (b: seq<char>)
      ensures |b| == PayloadLength()
    {
      if sendfile then Bytes(file, size) else body
    }
  }

  /** What sendfile delivers from an open file, by position. A file that shrinks delivers nothing behind its end: the
      call then comes to whatever errno was left, which the kernel script covers. */
  type Content = nat -> char

  function Bytes(f: Content, n: nat): (b: seq<char>)
    ensures |b| == n
  {
    seq(n, i requires i >= 0 => f(i))
  }

  /** process_write: None stands for the code paths it refuses. */
  function ProcessWrite(code: HttpCode, url: string, linger: bool, r: Resource): (w: Option<Response>)
    ensures w.Some? <==> StatusOf(code).Some?
    ensures w.Some? ==> w.value.linger == StaysOpen(code, linger) && w.value.code == code
  {
    match StatusOf(code)
    case None => None
    case Some((status, title)) =>
      var keep := StaysOpen(code, linger);
      var ctype := if code == FileRequest && url != "" && url != "/" then ContentType(url) else "text/html";
      var body := if code != FileRequest then ErrorPage(status, title) else if r.sendfile then "" else r.content;
      var length := if code == FileRequest && r.sendfile then r.size else |body|;
      Some(Response(code, Head(status, title, length, ctype, keep), body, r.sendfile, r.fd, r.size, keep))
  }

  /** The resource and response for a request whose parse ended with `c` in state `q`. */
  function Answer(site: Site, c: HttpCode, q: Parser): (w: Response)
    requires c == BadRequest || c == GetRequest
    ensures w.code != NoRequest && w.code != GetRequest && w.code != InternalError
  {
    var r := if c == GetRequest then DoRequest(site, q.url) else NoFile(BadRequest);
    ProcessWrite(r.code, q.url, q.linger, r).value
  }

  // ---------- the client's reading of a response ----------

  /** The lines of a message head from `i` on, and where the bytes behind its empty line start. */
  function Lines(s: seq<char>, i: nat): Option<(seq<string>, nat)>
    requires i <= |s|
    decreases |s| - i
  {
    var k := Eol(s, i);
    if k + 1 >= |s| || s[k] != '\r' || s[k + 1] != '\n' then None
    else if k == i then Some(([], i + 2))
    else match Lines(s, k + 2)
      case None => None
      case Some((ls, e)) => Some(([s[i..k]] + ls, e))
  }

  /** The value of the first line with that field name. */
  function ValueOf(ls: seq<string>, name: string): Option<string> {
    if ls == [] then None
    else if HasPrefixNoCase(ls[0], name + ":") then Some(SkipBlanks(ls[0][|name| + 1..]))
    else ValueOf(ls[1..], name)
  }

  function FieldLines(fs: seq<Field>): seq<string> {
    if fs == [] then [] else [FieldLine(fs[0])] + FieldLines(fs[1..])
  }

  lemma LinesStep(s: seq<char>, i: nat, line: string, rest: string)
    requires i <= |s| && Plain(line) && s[i..] == line + CRLF + rest
    ensures var k := i + |line|;
      k + 2 <= |s| && s[k + 2..] == rest &&
      Lines(s, i) == if line == "" then Some(([], i + 2)) else match Lines(s, k + 2)
        case None => None
        case Some((ls, e)) => Some(([line] + ls, e))
  {
    LineBreakAt(s, i, line, rest);
  }

  lemma {:induction false} LinesOfFields(s: seq<char>, i: nat, fs: seq<Field>, rest: string)
    requires i <= |s| && s[i..] == PrintFields(fs) + ("" + CRLF + rest)
    requires forall f :: f in fs ==> Plain(f.name) && Plain(f.value)
    ensures Lines(s, i) == Some((FieldLines(fs), |s| - |rest|))
    decreases |fs|
  {
    hide Lines;
    if fs == [] {
      assert s[i..] == "" + CRLF + rest;
      LinesStep(s, i, "", rest);
    } else {
      var line, after := FieldLine(fs[0]), PrintFields(fs[1..]) + ("" + CRLF + rest);
      FieldsCons(fs, "" + CRLF + rest);
      FieldLineIsPlain(fs[0]);
      hide PrintFields, FieldLine;
      LinesStep(s, i, line, after);
      LinesOfFields(s, i + |line| + 2, fs[1..], rest);
    }
  }

  lemma PlainConcat(a: string, b: string)
    requires Plain(a) && Plain(b)
    ensures Plain(a + b)
  {
  }

  lemma TitleIsPlain(code: HttpCode)
    requires StatusOf(code).Some?
    ensures Plain(StatusOf(code).value.1) && StatusOf(code).value.0 < 1000 && |StatusOf(code).value.1| <= 21
  {
  }

  lemma StatusLineIsPlain(code: HttpCode)
    requires StatusOf(code).Some?
    ensures var (status, title) := StatusOf(code).value; Plain(StatusLine(status, title))
  {
    TitleIsPlain(code);
    hide StatusOf, Dec;
    var (status, title) := StatusOf(code).value;
    var p := "HTTP/1.1 ";
    assert Plain(p) && Plain(" ");
    DecIsPlain(status);
    PlainConcat(p, Dec(status));
    PlainConcat(p + Dec(status), " ");
    PlainConcat(p + Dec(status) + " ", title);
  }

  lemma TextTypesArePlain()
    ensures Plain("text/plain") && Plain("text/html") && Plain("text/css") && Plain("application/javascript")
  {
  }

  lemma OtherTypesArePlain()
    ensures Plain("image/png") && Plain("image/jpeg") && Plain("image/gif") && Plain("application/octet-stream")
  {
  }

  lemma ContentTypeIsPlain(url: string)
    ensures Plain(ContentType(url))
  {
    TextTypesArePlain();
    OtherTypesArePlain();
    var d := url[LastDot(url)..];
  }

  lemma DecIsPlain(n: nat)
    ensures Plain(Dec(n))
  {
    assert forall i :: 0 <= i < |Dec(n)| ==> Dec(n)[i] in Dec(n);
  }

  lemma FieldNamesArePlain()
    ensures Plain("Server") && Plain("Content-Length") && Plain("Content-Type") && Plain("Connection")
  {
  }

  lemma FieldValuesArePlain()
    ensures Plain("EpollETReactor/1.0 (Modern C++)") && Plain("keep-alive") && Plain("close") && Plain("text/html")
  {
  }

  lemma HeadFieldsArePlain(length: nat, ctype: string, linger: bool)
    requires Plain(ctype)
    ensures forall f :: f in HeadFields(length, ctype, linger) ==> Plain(f.name) && Plain(f.value)
  {
    FieldNamesArePlain();
    FieldValuesArePlain();
    DecIsPlain(length);
  }

  lemma ValueOfCons(f: Field, ls: seq<string>, name: string)
    requires PlainField(f) && ':' !in name
    ensures ValueOf([FieldLine(f)] + ls, name) == if EqNoCase(f.name, name) then Some(f.value) else ValueOf(ls, name)
  {
    PrefixIsName(f, name);
    var t := FieldLine(f);
    assert ([t] + ls)[1..] == ls;
    if EqNoCase(f.name, name) {
      assert t[|name| + 1..] == " " + f.value;
      assert (" " + f.value)[1..] == f.value;
      assert SkipBlanks(" " + f.value) == SkipBlanks(f.value) == f.value;
    }
  }

  lemma HeadFieldNames(length: nat, ctype: string, linger: bool)
    requires Plain(ctype) && ctype != "" && !BlankAt(ctype, 0)
    ensures forall f :: f in HeadFields(length, ctype, linger) ==> PlainField(f)
  {
    HeadFieldsArePlain(length, ctype, linger);
    assert forall i :: 0 <= i < |Dec(length)| ==> Dec(length)[i] in Dec(length);
    assert ':' !in "Server" && ':' !in "Content-Length" && ':' !in "Content-Type" && ':' !in "Connection";
  }

  /** The client finds the first field of the name it looks for. */
  lemma {:induction false} ValueOfField(fs: seq<Field>, k: nat, name: string)
    requires k < |fs| && ':' !in name && forall f :: f in fs ==> PlainField(f)
    requires EqNoCase(fs[k].name, name) && forall j :: 0 <= j < k ==> !EqNoCase(fs[j].name, name)
    ensures ValueOf(FieldLines(fs), name) == Some(fs[k].value)
  {
    ValueOfCons(fs[0], FieldLines(fs[1..]), name);
    if k > 0 {
      ValueOfField(fs[1..], k - 1, name);
    }
  }

  lemma HeadNamesDiffer()
    ensures EqNoCase("Content-Length", "Content-Length") && EqNoCase("Connection", "Connection")
    ensures !EqNoCase("Server", "Content-Length") && !EqNoCase("Server", "Connection")
    ensures !EqNoCase("Content-Length", "Connection") && !EqNoCase("Content-Type", "Connection")
    ensures EqNoCase("Content-Type", "Content-Type")
    ensures !EqNoCase("Server", "Content-Type") && !EqNoCase("Content-Length", "Content-Type")
    ensures ':' !in "Content-Length" && ':' !in "Connection" && ':' !in "Content-Type"
    ensures Lower("Content-Length"[0]) == 'c' && Lower("Connection"[0]) == 'c' && Lower("Content-Type"[0]) == 'c'
  {
  }

  /** What the client finds among the lines of a response head. */
  lemma ValuesInHead(first: string, length: nat, ctype: string, linger: bool)
    requires Plain(ctype) && ctype != "" && !BlankAt(ctype, 0)
    requires first != "" && Lower(first[0]) == 'h'
    ensures var ls := [first] + FieldLines(HeadFields(length, ctype, linger));
      && ValueOf(ls, "Content-Length") == Some(Dec(length))
      && ValueOf(ls, "Content-Type") == Some(ctype)
      && ValueOf(ls, "Connection") == Some(if linger then "keep-alive" else "close")
  {
    HeadFieldNames(length, ctype, linger);
    HeadNamesDiffer();
    hide EqNoCase, Lower, PlainField, Plain, FieldLines, Dec;
    var fs := HeadFields(length, ctype, linger);
    ValueOfField(fs, 1, "Content-Length");
    ValueOfField(fs, 2, "Content-Type");
    ValueOfField(fs, 3, "Connection");
    var ls := [first] + FieldLines(fs);
    assert ls[1..] == FieldLines(fs);
    StartsOtherwise(first, "Content-Length");
    StartsOtherwise(first, "Content-Type");
    StartsOtherwise(first, "Connection");
  }

  lemma StartsOtherwise(t: string, name: string)
    requires t != "" && name != "" && Lower(t[0]) != Lower(name[0])
    ensures !HasPrefixNoCase(t, name + ":")
  {
    var p := name + ":";
    if |p| <= |t| {
      assert t[..|p|][0] == t[0] && p[0] == name[0];
    }
  }

  // ---------- responses as the client sees them ----------

  /** What a client that reads `message` line by line takes from it: where the payload starts, how long it is, and
      whether the connection stays open. */
  predicate Framed(message: seq<char>, start: nat, length: nat, stays: bool) {
    match Lines(message, 0)
    case None => false
    case Some((ls, e)) =>
      && e == start
      && (match ValueOf(ls, "Content-Length")
          case None => false
          case Some(v) => (forall c :: c in v ==> IsDigit(c)) && Decimal(v) == length)
      && ValueOf(ls, "Connection") == Some(if stays then "keep-alive" else "close")
  }

  lemma HeadRegroups(first: string, fields: string, payload: seq<char>)
    ensures var s := first + CRLF + (fields + CRLF) + payload;
      && s == first + CRLF + (fields + ("" + CRLF + payload))
      && |s| == |first + CRLF + (fields + CRLF)| + |payload|
  {
  }

  lemma LinesOfHead(first: string, fs: seq<Field>, payload: seq<char>)
    requires Plain(first) && first != "" && forall f :: f in fs ==> Plain(f.name) && Plain(f.value)
    ensures var head := first + CRLF + (PrintFields(fs) + CRLF);
      Lines(head + payload, 0) == Some(([first] + FieldLines(fs), |head|))
  {
    hide PrintFields, Lines, FieldLines;
    HeadRegroups(first, PrintFields(fs), payload);
    var head := first + CRLF + (PrintFields(fs) + CRLF);
    var s, rest := head + payload, PrintFields(fs) + ("" + CRLF + payload);
    assert s[0..] == s;
    LinesStep(s, 0, first, rest);
    LinesOfFields(s, |first| + 2, fs, payload);
  }

  lemma HeadIsFramed(status: nat, title: string, ctype: string, linger: bool, payload: seq<char>)
    requires Plain(StatusLine(status, title)) && Plain(ctype) && ctype != "" && !BlankAt(ctype, 0)
    ensures var head := Head(status, title, |payload|, ctype, linger);
      Framed(head + payload, |head|, |payload|, linger)
  {
    HeadFieldsArePlain(|payload|, ctype, linger);
    assert StatusLine(status, title)[0] == "HTTP/1.1 "[0] == 'H';
    LinesOfHead(StatusLine(status, title), HeadFields(|payload|, ctype, linger), payload);
    ValuesInHead(StatusLine(status, title), |payload|, ctype, linger);
    DecimalOfDec(|payload|);
  }

  /** Every response the server builds frames its own payload: whatever bytes of the announced length follow the
      head, the client finds the head's end, that length, and what the server will do after the last byte. */
  lemma ResponseIsFramed(code: HttpCode, url: string, linger: bool, r: Resource, payload: seq<char>)
    requires ProcessWrite(code, url, linger, r).Some? && (r.sendfile ==> code == FileRequest)
    requires |payload| == ProcessWrite(code, url, linger, r).value.PayloadLength()
    ensures var w := ProcessWrite(code, url, linger, r).value;
      Framed(w.head + payload, |w.head|, |payload|, StaysOpen(code, linger))
  {
    var (status, title) := StatusOf(code).value;
    var ctype := if code == FileRequest && url != "" && url != "/" then ContentType(url) else "text/html";
    assert Plain(ctype) && ctype != "" && !BlankAt(ctype, 0) by {
      ContentTypeIsPlain(url);
      ContentTypeStarts(url);
      TextTypesArePlain();
    }
    StatusLineIsPlain(code);
    HeadIsFramed(status, title, ctype, StaysOpen(code, linger), payload);
  }

  lemma ContentTypeStarts(url: string)
    ensures ContentType(url) != "" && !BlankAt(ContentType(url), 0) && |ContentType(url)| <= 24
  {
  }

  lemma ThreeDigits(n: nat)
    requires n < 1000
    ensures |Dec(n)| <= 3
  {
    assert Pow10(3) == 10 * Pow10(2) == 100 * Pow10(1) == 1000 * Pow10(0);
    DecIsShort(n, 3);
  }

  /** The head fits the 512-byte buffer it is formatted in, for any size a size_t can hold. */
  lemma HeadFits(code: HttpCode, url: string, linger: bool, r: Resource)
    requires ProcessWrite(code, url, linger, r).Some? && (r.sendfile ==> code == FileRequest)
    requires ProcessWrite(code, url, linger, r).value.PayloadLength() < Pow10(20)
    ensures |ProcessWrite(code, url, linger, r).value.head| < 512
  {
    hide Head, ContentType, Pow10, Dec, ErrorPage, StatusOf;
    var w := ProcessWrite(code, url, linger, r).value;
    var (status, title) := StatusOf(code).value;
    var ctype := if code == FileRequest && url != "" && url != "/" then ContentType(url) else "text/html";
    TitleIsPlain(code);
    ContentTypeStarts(url);
    DecIsShort(w.PayloadLength(), 20);
    ThreeDigits(status);
    HeadLength(status, title, w.PayloadLength(), ctype, w.linger);
  }

  lemma HeadLength(status: nat, title: string, length: nat, ctype: string, linger: bool)
    ensures |Head(status, title, length, ctype, linger)| <= 140 + |Dec(status)| + |title| + |Dec(length)| + |ctype|
  {
    var fs := HeadFields(length, ctype, linger);
    assert fs[1..][1..][1..][1..] == [];
    assert PrintFields(fs) == FieldLine(fs[0]) + CRLF + PrintFields(fs[1..]);
    assert PrintFields(fs[1..]) == FieldLine(fs[1]) + CRLF + PrintFields(fs[1..][1..]);
    assert PrintFields(fs[1..][1..]) == FieldLine(fs[2]) + CRLF + PrintFields(fs[1..][1..][1..]);
    assert PrintFields(fs[1..][1..][1..]) == FieldLine(fs[3]) + CRLF + PrintFields([]);
  }
}
