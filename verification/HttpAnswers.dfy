/** What a client reads in an answer, told from its request and the file system alone: status line, type, payload, and
    whether the connection goes on. */
module HttpAnswers {
  import opened CText
  import opened HttpParser
  import opened HttpRoundTrip
  import opened HttpResponse
  import S = HttpStreams

  // ---------- the request and the file system ----------

  /** Two dots in a row somewhere. */
  ghost predicate TwoDots(url: string) { exists a: string, b: string :: url == a + ".." + b }

  lemma TwoDotsIff(url: string)
    ensures HasDotDot(url) <==> TwoDots(url)
  {
    if HasDotDot(url) {
      var i :| 0 <= i < |url| - 1 && url[i] == '.' && url[i + 1] == '.';
      assert url == url[..i] + ".." + url[i + 2..];
    }
    if TwoDots(url) {
      var a: string, b: string :| url == a + ".." + b;
      assert url[|a|] == '.' && url[|a| + 1] == '.';
    }
  }

  /** Nothing to send: no such path, a directory, or a file that does not open. */
  ghost predicate Absent(site: Site, url: string) {
    var a := site.files(site.root + url);
    url != "/" && !TwoDots(url) && (a.kind == Missing || a.kind == Directory || (a.kind.Regular? && a.fd < 0))
  }

  /** Not to be sent: two dots in the path, or neither a directory nor a regular file. */
  ghost predicate Denied(site: Site, url: string) {
    url != "/" && (TwoDots(url) || site.files(site.root + url).kind == Other)
  }

  /** A regular file that opens. */
  ghost predicate AFile(site: Site, url: string) {
    var a := site.files(site.root + url);
    url != "/" && !TwoDots(url) && a.kind.Regular? && a.fd >= 0
  }

  // ---------- status lines ----------

  const OK_LINE := "HTTP/1.1 200 OK"
  const BAD_LINE := "HTTP/1.1 400 Bad Request"
  const DENIED_LINE := "HTTP/1.1 403 Forbidden"
  const ABSENT_LINE := "HTTP/1.1 404 Not Found"

  /** The page that shows a text as its heading. */
  function Page(text: string): string { "<html><body><h1>" + text + "</h1></body></html>" }

  lemma Digits()
    ensures Dec(200) == "200" && Dec(400) == "400" && Dec(403) == "403" && Dec(404) == "404"
  {
    assert Dec(2) == "2" && Dec(4) == "4";
    assert Dec(20) == "20" && Dec(40) == "40";
  }

  lemma OkLine()
    ensures StatusLine(200, "OK") == OK_LINE
  {
    Digits();
    hide Dec;
    assert "HTTP/1.1 " + "200" + " " + "OK" == OK_LINE;
  }

  lemma BadLine()
    ensures StatusLine(400, "Bad Request") == BAD_LINE
  {
    Digits();
    hide Dec;
    assert "HTTP/1.1 " + "400" + " " + "Bad Request" == BAD_LINE;
  }

  lemma PageRegroups(a: string, b: string, c: string, d: string, e: string)
    ensures a + b + c + d + e == a + (b + c + d) + e
  {
  }

  lemma ErrorPageIs(status: nat, title: string)
    ensures ErrorPage(status, title) == Page(Dec(status) + " " + title)
  {
    hide Dec;
    PageRegroups("<html><body><h1>", Dec(status), " ", title, "</h1></body></html>");
  }

  lemma BadPage()
    ensures ErrorPage(400, "Bad Request") == Page("400 Bad Request")
  {
    Digits();
    ErrorPageIs(400, "Bad Request");
    hide Dec, ErrorPage, Page;
    assert "400" + " " + "Bad Request" == "400 Bad Request";
  }

  lemma DeniedLine()
    ensures StatusLine(403, "Forbidden") == DENIED_LINE
  {
    Digits();
    hide Dec;
    assert "HTTP/1.1 " + "403" + " " + "Forbidden" == DENIED_LINE;
  }

  lemma DeniedPage()
    ensures ErrorPage(403, "Forbidden") == Page("403 Forbidden")
  {
    Digits();
    ErrorPageIs(403, "Forbidden");
    hide Dec, ErrorPage, Page;
    assert "403" + " " + "Forbidden" == "403 Forbidden";
  }

  lemma AbsentLine()
    ensures StatusLine(404, "Not Found") == ABSENT_LINE
  {
    Digits();
    hide Dec;
    assert "HTTP/1.1 " + "404" + " " + "Not Found" == ABSENT_LINE;
  }

  lemma AbsentPage()
    ensures ErrorPage(404, "Not Found") == Page("404 Not Found")
  {
    Digits();
    ErrorPageIs(404, "Not Found");
    hide Dec, ErrorPage, Page;
    assert "404" + " " + "Not Found" == "404 Not Found";
  }

  lemma LinesDiffer()
    ensures OK_LINE != BAD_LINE && OK_LINE != DENIED_LINE && OK_LINE != ABSENT_LINE
    ensures BAD_LINE != DENIED_LINE && BAD_LINE != ABSENT_LINE && DENIED_LINE != ABSENT_LINE
  {
    assert |OK_LINE| == 15 && |BAD_LINE| == 24 && |DENIED_LINE| == 22 && |ABSENT_LINE| == 22;
    assert DENIED_LINE[11] == '3' && ABSENT_LINE[11] == '4';
  }

  // ---------- the answer as the client reads it ----------

  /** The lines of a response head are these, and the payload follows them. */
  ghost predicate Reads(message: seq<char>, line: string, ctype: string, stays: bool, payload: seq<char>) {
    exists ls: seq<string>, e: nat ::
      && Lines(message, 0) == Some((ls, e)) && e <= |message| && ls != []
      && ls[0] == line && message[e..] == payload
      && ValueOf(ls, "Content-Type") == Some(ctype)
      && ValueOf(ls, "Connection") == Some(if stays then "keep-alive" else "close")
  }

  lemma HeadReads(status: nat, title: string, length: nat, ctype: string, linger: bool, payload: seq<char>)
    requires Plain(StatusLine(status, title)) && Plain(ctype) && ctype != "" && !BlankAt(ctype, 0)
    ensures Reads(Head(status, title, length, ctype, linger) + payload, StatusLine(status, title), ctype, linger,
                  payload)
  {
    var first, fs := StatusLine(status, title), HeadFields(length, ctype, linger);
    HeadFieldsArePlain(length, ctype, linger);
    assert first[0] == "HTTP/1.1 "[0] == 'H';
    LinesOfHead(first, fs, payload);
    ValuesInHead(first, length, ctype, linger);
    hide StatusLine, HeadFields, PrintFields, FieldLines, Lines, ValueOf, Plain;
    var head := Head(status, title, length, ctype, linger);
    assert (head + payload)[|head|..] == payload;
    assert ([first] + FieldLines(fs))[0] == first;
  }

  /** The answer to a decided request, its file delivering `file`. */
  function MessageOf(w: Response, file: Content): seq<char> { w.head + w.Payload(file) }

  lemma ResponseReads(code: HttpCode, status: nat, title: string, url: string, linger: bool, r: Resource, file: Content)
    requires StatusOf(code) == Some((status, title)) && ProcessWrite(code, url, linger, r).Some?
    requires r.sendfile ==> code == FileRequest
    ensures var w := ProcessWrite(code, url, linger, r).value;
      var ctype := if code == FileRequest && url != "" && url != "/" then ContentType(url) else "text/html";
      Reads(MessageOf(w, file), StatusLine(status, title), ctype, StaysOpen(code, linger), w.Payload(file))
  {
    StatusLineIsPlain(code);
    ContentTypeIsPlain(url);
    ContentTypeStarts(url);
    TextTypesArePlain();
    hide Reads, StatusLine, Head, ContentType, Plain, ErrorPage, BlankAt;
    var w := ProcessWrite(code, url, linger, r).value;
    var ctype := if code == FileRequest && url != "" && url != "/" then ContentType(url) else "text/html";
    assert "text/html" != "" && !BlankAt("text/html", 0) by { HtmlStarts(); }
    HeadReads(status, title, w.PayloadLength(), ctype, StaysOpen(code, linger), w.Payload(file));
  }

  lemma HtmlStarts()
    ensures "text/html" != "" && !BlankAt("text/html", 0)
  {
  }

  /** A refused request: 400, a page that says so, and the connection closes. */
  lemma RefusedReads(site: Site, q: Parser, file: Content)
    ensures Reads(MessageOf(Answer(site, BadRequest, q), file), BAD_LINE, "text/html", false,
                  Page("400 Bad Request"))
  {
    BadLine();
    BadPage();
    hide Reads, StatusLine, ErrorPage, Page, Head, ContentType;
    ResponseReads(BadRequest, 400, "Bad Request", q.url, q.linger, NoFile(BadRequest), file);
  }

  /** Denied: 403, a page that says so, and the connection closes. */
  lemma DeniedReads(site: Site, q: Parser, file: Content)
    requires Denied(site, q.url)
    ensures Reads(MessageOf(Answer(site, GetRequest, q), file), DENIED_LINE, "text/html", false,
                  Page("403 Forbidden"))
  {
    DeniedLine();
    DeniedPage();
    TwoDotsIff(q.url);
    hide Reads, StatusLine, ErrorPage, Page, Head, ContentType, HasDotDot, TwoDots;
    ResponseReads(ForbiddenRequest, 403, "Forbidden", q.url, q.linger, NoFile(ForbiddenRequest), file);
  }

  /** Absent: 404, a page that says so, and the connection stays as the request wished. */
  lemma AbsentReads(site: Site, q: Parser, file: Content)
    requires Absent(site, q.url)
    ensures Reads(MessageOf(Answer(site, GetRequest, q), file), ABSENT_LINE, "text/html", q.linger,
                  Page("404 Not Found"))
  {
    AbsentLine();
    AbsentPage();
    TwoDotsIff(q.url);
    hide Reads, StatusLine, ErrorPage, Page, Head, ContentType, HasDotDot, TwoDots;
    ResponseReads(NoResource, 404, "Not Found", q.url, q.linger, NoFile(NoResource), file);
  }

  /** The welcome page for "/". */
  lemma WelcomeReads(site: Site, q: Parser, file: Content)
    requires q.url == "/"
    ensures Reads(MessageOf(Answer(site, GetRequest, q), file), OK_LINE, "text/html", q.linger, site.welcome)
  {
    OkLine();
    hide Reads, StatusLine, ErrorPage, Page, Head, ContentType;
    ResponseReads(FileRequest, 200, "OK", q.url, q.linger, DoRequest(site, q.url), file);
  }

  /** A file: 200, its type, and its bytes, as many as it had when it was opened. */
  lemma FileReads(site: Site, q: Parser, file: Content, payload: seq<char>)
    requires AFile(site, q.url) && |payload| == site.files(site.root + q.url).kind.size
    requires forall i :: 0 <= i < |payload| ==> payload[i] == file(i)
    ensures Reads(MessageOf(Answer(site, GetRequest, q), file), OK_LINE,
                  if q.url == "" then "text/html" else ContentType(q.url), q.linger, payload)
    ensures var w := Answer(site, GetRequest, q); w.sendfile && w.fd == site.files(site.root + q.url).fd
  {
    OkLine();
    TwoDotsIff(q.url);
    hide Reads, StatusLine, ErrorPage, Page, Head, ContentType, HasDotDot, TwoDots;
    ResponseReads(FileRequest, 200, "OK", q.url, q.linger, DoRequest(site, q.url), file);
    assert Bytes(file, |payload|) == payload;
  }

  /** Each url is of one of these kinds. */
  lemma Kinds(site: Site, url: string)
    ensures url == "/" || Absent(site, url) || Denied(site, url) || AFile(site, url)
    ensures !(Absent(site, url) && Denied(site, url)) && !(Absent(site, url) && AFile(site, url))
    ensures !(Denied(site, url) && AFile(site, url))
  {
    hide TwoDots;
  }

  /** A message has one first line. */
  lemma OneReading(m: seq<char>, l1: string, l2: string, c1: string, c2: string, s1: bool, s2: bool, p1: seq<char>,
                   p2: seq<char>)
    requires Reads(m, l1, c1, s1, p1) && Reads(m, l2, c2, s2, p2)
    ensures l1 == l2 && c1 == c2 && s1 == s2 && p1 == p2
  {
    hide Lines, ValueOf;
    assert "keep-alive" != "close" by { assert |"keep-alive"| == 10 && |"close"| == 5; }
  }

  // ---------- the status, exactly when ----------

  ghost predicate FirstLine(m: seq<char>, line: string) { exists c, s, p :: Reads(m, line, c, s, p) }

  /** What a client reads first, exactly when: 400 for a refused request; 404 when there is nothing to send; 403 when it
      is not to be sent; 200 for the welcome page or a file. */
  lemma StatusIff(site: Site, c: HttpCode, q: Parser, file: Content)
    requires c == BadRequest || c == GetRequest
    ensures var m := MessageOf(Answer(site, c, q), file);
      && (FirstLine(m, BAD_LINE) <==> c == BadRequest)
      && (FirstLine(m, ABSENT_LINE) <==> c == GetRequest && Absent(site, q.url))
      && (FirstLine(m, DENIED_LINE) <==> c == GetRequest && Denied(site, q.url))
      && (FirstLine(m, OK_LINE) <==> c == GetRequest && (q.url == "/" || AFile(site, q.url)))
  {
    LinesDiffer();
    Kinds(site, q.url);
    WelcomeIsNothingElse(site);
    hide Reads, Answer, Absent, Denied, AFile, MessageOf, FirstLine, OK_LINE, BAD_LINE, DENIED_LINE, ABSENT_LINE;
    var m := MessageOf(Answer(site, c, q), file);
    if c == BadRequest {
      RefusedReads(site, q, file);
      OnlyFirst(m, BAD_LINE, "text/html", false, Page("400 Bad Request"));
    } else if q.url == "/" {
      WelcomeReads(site, q, file);
      OnlyFirst(m, OK_LINE, "text/html", q.linger, site.welcome);
    } else if Absent(site, q.url) {
      AbsentReads(site, q, file);
      OnlyFirst(m, ABSENT_LINE, "text/html", q.linger, Page("404 Not Found"));
    } else if Denied(site, q.url) {
      DeniedReads(site, q, file);
      OnlyFirst(m, DENIED_LINE, "text/html", false, Page("403 Forbidden"));
    } else {
      AFileStarts(site, q, file);
    }
  }

  lemma AFileStarts(site: Site, q: Parser, file: Content)
    requires AFile(site, q.url)
    ensures var m := MessageOf(Answer(site, GetRequest, q), file); forall l :: FirstLine(m, l) <==> l == OK_LINE
  {
    hide Reads, Answer, MessageOf, FirstLine, TwoDots, OK_LINE, ContentType;
    var payload := Bytes(file, site.files(site.root + q.url).kind.size);
    FileReads(site, q, file, payload);
    OnlyFirst(MessageOf(Answer(site, GetRequest, q), file), OK_LINE,
              if q.url == "" then "text/html" else ContentType(q.url), q.linger, payload);
  }

  lemma WelcomeIsNothingElse(site: Site)
    ensures !Absent(site, "/") && !Denied(site, "/") && !AFile(site, "/")
  {
  }

  lemma OnlyFirst(m: seq<char>, line: string, c: string, s: bool, p: seq<char>)
    requires Reads(m, line, c, s, p)
    ensures forall l :: FirstLine(m, l) <==> l == line
  {
    hide Reads;
    forall l ensures FirstLine(m, l) <==> l == line {
      if FirstLine(m, l) {
        var c2, s2, p2 :| Reads(m, l, c2, s2, p2);
        OneReading(m, line, l, c, c2, s, s2, p, p2);
      }
    }
  }

  /** The same for a printed request, from the request alone: it is refused when HTTP/1.1 comes without a host. */
  lemma DeservedStatusIff(site: Site, r: Request, file: Content)
    ensures var m, refused := MessageOf(S.Deserved(site, r), file), r.http11 && HostOf(r.fields, "") == "";
      && (FirstLine(m, BAD_LINE) <==> refused)
      && (FirstLine(m, ABSENT_LINE) <==> !refused && Absent(site, r.url))
      && (FirstLine(m, DENIED_LINE) <==> !refused && Denied(site, r.url))
      && (FirstLine(m, OK_LINE) <==> !refused && (r.url == "/" || AFile(site, r.url)))
  {
    var refused := r.http11 && HostOf(r.fields, "") == "";
    var q := Fresh([]).(url := r.url, linger := LingerOf(r.fields, r.http11));
    var c := if refused then BadRequest else GetRequest;
    hide FirstLine, Absent, Denied, AFile, S.Deserved, Answer, HostOf, LingerOf;
    S.DeservedIsAnswer(site, r, c, q);
    StatusIff(site, c, q, file);
  }

  // ---------- whether the connection goes on ----------

  /** The request is neither refused nor denied, and wishes the connection kept. */
  ghost predicate GoesOn(site: Site, r: Request) {
    !(r.http11 && HostOf(r.fields, "") == "") && !Denied(site, r.url) && LingerOf(r.fields, r.http11)
  }

  lemma LingerIff(site: Site, r: Request)
    ensures S.Deserved(site, r).linger <==> GoesOn(site, r)
  {
    TwoDotsIff(r.url);
    Outcomes(site, r.url);
    hide HasDotDot, TwoDots, HostOf, LingerOf, DoRequest, ErrorPage, Head, ContentType;
  }

  /** The answers to the requests one by one, up to the first after which the connection does not go on; it stays open
      exactly if there is none such. */
  ghost predicate UntilClosed(site: Site, rs: seq<Request>, ws: seq<Response>, stays: bool) {
    && |ws| <= |rs| && (forall i :: 0 <= i < |ws| ==> ws[i] == S.Deserved(site, rs[i]))
    && (forall i :: 0 <= i < |ws| - 1 ==> GoesOn(site, rs[i]))
    && (ws != [] ==> (GoesOn(site, rs[|ws| - 1]) <==> stays))
    && (if stays then |ws| == |rs| else ws != [])
  }

  lemma UntilClosedCons(site: Site, rs: seq<Request>, ws: seq<Response>, stays: bool)
    requires rs != [] && GoesOn(site, rs[0]) && UntilClosed(site, rs[1..], ws, stays)
    ensures UntilClosed(site, rs, [S.Deserved(site, rs[0])] + ws, stays)
  {
    hide GoesOn, S.Deserved;
    var all := [S.Deserved(site, rs[0])] + ws;
    forall i | 0 <= i < |all| ensures all[i] == S.Deserved(site, rs[i]) {
      if i > 0 { assert all[i] == ws[i - 1] && rs[i] == rs[1..][i - 1]; }
    }
    forall i | 0 <= i < |all| - 1 ensures GoesOn(site, rs[i]) {
      if i > 0 { assert rs[i] == rs[1..][i - 1]; }
    }
  }

  /** And the server answers that far and no further. */
  lemma {:induction false} AnsweredUntilClosed(site: Site, rs: seq<Request>)
    ensures UntilClosed(site, rs, S.DeservedAll(site, rs).0, S.DeservedAll(site, rs).1)
  {
    if rs != [] {
      LingerIff(site, rs[0]);
      AnsweredUntilClosed(site, rs[1..]);
      if GoesOn(site, rs[0]) {
        hide GoesOn, S.Deserved, UntilClosed;
        UntilClosedCons(site, rs, S.DeservedAll(site, rs[1..]).0, S.DeservedAll(site, rs[1..]).1);
      } else {
        hide GoesOn, S.Deserved;
        assert S.DeservedAll(site, rs) == ([S.Deserved(site, rs[0])], false);
      }
    }
  }
}
