/** What the parser takes and what it refuses, told as a grammar: lines, request lines, header lines and the value of
    Content-Length, each exactly. */
module HttpGrammar {
  import opened CText
  import opened HttpParser
  import opened HttpResponse
  import A = HttpArrivals
  import R = HttpRoundTrip

  // ---------- letters and blanks ----------

  /** The same, or one letter in its two cases. */
  predicate SameLetter(c: char, d: char) {
    c == d || ('A' <= c <= 'Z' && d as int == c as int + 32) || ('A' <= d <= 'Z' && c as int == d as int + 32)
  }

  lemma LowerIff(c: char, d: char)
    ensures Lower(c) == Lower(d) <==> SameLetter(c, d)
  {
    assert forall x: char :: 'A' <= x <= 'Z' ==> Lower(x) as int == x as int + 32;
  }

  lemma EqNoCaseIff(a: string, b: string)
    ensures EqNoCase(a, b) <==> |a| == |b| && forall i :: 0 <= i < |a| ==> SameLetter(a[i], b[i])
  {
    hide Lower, SameLetter;
    forall i | 0 <= i < |a| && |a| == |b| ensures Lower(a[i]) == Lower(b[i]) <==> SameLetter(a[i], b[i]) {
      LowerIff(a[i], b[i]);
    }
  }

  predicate Blanks(s: string) { forall i :: 0 <= i < |s| ==> s[i] == ' ' || s[i] == '\t' }

  lemma {:induction false} SkipsThem(b: string, v: string)
    requires Blanks(b) && !BlankAt(v, 0)
    ensures SkipBlanks(b + v) == v
  {
    if b == "" {
      assert "" + v == v;
    } else {
      SkipsThem(b[1..], v);
      assert (b + v)[0] == b[0] && (b + v)[1..] == b[1..] + v;
    }
  }

  lemma {:induction false} Skipped(t: string) returns (b: string)
    ensures t == b + SkipBlanks(t) && Blanks(b) && !BlankAt(SkipBlanks(t), 0)
  {
    if BlankAt(t, 0) {
      var rest := Skipped(t[1..]);
      b := [t[0]] + rest;
    } else {
      b := "";
    }
  }

  /** `v` is what is left of `t` without its leading blanks. */
  lemma SkipBlanksIff(t: string, v: string)
    ensures SkipBlanks(t) == v <==> exists b: string :: t == b + v && Blanks(b) && !BlankAt(v, 0)
  {
    hide SkipBlanks, Blanks;
    var b := Skipped(t);
    if c: string :| t == c + v && Blanks(c) && !BlankAt(v, 0) { SkipsThem(c, v); }
  }

  // ---------- lines ----------

  predicate NoBreak(s: string) { forall i :: 0 <= i < |s| ==> s[i] != '\r' && s[i] != '\n' }

  /** `k` is where the first line break of `tail` stands, or its length. */
  predicate BreakAt(tail: string, k: nat) {
    k <= |tail| && (forall i :: 0 <= i < k ==> !IsEol(tail[i])) && (k < |tail| ==> IsEol(tail[k]))
  }

  lemma TailBreaks(p: Parser)
    requires A.Cursors(p)
    ensures var k := Eol(p.buf, p.checked) - p.start; k >= 0 && BreakAt(p.buf[p.start..], k)
  {
    var tail := p.buf[p.start..];
    assert forall i :: 0 <= i < |tail| ==> tail[i] == p.buf[p.start + i];
  }

  lemma StatusAtBreak(p: Parser)
    requires A.Cursors(p)
    ensures var k := Eol(p.buf, p.checked);
      && (ParseLine(p).0 == Ok <==> k + 1 < |p.buf| && p.buf[k] == '\r' && p.buf[k + 1] == '\n')
      && (ParseLine(p).0 == Open <==> k == |p.buf| || (k + 1 == |p.buf| && p.buf[k] == '\r'))
  {
    A.LoneLfBranchIsDead(p);
    hide A.Cursors, Blot;
  }

  lemma FirstBreak(p: Parser)
    requires A.Cursors(p)
    ensures var tail, k := p.buf[p.start..], Eol(p.buf, p.checked) - p.start;
      && k >= 0 && BreakAt(tail, k)
      && (ParseLine(p).0 == Ok <==> k + 1 < |tail| && tail[k] == '\r' && tail[k + 1] == '\n')
      && (ParseLine(p).0 == Open <==> k == |tail| || (k + 1 == |tail| && tail[k] == '\r'))
  {
    TailBreaks(p);
    StatusAtBreak(p);
    hide ParseLine, A.Cursors, BreakAt, Eol;
  }

  lemma LineEnds(tail: string, k: nat, line: string, rest: string)
    requires BreakAt(tail, k) && NoBreak(line) && tail == line + rest && rest != "" && rest[0] == '\r'
    ensures k == |line| && tail[k..] == rest
  {
    assert tail[|line|] == '\r';
    assert forall i :: 0 <= i < |line| ==> tail[i] == line[i];
  }

  ghost predicate Complete(tail: string) {
    exists line: string, rest: string :: NoBreak(line) && tail == line + ("\r\n" + rest)
  }

  ghost predicate Waiting(tail: string) {
    NoBreak(tail) || exists line: string :: NoBreak(line) && tail == line + "\r"
  }

  lemma CompleteIff(tail: string, k: nat)
    requires BreakAt(tail, k)
    ensures Complete(tail) <==> k + 1 < |tail| && tail[k] == '\r' && tail[k + 1] == '\n'
  {
    if Complete(tail) {
      var line: string, rest: string :| NoBreak(line) && tail == line + ("\r\n" + rest);
      LineEnds(tail, k, line, "\r\n" + rest);
      assert tail[k..][1] == '\n';
    }
    if k + 1 < |tail| && tail[k] == '\r' && tail[k + 1] == '\n' {
      assert NoBreak(tail[..k]) && tail == tail[..k] + ("\r\n" + tail[k + 2..]);
    }
  }

  lemma WaitingIff(tail: string, k: nat)
    requires BreakAt(tail, k)
    ensures Waiting(tail) <==> k == |tail| || (k + 1 == |tail| && tail[k] == '\r')
  {
    if line: string :| NoBreak(line) && tail == line + "\r" {
      LineEnds(tail, k, line, "\r");
    }
    if k + 1 == |tail| && tail[k] == '\r' {
      assert NoBreak(tail[..k]) && tail == tail[..k] + "\r";
    }
  }

  /** parse_line, from what it has not yet passed on: a line is complete when its first break is CR LF; more bytes are
      waited for while there is no break, or only a final CR; anything else is bad. */
  lemma LineIff(p: Parser)
    requires A.Cursors(p)
    ensures var tail := p.buf[p.start..];
      && (ParseLine(p).0 == Ok <==> Complete(tail))
      && (ParseLine(p).0 == Open <==> Waiting(tail))
  {
    FirstBreak(p);
    var tail, k := p.buf[p.start..], Eol(p.buf, p.checked) - p.start;
    hide ParseLine, Complete, Waiting, A.Cursors, BreakAt;
    CompleteIff(tail, k);
    WaitingIff(tail, k);
  }

  // ---------- request lines ----------

  /** Method, target and version, a single space between each two. The method is GET, in any case; the target is not
      empty and does not start with a tab; the version starts with HTTP/1.1 or HTTP/1.0. */
  predicate Splits(t: string, m: string, u: string, v: string) {
    && t == m + " " + u + " " + v && ' ' !in m && ' ' !in u
    && EqNoCase(m, "GET") && u != "" && u[0] != '\t'
    && (HasPrefixNoCase(v, "HTTP/1.1") || HasPrefixNoCase(v, "HTTP/1.0"))
  }

  lemma VersionStarts(v: string)
    requires HasPrefixNoCase(v, "HTTP/1.1") || HasPrefixNoCase(v, "HTTP/1.0")
    ensures v != "" && !BlankAt(v, 0)
  {
    assert Lower("HTTP/1.1"[0]) == Lower("HTTP/1.0"[0]) == 'h';
    assert Lower(v[..8][0]) == 'h';
  }

  lemma VersionsDiffer(v: string)
    ensures !(HasPrefixNoCase(v, "HTTP/1.1") && HasPrefixNoCase(v, "HTTP/1.0"))
  {
    assert Lower("HTTP/1.0"[7]) != Lower("HTTP/1.1"[7]);
  }

  lemma SplitIsTaken(p: Parser, at: nat, t: string, m: string, u: string, v: string)
    requires at + |t| <= |p.buf| && Splits(t, m, u, v)
    ensures var r := ParseRequestLine(p, at, t); var http11 := HasPrefixNoCase(v, "HTTP/1.1");
      r == (NoRequest, p.(buf := r.1.buf, url := u, linger := http11, check := Header,
                          version := if http11 then "HTTP/1.1" else "HTTP/1.0"))
  {
    VersionStarts(v);
    VersionsDiffer(v);
    hide EqNoCase, HasPrefixNoCase;
    R.TwoSpaces(m, u, v);
    var i, j := |m|, |m| + 1 + |u|;
    assert u[0] in u;
    hide HttpParser.ParseRequestLine;
    R.ParseThreeParts(p, at, t, i, j);
  }

  lemma RefusedBeforeTarget(p: Parser, at: nat, t: string, i: nat)
    requires at + |t| <= |p.buf| && IndexFrom(t, 0, ' ') == i
    requires i == |t| || BlankAt(t, i + 1) || !EqNoCase(t[..i], "GET")
    ensures ParseRequestLine(p, at, t).0 == BadRequest
  {
    hide EqNoCase, HasPrefixNoCase, IndexFrom, BlankAt;
  }

  lemma RefusedBehindTarget(p: Parser, at: nat, t: string, i: nat, j: nat)
    requires at + |t| <= |p.buf| && IndexFrom(t, 0, ' ') == i < |t| && IndexFrom(t, i + 1, ' ') == j
    requires j == |t| || !(HasPrefixNoCase(t[j + 1..], "HTTP/1.1") || HasPrefixNoCase(t[j + 1..], "HTTP/1.0"))
    ensures ParseRequestLine(p, at, t).0 == BadRequest
  {
    hide EqNoCase, HasPrefixNoCase, IndexFrom, BlankAt;
  }

  lemma Regroups(t: string, i: nat, j: nat)
    requires i < j < |t| && t[i] == t[j] == ' '
    ensures t == t[..i] + " " + t[i + 1..j] + " " + t[j + 1..]
  {
  }

  lemma PartsSplit(t: string, i: nat, j: nat)
    requires i < |t| && t[i] == ' ' && !BlankAt(t, i + 1) && EqNoCase(t[..i], "GET")
    requires i < j < |t| && t[j] == ' ' && (forall k :: 0 <= k < i || i < k < j ==> t[k] != ' ')
    requires HasPrefixNoCase(t[j + 1..], "HTTP/1.1") || HasPrefixNoCase(t[j + 1..], "HTTP/1.0")
    ensures Splits(t, t[..i], t[i + 1..j], t[j + 1..])
  {
    hide EqNoCase, HasPrefixNoCase;
    Regroups(t, i, j);
    assert t[i + 1..j][0] == t[i + 1];
  }

  lemma TakenSplits(p: Parser, at: nat, t: string)
    requires at + |t| <= |p.buf| && ParseRequestLine(p, at, t).0 == NoRequest
    ensures exists m, u, v :: Splits(t, m, u, v)
  {
    hide EqNoCase, HasPrefixNoCase, HttpParser.ParseRequestLine, Splits, BlankAt;
    var i := IndexFrom(t, 0, ' ');
    if i == |t| || BlankAt(t, i + 1) || !EqNoCase(t[..i], "GET") { RefusedBeforeTarget(p, at, t, i); }
    var j := IndexFrom(t, i + 1, ' ');
    if j == |t| || !(HasPrefixNoCase(t[j + 1..], "HTTP/1.1") || HasPrefixNoCase(t[j + 1..], "HTTP/1.0")) {
      RefusedBehindTarget(p, at, t, i, j);
    }
    PartsSplit(t, i, j);
  }

  /** parse_request_line takes exactly the lines that split so, and takes the target and the version from them; any
      other method, doubled blank or version is refused. */
  lemma RequestLineIff(p: Parser, at: nat, t: string)
    requires at + |t| <= |p.buf|
    ensures var r := ParseRequestLine(p, at, t);
      && (r.0 == NoRequest <==> exists m, u, v :: Splits(t, m, u, v))
      && (r.0 != NoRequest ==> r.0 == BadRequest)
      && forall m, u, v :: Splits(t, m, u, v) ==>
           r.1.url == u && r.1.linger == HasPrefixNoCase(v, "HTTP/1.1")
           && r.1.version == if HasPrefixNoCase(v, "HTTP/1.1") then "HTTP/1.1" else "HTTP/1.0"
  {
    hide Splits, HasPrefixNoCase;
    var r := ParseRequestLine(p, at, t);
    if r.0 == NoRequest { TakenSplits(p, at, t); }
    hide HttpParser.ParseRequestLine;
    forall m, u, v | Splits(t, m, u, v)
      ensures r.0 == NoRequest && r.1.url == u && r.1.linger == HasPrefixNoCase(v, "HTTP/1.1")
              && r.1.version == if HasPrefixNoCase(v, "HTTP/1.1") then "HTTP/1.1" else "HTTP/1.0" {
      SplitIsTaken(p, at, t, m, u, v);
    }
  }

  // ---------- the value of Content-Length ----------

  function Zeros(k: nat): (z: string)
    ensures |z| == k
  {
    seq(k, _ => '0')
  }

  /** A string of digits with the value n is n as it is printed, behind zeros. */
  lemma {:induction false} DigitsAre(d: string, n: nat)
    requires d != "" && forall c :: c in d ==> IsDigit(c)
    ensures Decimal(d) == n <==> exists k :: d == Zeros(k) + Dec(n)
  {
    if Decimal(d) == n { var z := DecimalIsPrinted(d); }
    if k :| d == Zeros(k) + Dec(n) {
      DecimalOfDec(n);
      DecimalSkipsZeros(k, Dec(n));
    }
  }

  lemma DigitIs(c: char)
    requires IsDigit(c)
    ensures Dec((c - '0') as int) == [c]
  {
  }

  lemma OneMoreDigit(z: nat, n: nat, c: char)
    requires IsDigit(c)
    ensures var m := 10 * n + (c - '0') as int;
      Zeros(z) + Dec(n) + [c] == if n > 0 then Zeros(z) + Dec(m) else Zeros(z + 1) + Dec(m)
  {
    DigitIs(c);
    if n > 0 {
      assert Zeros(z) + Dec(n) + [c] == Zeros(z) + (Dec(n) + [c]);
    } else {
      assert Zeros(z) + "0" == Zeros(z + 1);
    }
  }

  lemma DecimalSnoc(e: string, c: char)
    requires IsDigit(c) && forall x :: x in e ==> IsDigit(x)
    ensures Decimal(e + [c]) == 10 * Decimal(e) + (c - '0') as int
  {
    assert (e + [c])[..|e|] == e;
  }

  lemma {:induction false} DecimalIsPrinted(d: string) returns (z: nat)
    requires d != "" && forall c :: c in d ==> IsDigit(c)
    ensures d == Zeros(z) + Dec(Decimal(d))
  {
    var e, c := d[..|d| - 1], d[|d| - 1];
    assert d == e + [c] && IsDigit(c) by { assert c in d; }
    DecimalSnoc(e, c);
    hide Dec, Decimal;
    if e == "" {
      DigitIs(c);
      DecimalOfNothing();
      z := 0;
      assert Zeros(0) + [c] == [c];
    } else {
      z := DecimalIsPrinted(e);
      OneMoreDigit(z, Decimal(e), c);
      if Decimal(e) == 0 { z := z + 1; }
    }
  }

  lemma DecimalOfNothing()
    ensures Decimal("") == 0
  {
  }

  lemma {:induction false} DecimalSkipsZeros(k: nat, d: string)
    requires forall c :: c in d ==> IsDigit(c)
    ensures forall c :: c in Zeros(k) + d ==> IsDigit(c)
    ensures Decimal(Zeros(k) + d) == Decimal(d)
  {
    var t := Zeros(k) + d;
    if d != "" {
      assert t[..|t| - 1] == Zeros(k) + d[..|d| - 1];
      DecimalSkipsZeros(k, d[..|d| - 1]);
    } else if k > 0 {
      assert t[..|t| - 1] == Zeros(k - 1) + "";
      DecimalSkipsZeros(k - 1, "");
    }
  }

  /** An optional sign, zeros, and the number as it is printed: ten digits at most. */
  ghost predicate Numeral(t: string, sign: string, n: nat) {
    exists k: nat :: t == sign + (Zeros(k) + Dec(n)) && k + |Dec(n)| <= 10
  }

  lemma NumeralIff(d: string, n: nat)
    requires d != "" && |d| <= 10 && forall c :: c in d ==> IsDigit(c)
    ensures Numeral(d, "", n) <==> Decimal(d) == n
  {
    DigitsAre(d, n);
    hide Dec, Decimal;
    if Decimal(d) == n {
      var k :| d == Zeros(k) + Dec(n);
      assert d == "" + (Zeros(k) + Dec(n));
    }
    if Numeral(d, "", n) {
      var k: nat :| d == "" + (Zeros(k) + Dec(n)) && k + |Dec(n)| <= 10;
      assert d == Zeros(k) + Dec(n);
    }
  }

  lemma PrintedIsDigits(k: nat, n: nat)
    requires k + |Dec(n)| <= 10
    ensures var d := Zeros(k) + Dec(n);
      d != "" && |d| <= 10 && (forall c :: c in d ==> IsDigit(c)) && Decimal(d) == n && Numeral(d, "", n)
  {
    DecimalSkipsZeros(k, Dec(n));
    DecimalOfDec(n);
    hide Dec, Decimal;
    assert Zeros(k) + Dec(n) == "" + (Zeros(k) + Dec(n));
  }

  predicate Sign(s: string) { s == "" || s == "+" || s == "-" }

  lemma ContentLengthOf(sign: string, d: string)
    requires Sign(sign) && d != "" && forall c :: c in d ==> IsDigit(c)
    ensures ContentLength(sign + d) ==
      if |d| > 10 || Decimal(d) >= READ_BUFFER_SIZE || (sign == "-" && Decimal(d) > 0) then None else Some(Decimal(d))
  {
    hide Decimal;
    assert d[0] in d;
    if sign == "" {
      assert sign + d == d;
    } else {
      assert (sign + d)[1..] == d && (sign + d)[0] == sign[0];
    }
  }

  lemma ContentLengthSplits(t: string) returns (sign: string, d: string)
    requires ContentLength(t).Some?
    ensures Sign(sign) && t == sign + d && d != "" && |d| <= 10 && forall c :: c in d ==> IsDigit(c)
  {
    hide Decimal;
    if |t| > 0 && (t[0] == '-' || t[0] == '+') {
      sign, d := t[..1], t[1..];
      assert t[..1] == [t[0]];
    } else {
      sign, d := "", t;
    }
  }

  /** The values taken: below the buffer's size, and no number below zero. */
  ghost predicate Takes(t: string, n: nat) {
    n < 16384 && (Numeral(t, "", n) || Numeral(t, "+", n) || (n == 0 && Numeral(t, "-", 0)))
  }

  lemma TakenNumeral(t: string, sign: string, n: nat)
    requires Numeral(t, sign, n) && Sign(sign)
    ensures ContentLength(t) == if n >= READ_BUFFER_SIZE || (sign == "-" && n > 0) then None else Some(n)
  {
    var k: nat :| t == sign + (Zeros(k) + Dec(n)) && k + |Dec(n)| <= 10;
    PrintedIsDigits(k, n);
    hide Dec, Decimal, ContentLength;
    ContentLengthOf(sign, Zeros(k) + Dec(n));
  }

  lemma NumeralOf(sign: string, d: string)
    requires d != "" && |d| <= 10 && forall c :: c in d ==> IsDigit(c)
    ensures Numeral(sign + d, sign, Decimal(d))
  {
    NumeralIff(d, Decimal(d));
    hide Dec, Decimal;
    var k: nat :| d == "" + (Zeros(k) + Dec(Decimal(d))) && k + |Dec(Decimal(d))| <= 10;
    assert d == Zeros(k) + Dec(Decimal(d));
  }

  /** The value of Content-Length, exactly. */
  lemma ContentLengthIff(t: string, n: nat)
    ensures ContentLength(t) == Some(n) <==> Takes(t, n)
  {
    hide ContentLength, Numeral, Decimal;
    if ContentLength(t) == Some(n) {
      var sign, d := ContentLengthSplits(t);
      NumeralOf(sign, d);
      ContentLengthOf(sign, d);
    }
    if Takes(t, n) {
      if Numeral(t, "", n) { TakenNumeral(t, "", n); }
      else if Numeral(t, "+", n) { TakenNumeral(t, "+", n); }
      else { TakenNumeral(t, "-", 0); }
    }
  }

  // ---------- header lines ----------

  /** A line with that field name and value, blanks between the two left out. */
  ghost predicate Named(t: string, name: string, v: string) {
    exists m: string, b: string :: t == m + (":" + (b + v)) && EqNoCase(m, name) && Blanks(b) && !BlankAt(v, 0)
  }

  lemma PrefixSplits(t: string, name: string)
    ensures HasPrefixNoCase(t, name + ":") <==>
      |t| > |name| && EqNoCase(t[..|name|], name) && t[|name|] == ':'
  {
    var n := |name|;
    assert (name + ":")[n] == ':' && forall i :: 0 <= i < n ==> (name + ":")[i] == name[i];
    if |t| > n {
      assert t[..n + 1][n] == t[n] && forall i :: 0 <= i < n ==> t[..n + 1][i] == t[..n][i];
      assert Lower(t[n]) == ':' <==> t[n] == ':';
    }
  }

  lemma NamedIff(t: string, name: string, v: string)
    ensures Named(t, name, v) <==> HasPrefixNoCase(t, name + ":") && SkipBlanks(t[|name| + 1..]) == v
    ensures HasPrefixNoCase(t, name + ":") ==> ':' in t
  {
    PrefixSplits(t, name);
    hide HasPrefixNoCase, SkipBlanks, Blanks, Lower;
    var n := |name|;
    if m: string, b: string :| t == m + (":" + (b + v)) && EqNoCase(m, name) && Blanks(b) && !BlankAt(v, 0) {
      assert t[..n] == m && t[n] == ':' && t[n + 1..] == b + v;
      SkipsThem(b, v);
    }
    if |t| > n && EqNoCase(t[..n], name) && t[n] == ':' && SkipBlanks(t[n + 1..]) == v {
      var b := Skipped(t[n + 1..]);
      assert t == t[..n] + (":" + (b + v));
    }
  }

  lemma NamesDiffer(t: string)
    ensures !(HasPrefixNoCase(t, "Host:") && HasPrefixNoCase(t, "Connection:"))
    ensures !(HasPrefixNoCase(t, "Host:") && HasPrefixNoCase(t, "Content-Length:"))
    ensures !(HasPrefixNoCase(t, "Connection:") && HasPrefixNoCase(t, "Content-Length:"))
  {
    assert Lower("Host:"[0]) == 'h' && Lower("Connection:"[0]) == Lower("Content-Length:"[0]) == 'c';
    assert Lower("Connection:"[3]) == 'n' && Lower("Content-Length:"[3]) == 't';
    if |t| >= 15 { assert t[..5][0] == t[..11][0] == t[..15][0] && t[..11][3] == t[..15][3]; }
    if |t| >= 11 { assert t[..5][0] == t[..11][0]; }
  }

  lemma NameTexts()
    ensures "Host" + ":" == "Host:" && "Connection" + ":" == "Connection:"
    ensures "Content-Length" + ":" == "Content-Length:"
    ensures |"Host"| == 4 && |"Connection"| == 10 && |"Content-Length"| == 14
  {
  }

  /** What parse_headers makes of a line that names Host, Connection or Content-Length, in any case. */
  lemma NamedLine(p: Parser, t: string, v: string)
    ensures Named(t, "Host", v) ==> ParseHeader(p, t) == (NoRequest, p.(host := v))
    ensures Named(t, "Connection", v) ==> ParseHeader(p, t) == (NoRequest, p.(linger := EqNoCase(v, "keep-alive")))
    ensures Named(t, "Content-Length", v) ==>
      ParseHeader(p, t) ==
      if ContentLength(v).Some? then (NoRequest, p.(contentLength := ContentLength(v).value)) else (BadRequest, p)
  {
    NamedIff(t, "Host", v);
    NamedIff(t, "Connection", v);
    NamedIff(t, "Content-Length", v);
    NameTexts();
    NamesDiffer(t);
    hide Named, HasPrefixNoCase, SkipBlanks, ContentLength, EqNoCase;
  }

  lemma OtherLine(p: Parser, t: string)
    requires t != "" && forall name, v :: name in {"Host", "Connection", "Content-Length"} ==> !Named(t, name, v)
    ensures ParseHeader(p, t) == (if ':' in t then NoRequest else BadRequest, p)
  {
    NameTexts();
    hide Named, HasPrefixNoCase, SkipBlanks, ContentLength, EqNoCase;
    forall name | name in {"Host", "Connection", "Content-Length"} ensures !HasPrefixNoCase(t, name + ":") {
      if HasPrefixNoCase(t, name + ":") { PrefixIsNamed(t, name); }
    }
  }

  lemma PrefixIsNamed(t: string, name: string)
    requires HasPrefixNoCase(t, name + ":")
    ensures ':' in t && exists v :: Named(t, name, v)
  {
    PrefixSplits(t, name);
    NamedIff(t, name, SkipBlanks(t[|name| + 1..]));
  }

  lemma NamedHasColon(t: string, name: string, v: string)
    requires Named(t, name, v)
    ensures ':' in t
  {
    var m: string, b: string :| t == m + (":" + (b + v)) && EqNoCase(m, name) && Blanks(b) && !BlankAt(v, 0);
    assert t[|m|] == ':';
  }

  lemma EmptyLine(p: Parser)
    ensures var c := ParseHeader(p, "").0;
      && (c == BadRequest <==> p.version == "HTTP/1.1" && p.host == "")
      && (c == GetRequest <==> !(p.version == "HTTP/1.1" && p.host == "") && p.contentLength == 0)
  {
  }

  /** parse_headers refuses exactly: the empty line of an HTTP/1.1 request without a host, a line without a colon, and a
      Content-Length it does not take. It completes a request exactly at the empty line of any other without a body. */
  lemma HeaderRefusedIff(p: Parser, t: string)
    ensures var c := ParseHeader(p, t).0; var hostMissing := p.version == "HTTP/1.1" && p.host == "";
      && (c == BadRequest <==>
          if t == "" then hostMissing
          else ':' !in t || exists v :: Named(t, "Content-Length", v) && forall n: nat :: !Takes(v, n))
      && (c == GetRequest <==> t == "" && !hostMissing && p.contentLength == 0)
  {
    if t == "" {
      EmptyLine(p);
    } else if v :| Named(t, "Content-Length", v) {
      NamedHasColon(t, "Content-Length", v);
      LengthLine(p, t, v);
    } else if v :| Named(t, "Host", v) {
      NamedHasColon(t, "Host", v);
      NamedLine(p, t, v);
    } else if v :| Named(t, "Connection", v) {
      NamedHasColon(t, "Connection", v);
      NamedLine(p, t, v);
    } else {
      OtherLine(p, t);
    }
  }

  lemma LengthLine(p: Parser, t: string, v: string)
    requires Named(t, "Content-Length", v)
    ensures ParseHeader(p, t).0 == if forall n: nat :: !Takes(v, n) then BadRequest else NoRequest
    ensures forall w :: Named(t, "Content-Length", w) ==> w == v
  {
    NamedLine(p, t, v);
    hide ParseHeader, Named, Takes, ContentLength;
    forall n: nat ensures ContentLength(v) == Some(n) <==> Takes(v, n) { ContentLengthIff(v, n); }
    forall w | Named(t, "Content-Length", w) ensures w == v {
      NamedIff(t, "Content-Length", v);
      NamedIff(t, "Content-Length", w);
    }
    if ContentLength(v).Some? { assert Takes(v, ContentLength(v).value); }
  }

  // ---------- content types ----------

  lemma {:induction false} LastDotIs(stem: string, ext: string)
    requires '.' !in ext
    ensures LastDot(stem + "." + ext) == |stem|
    decreases |ext|
  {
    var url := stem + "." + ext;
    assert url[|stem|] == '.';
    if ext != "" {
      assert url[|url| - 1] == ext[|ext| - 1] && ext[|ext| - 1] in ext;
      assert url[..|url| - 1] == stem + "." + ext[..|ext| - 1];
      LastDotIs(stem, ext[..|ext| - 1]);
    }
  }

  lemma DottedEq(ext: string, x: string)
    ensures EqNoCase("." + ext, "." + x) <==> EqNoCase(ext, x)
  {
    assert forall i :: 0 <= i < |ext| ==> ("." + ext)[i + 1] == ext[i];
    assert forall i :: 0 <= i < |x| ==> ("." + x)[i + 1] == x[i];
  }

  /** The type announced for a file name's extension, in any case. */
  function TypeFor(ext: string): string {
    if EqNoCase(ext, "html") || EqNoCase(ext, "htm") then "text/html"
    else if EqNoCase(ext, "css") then "text/css"
    else if EqNoCase(ext, "js") then "application/javascript"
    else if EqNoCase(ext, "png") then "image/png"
    else if EqNoCase(ext, "jpg") || EqNoCase(ext, "jpeg") then "image/jpeg"
    else if EqNoCase(ext, "gif") then "image/gif"
    else if EqNoCase(ext, "txt") then "text/plain"
    else "application/octet-stream"
  }

  lemma TextNames(ext: string)
    ensures EqNoCase("." + ext, ".html") <==> EqNoCase(ext, "html")
    ensures EqNoCase("." + ext, ".htm") <==> EqNoCase(ext, "htm")
    ensures EqNoCase("." + ext, ".css") <==> EqNoCase(ext, "css")
    ensures EqNoCase("." + ext, ".js") <==> EqNoCase(ext, "js")
  {
    assert "." + "html" == ".html" && "." + "htm" == ".htm" && "." + "css" == ".css" && "." + "js" == ".js";
    DottedEq(ext, "html");
    DottedEq(ext, "htm");
    DottedEq(ext, "css");
    DottedEq(ext, "js");
    hide EqNoCase;
  }

  lemma OtherNames(ext: string)
    ensures EqNoCase("." + ext, ".png") <==> EqNoCase(ext, "png")
    ensures EqNoCase("." + ext, ".jpg") <==> EqNoCase(ext, "jpg")
    ensures EqNoCase("." + ext, ".jpeg") <==> EqNoCase(ext, "jpeg")
    ensures EqNoCase("." + ext, ".gif") <==> EqNoCase(ext, "gif")
    ensures EqNoCase("." + ext, ".txt") <==> EqNoCase(ext, "txt")
  {
    assert "." + "png" == ".png" && "." + "jpg" == ".jpg" && "." + "jpeg" == ".jpeg";
    assert "." + "gif" == ".gif" && "." + "txt" == ".txt";
    DottedEq(ext, "png");
    DottedEq(ext, "jpg");
    DottedEq(ext, "jpeg");
    DottedEq(ext, "gif");
    DottedEq(ext, "txt");
    hide EqNoCase;
  }

  /** What follows the last dot decides; without a dot it is plain text. */
  lemma TypeByExtension(stem: string, ext: string)
    requires '.' !in ext
    ensures ContentType(stem + "." + ext) == TypeFor(ext)
    ensures '.' !in stem ==> ContentType(stem) == "text/plain"
  {
    LastDotIs(stem, ext);
    NoDot(stem);
    TextNames(ext);
    OtherNames(ext);
    hide LastDot, EqNoCase;
    assert (stem + "." + ext)[|stem|..] == "." + ext;
  }

  lemma NoDot(url: string)
    ensures '.' !in url ==> LastDot(url) == |url|
  {
  }
}
