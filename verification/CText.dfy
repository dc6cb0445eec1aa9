/** The C string routines the server calls, as functions on the bytes before the first NUL. */
module CText {

  const NUL: char := '\0'

  /** The first index at or after `i` that holds `c`, or the length of `s`. */
  function IndexFrom(s: seq<char>, i: nat, c: char): (k: nat)
    requires i <= |s|
    ensures i <= k <= |s|
    ensures forall j :: i <= j < k ==> s[j] != c
    ensures k < |s| ==> s[k] == c
    decreases |s| - i
  {
    if i == |s| || s[i] == c then i else IndexFrom(s, i + 1, c)
  }

  lemma IndexIs(s: seq<char>, i: nat, k: nat, c: char)
    requires i <= k < |s| && s[k] == c
    requires forall j :: i <= j < k ==> s[j] != c
    ensures IndexFrom(s, i, c) == k
  {
    var e := IndexFrom(s, i, c);
  }

  /** The string a C routine sees at the head of `s`. */
  function CStr(s: seq<char>): (t: string)
    ensures t <= s && NUL !in t
    ensures |t| < |s| ==> s[|t|] == NUL
  {
    s[..IndexFrom(s, 0, NUL)]
  }

  /** A C string does not depend on what follows its terminator. */
  lemma CStrStopsAtNul(s: seq<char>, more: seq<char>)
    requires NUL in s
    ensures CStr(s + more) == CStr(s)
  {
    var a, b := |CStr(s)|, |CStr(s + more)|;
    assert forall k :: 0 <= k < |s| ==> (s + more)[k] == s[k];
    var z :| 0 <= z < |s| && s[z] == NUL;
    assert a < |s|;
    assert (s + more)[a] == NUL;
    assert forall j :: 0 <= j < b ==> (s + more)[j] != NUL;
    assert b <= a;
    assert forall j :: 0 <= j < a ==> s[j] != NUL;
  }

  lemma CStrIs(s: seq<char>, t: string)
    requires t < s && NUL !in t && s[|t|] == NUL
    ensures CStr(s) == t
  {
    var n := |CStr(s)|;
    assert s[..n] == CStr(s);
    assert forall j :: 0 <= j < |t| ==> s[j] != NUL;
  }

  function Lower(c: char): char {
    if 'A' <= c <= 'Z' then c - 'A' + 'a' else c
  }

  /** strcasecmp(a, b) == 0 */
  predicate EqNoCase(a: string, b: string) {
    |a| == |b| && forall i :: 0 <= i < |a| ==> Lower(a[i]) == Lower(b[i])
  }

  /** strncasecmp(t, p, strlen(p)) == 0 */
  predicate HasPrefixNoCase(t: string, p: string) {
    |p| <= |t| && EqNoCase(t[..|p|], p)
  }

  predicate IsBlank(c: char) { c == ' ' || c == '\t' }

  predicate BlankAt(t: string, k: nat) { k < |t| && IsBlank(t[k]) }

  /** t + strspn(t, " \t") */
  function SkipBlanks(t: string): string {
    if BlankAt(t, 0) then SkipBlanks(t[1..]) else t
  }

  predicate IsDigit(c: char) { '0' <= c <= '9' }

  /** The value of a string of decimal digits. */
  function Decimal(t: string): nat
    requires forall c :: c in t ==> IsDigit(c)
  {
    if t == [] then 0
    else assert IsDigit(t[|t| - 1]); 10 * Decimal(t[..|t| - 1]) + (t[|t| - 1] - '0') as int
  }
}
