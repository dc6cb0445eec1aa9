/** The asynchronous log: front ends append lines to a current buffer under a mutex, a back-end thread takes the full
    buffers away and writes them outside it. The mutex makes each critical section one step; the loop over the taken
    buffers and the unlocked read of the running flag are steps of their own. */
module AsyncLog {

  const CAPACITY := 4 * 1024 * 1024
  const HEADER_MAX := 255
  const MESSAGE_MAX := 1023

  function Clipped(s: string, max: nat): (r: string)
    ensures |r| <= max && r <= s
  {
    if |s| > max then s[..max] else s
  }

  /** One log line, from a formatted header and a formatted message. */
  function Line(header: string, message: string): (r: string)
    ensures 0 < |r| <= 1279 && r[|r| - 1] == '\n'
  {
    Clipped(header, HEADER_MAX) + Clipped(message, MESSAGE_MAX) + "\n"
  }

  /** It is the header's first 255 bytes at most, then the message's first 1023 at most, then a newline. */
  lemma LineReads(header: string, message: string)
    ensures var h, m := if |header| < 255 then |header| else 255, if |message| < 1023 then |message| else 1023;
      var line := Line(header, message);
      && |line| == h + m + 1 && line[h + m] == '\n'
      && (forall i :: 0 <= i < h ==> line[i] == header[i])
      && (forall i :: 0 <= i < m ==> line[h + i] == message[i])
  {
  }

  // ---------- the shared state and its steps ----------

  /** backend_loop: not started, in wait_for, writing the buffers it took, having seen the flag clear, returned. In
      `Exited`, `cut` records how long the file was before the last flush. */
  datatype Backend = Unstarted | Waiting | Writing(taken: seq<string>) | Leaving | Exited(cut: nat)

  /** `accepted` records the lines put into a buffer. */
  datatype Log = Log(started: bool, cur: string, ready: seq<string>, backend: Backend, file: string,
                     accepted: seq<string>)

  datatype Step = Start | Append(header: string, message: string) | Shutdown | Swap | WriteOne | CheckFlag | Exit

  /** Where a line goes: the current buffer, or a new one with the full one put on the ready list. */
  function Placed(cur: string, ready: seq<string>, line: string): (r: (string, seq<string>)) {
    if |cur| + |line| <= CAPACITY then (cur + line, ready)
    else (if |line| <= CAPACITY then line else "", ready + [cur])
  }

  /** What the back end takes: the ready list, with the current buffer behind it if that holds anything. */
  function Handed(cur: string, ready: seq<string>): seq<string> { if cur == "" then ready else ready + [cur] }

  predicate Enabled(s: Log, e: Step) {
    match e
    case Start => s.backend == Unstarted
    case Append(_, _) => true
    case Shutdown => true
    case Swap => s.backend == Waiting
    case WriteOne => s.backend.Writing? && s.backend.taken != []
    case CheckFlag => s.backend == Writing([])
    case Exit => s.backend == Leaving
  }

  function Next(s: Log, e: Step): Log
    requires Enabled(s, e)
  {
    match e
    case Start => s.(started := true, backend := Waiting)
    case Append(header, message) =>
      if !s.started then s
      else
        var line := Line(header, message);
        var p := Placed(s.cur, s.ready, line);
        s.(cur := p.0, ready := p.1, accepted := s.accepted + [line])
    case Shutdown => s.(started := false)
    case Swap => s.(cur := "", ready := [], backend := Writing(Handed(s.cur, s.ready)))
    case WriteOne => s.(file := s.file + s.backend.taken[0], backend := Writing(s.backend.taken[1..]))
    case CheckFlag => s.(backend := if s.started then Waiting else Leaving)
    case Exit => s.(file := s.file + s.cur, cur := "", backend := Exited(|s.file|))
  }

  const INITIAL := Log(false, "", [], Unstarted, "", [])

  predicate IsRun(ss: seq<Log>, es: seq<Step>) {
    && |ss| == |es| + 1 && ss[0] == INITIAL
    && forall k :: 0 <= k < |es| ==> Enabled(ss[k], es[k]) && ss[k + 1] == Next(ss[k], es[k])
  }

  // ---------- conservation and order ----------

  function Concat(ls: seq<string>): string { if ls == [] then "" else ls[0] + Concat(ls[1..]) }

  lemma {:induction false} ConcatSnoc(ls: seq<string>, l: string)
    ensures Concat(ls + [l]) == Concat(ls) + l
  {
    if ls == [] {
      assert [] + [l] == [l];
    } else {
      assert (ls + [l])[1..] == ls[1..] + [l];
      ConcatSnoc(ls[1..], l);
    }
  }

  lemma {:induction false} ConcatOfFull(ls: seq<string>)
    requires forall i :: 0 <= i < |ls| ==> ls[i] != ""
    ensures Concat(ls) == "" <==> ls == []
  {
  }

  function Taken(s: Log): seq<string> { if s.backend.Writing? then s.backend.taken else [] }

  /** Buffers handed over are never empty and never overfull, and nothing lies around outside a session. */
  predicate Sound(s: Log) {
    && |s.cur| <= CAPACITY
    && (forall i :: 0 <= i < |s.ready| ==> 0 < |s.ready[i]| <= CAPACITY)
    && (s.backend == Unstarted ==> !s.started && s.cur == "" && s.ready == [])
    && (s.backend == Leaving || s.backend.Exited? ==> !s.started)
    && (s.backend.Exited? ==> s.cur == "" && s.backend.cut <= |s.file|)
  }

  /** The accepted lines, in order, are what is in the file, then what the back end has in hand, then the ready list,
      then the current buffer; behind the exit, the ready list is what was left out at the cut. */
  predicate Conserved(s: Log) {
    match s.backend
    case Exited(cut) =>
      cut <= |s.file| && Concat(s.accepted) == s.file[..cut] + Concat(s.ready) + s.file[cut..]
    case _ => Concat(s.accepted) == s.file + Concat(Taken(s)) + Concat(s.ready) + s.cur
  }

  lemma PlacedConserves(cur: string, ready: seq<string>, line: string)
    requires |line| <= CAPACITY
    ensures Concat(Placed(cur, ready, line).1) + Placed(cur, ready, line).0 == Concat(ready) + cur + line
  {
    ConcatSnoc(ready, cur);
    assert Concat(ready) + (cur + line) == Concat(ready) + cur + line;
  }

  lemma HandedConserves(cur: string, ready: seq<string>)
    ensures Concat(Handed(cur, ready)) == Concat(ready) + cur
  {
    ConcatSnoc(ready, cur);
    assert Concat(ready) + "" == Concat(ready);
  }

  lemma StepKeepsSound(s: Log, e: Step)
    requires Sound(s) && Enabled(s, e)
    ensures Sound(Next(s, e))
  {
  }

  lemma AppendConserves(s: Log, header: string, message: string)
    requires s.started && Sound(s) && Conserved(s)
    ensures Conserved(Next(s, Append(header, message)))
  {
    hide Placed, Line;
    var n, line := Next(s, Append(header, message)), Line(header, message);
    ConcatSnoc(s.accepted, line);
    PlacedConserves(s.cur, s.ready, line);
    var before := s.file + Concat(Taken(s));
    assert Concat(n.accepted) == before + (Concat(s.ready) + s.cur + line);
    assert before + (Concat(n.ready) + n.cur) == before + Concat(n.ready) + n.cur;
  }

  lemma StepConserves(s: Log, e: Step)
    requires Sound(s) && Conserved(s) && Enabled(s, e)
    ensures Conserved(Next(s, e))
  {
    hide Placed, Handed, Line;
    var n := Next(s, e);
    match e
    case Append(header, message) =>
      if s.started { AppendConserves(s, header, message); }
    case Swap =>
      HandedConserves(s.cur, s.ready);
      assert s.file + "" + Concat(s.ready) + s.cur == s.file + (Concat(s.ready) + s.cur);
    case WriteOne =>
      var b := s.backend.taken;
      assert s.file + (b[0] + Concat(b[1..])) == s.file + b[0] + Concat(b[1..]);
    case Exit =>
      assert n.file[..|s.file|] == s.file && n.file[|s.file|..] == s.cur;
    case _ =>
  }

  lemma InitialIsConserved()
    ensures Sound(INITIAL) && Conserved(INITIAL)
  {
  }

  lemma {:induction false} ReachableIsConserved(ss: seq<Log>, es: seq<Step>, k: nat)
    requires IsRun(ss, es) && k <= |es|
    ensures Sound(ss[k]) && Conserved(ss[k])
    decreases k
  {
    hide Sound, Conserved, Next, Enabled;
    if k == 0 {
      InitialIsConserved();
    } else {
      ReachableIsConserved(ss, es, k - 1);
      StepKeepsSound(ss[k - 1], es[k - 1]);
      StepConserves(ss[k - 1], es[k - 1]);
    }
  }

  /** Nothing reaches the file out of turn: before the exit the file is a prefix of the lines accepted so far. */
  lemma FileIsAPrefix(ss: seq<Log>, es: seq<Step>, k: nat)
    requires IsRun(ss, es) && k <= |es| && !ss[k].backend.Exited?
    ensures ss[k].file <= Concat(ss[k].accepted)
  {
    ReachableIsConserved(ss, es, k);
  }

  /** At the exit nothing is missing exactly when the ready list was empty as the exit path took the mutex; what is
      missing is the ready list, and the last flush stands behind the gap. */
  lemma CompleteIff(ss: seq<Log>, es: seq<Step>, k: nat)
    requires IsRun(ss, es) && k < |es| && es[k] == Exit
    ensures ss[k + 1].file == Concat(ss[k + 1].accepted) <==> ss[k].ready == []
    ensures |Concat(ss[k + 1].accepted)| == |ss[k + 1].file| + |Concat(ss[k].ready)|
  {
    ReachableIsConserved(ss, es, k);
    ReachableIsConserved(ss, es, k + 1);
    var s, n := ss[k], ss[k + 1];
    assert n == Next(s, Exit);
    ConcatOfFull(s.ready);
    if s.ready == [] {
      assert s.file + "" + s.cur == n.file;
    }
  }

  /** The lines of the appends among the first k steps that found the log started. */
  function Logged(ss: seq<Log>, es: seq<Step>, k: nat): seq<string>
    requires k <= |es| < |ss|
  {
    if k == 0 then []
    else
      var e, before := es[k - 1], Logged(ss, es, k - 1);
      if e.Append? && ss[k - 1].started then before + [Line(e.header, e.message)] else before
  }

  /** The lines accepted are exactly those, no append of a started log left out; and it is started from Start to
      Shutdown. */
  lemma {:induction false} AcceptedIsLogged(ss: seq<Log>, es: seq<Step>, k: nat)
    requires IsRun(ss, es) && k <= |es|
    ensures |ss| == |es| + 1 && ss[k].accepted == Logged(ss, es, k)
    ensures ss[k].started <==> exists j :: 0 <= j < k && SetBy(es, j, k)
    decreases k
  {
    if k > 0 {
      AcceptedIsLogged(ss, es, k - 1);
      var s, e := ss[k - 1], es[k - 1];
      assert Enabled(s, e) && ss[k] == Next(s, e);
      StepLogs(s, e);
      StartedStep(es, k - 1, k);
      hide Next, Enabled, Line, SetBy;
    }
  }

  /** Step j is Start, and no step from there to k is Shutdown. */
  predicate SetBy(es: seq<Step>, j: nat, k: nat)
    requires j < k <= |es|
  {
    es[j] == Start && forall x :: j < x < k ==> es[x] != Shutdown
  }

  lemma OneMoreStep(es: seq<Step>, j: nat, k: nat)
    requires j < k <= |es|
    ensures SetBy(es, j, k) <==> if j == k - 1 then es[j] == Start else SetBy(es, j, k - 1) && es[k - 1] != Shutdown
  {
  }

  lemma StartedStep(es: seq<Step>, m: nat, k: nat)
    requires m + 1 == k <= |es|
    ensures (exists j :: 0 <= j < k && SetBy(es, j, k)) <==>
      es[m] == Start || ((exists j :: 0 <= j < m && SetBy(es, j, m)) && es[m] != Shutdown)
  {
    hide SetBy;
    if j :| 0 <= j < k && SetBy(es, j, k) { OneMoreStep(es, j, k); }
    if j :| 0 <= j < m && SetBy(es, j, m) { OneMoreStep(es, j, k); }
    OneMoreStep(es, m, k);
  }

  lemma StepLogs(s: Log, e: Step)
    requires Enabled(s, e)
    ensures Next(s, e).accepted ==
      if e.Append? && s.started then s.accepted + [Line(e.header, e.message)] else s.accepted
    ensures Next(s, e).started <==> e == Start || (s.started && e != Shutdown)
  {
    hide Line, Placed;
  }

  /** A started log takes every line whole, even when the current buffer was full: the second append cannot fail. */
  lemma NoLineIsCut(ss: seq<Log>, es: seq<Step>, k: nat)
    requires IsRun(ss, es) && k < |es| && es[k].Append? && ss[k].started
    ensures exists before ::
      ss[k + 1].cur == before + Line(es[k].header, es[k].message) && (before == "" || before == ss[k].cur)
  {
    ReachableIsConserved(ss, es, k);
    var s, line := ss[k], Line(es[k].header, es[k].message);
    assert ss[k + 1] == Next(s, es[k]);
    assert "" + line == line;
  }

  /** Back-end steps still to go once the flag is clear. */
  function Rank(s: Log): nat {
    match s.backend
    case Waiting => |Handed(s.cur, s.ready)| + 3
    case Writing(taken) => |taken| + 2
    case Leaving => 1
    case _ => 0
  }

  /** Once the flag is clear nothing but the back end moves the log, it always can, and each step of it counts down to
      its exit: the join in shutdown returns. */
  lemma ShutdownEnds(s: Log, e: Step)
    requires !s.started && s.backend != Unstarted && Enabled(s, e)
    ensures if e.Append? || e == Shutdown then Next(s, e) == s
            else !Next(s, e).started && Rank(Next(s, e)) < Rank(s)
    ensures Rank(s) > 0 ==> Enabled(s, Swap) || Enabled(s, WriteOne) || Enabled(s, CheckFlag) || Enabled(s, Exit)
    ensures Rank(s) == 0 <==> s.backend.Exited?
  {
  }

  predicate IsBackendStep(e: Step) { !e.Append? && e != Shutdown }

  /** Back-end steps among steps k to m. */
  function BackendSteps(es: seq<Step>, k: nat, m: nat): nat
    requires k <= m <= |es|
    decreases m
  {
    if k == m then 0 else BackendSteps(es, k, m - 1) + if IsBackendStep(es[m - 1]) then 1 else 0
  }

  /** Over a run: after the flag is cleared the back end takes at most `Rank` more steps, whatever the front ends do. */
  lemma {:induction false} ShutdownIsBounded(ss: seq<Log>, es: seq<Step>, k: nat, m: nat)
    requires IsRun(ss, es) && k <= m <= |es| && !ss[k].started && ss[k].backend != Unstarted
    ensures !ss[m].started && ss[m].backend != Unstarted
    ensures BackendSteps(es, k, m) + Rank(ss[m]) <= Rank(ss[k])
    decreases m
  {
    hide Rank, Next, Enabled;
    if k < m {
      ShutdownIsBounded(ss, es, k, m - 1);
      assert Enabled(ss[m - 1], es[m - 1]) && ss[m] == Next(ss[m - 1], es[m - 1]);
      ShutdownEnds(ss[m - 1], es[m - 1]);
      StaysStarted(ss[m - 1], es[m - 1]);
    }
  }

  lemma StaysStarted(s: Log, e: Step)
    requires Enabled(s, e) && s.backend != Unstarted
    ensures Next(s, e).backend != Unstarted
  {
  }

  // ---------- when shutdown loses nothing ----------

  /** The lines accepted between two moments of a run. */
  function Since(ss: seq<Log>, j: nat, k: nat): seq<string>
    requires j < |ss| && k < |ss| && |ss[j].accepted| <= |ss[k].accepted|
  {
    ss[k].accepted[|ss[j].accepted|..]
  }

  predicate NoSwap(es: seq<Step>, j: nat, k: nat)
    requires j <= k <= |es|
  {
    forall x :: j <= x < k ==> es[x] != Swap && es[x] != Exit
  }

  /** Since the back end last took the buffers, `since` has been accepted: in the current buffer alone as long as it
      fits one. */
  predicate OneBuffer(s: Log, since: seq<string>) {
    if |Concat(since)| <= CAPACITY then s.ready == [] && s.cur == Concat(since) else s.ready != []
  }

  lemma AppendKeepsOneBuffer(s: Log, header: string, message: string, since: seq<string>)
    requires s.started && OneBuffer(s, since)
    ensures OneBuffer(Next(s, Append(header, message)), since + [Line(header, message)])
  {
    hide Line;
    ConcatSnoc(since, Line(header, message));
  }

  lemma {:induction false} SinceSwap(ss: seq<Log>, es: seq<Step>, j: nat, k: nat)
    requires IsRun(ss, es) && j < k <= |es| && es[j] == Swap && NoSwap(es, j + 1, k)
    ensures |ss[j].accepted| <= |ss[k].accepted| && OneBuffer(ss[k], Since(ss, j, k))
    ensures ss[k].backend.Writing? || ss[k].backend == Waiting || ss[k].backend == Leaving
    decreases k
  {
    hide Line, Placed;
    assert Enabled(ss[k - 1], es[k - 1]) && ss[k] == Next(ss[k - 1], es[k - 1]);
    if k == j + 1 {
      assert Since(ss, j, k) == [];
    } else {
      SinceSwap(ss, es, j, k - 1);
      var s, e := ss[k - 1], es[k - 1];
      if e.Append? && s.started {
        AppendKeepsOneBuffer(s, e.header, e.message, Since(ss, j, k - 1));
        assert Since(ss, j, k) == Since(ss, j, k - 1) + [Line(e.header, e.message)];
      } else {
        assert Since(ss, j, k) == Since(ss, j, k - 1);
      }
    }
  }

  lemma {:induction false} LastSwap(ss: seq<Log>, es: seq<Step>, k: nat) returns (j: nat)
    requires IsRun(ss, es) && k <= |es| && (ss[k].backend.Writing? || ss[k].backend == Leaving)
    ensures j < k && es[j] == Swap && NoSwap(es, j + 1, k)
    decreases k
  {
    assert k > 0;
    var s, e := ss[k - 1], es[k - 1];
    assert Enabled(s, e) && ss[k] == Next(s, e);
    if e == Swap {
      j := k - 1;
    } else {
      j := LastSwap(ss, es, k - 1);
    }
  }

  /** At the exit nothing is missing if and only if what the front ends logged since the back end last took the buffers
      fits one buffer. */
  lemma CompleteIffOneBuffer(ss: seq<Log>, es: seq<Step>, k: nat) returns (j: nat)
    requires IsRun(ss, es) && k < |es| && es[k] == Exit
    ensures j < k && es[j] == Swap && NoSwap(es, j + 1, k) && |ss[j].accepted| <= |ss[k].accepted|
    ensures ss[k + 1].file == Concat(ss[k + 1].accepted) <==> |Concat(Since(ss, j, k))| <= CAPACITY
  {
    hide Next, Sound, Conserved;
    assert Enabled(ss[k], es[k]);
    j := LastSwap(ss, es, k);
    SinceSwap(ss, es, j, k);
    CompleteIff(ss, es, k);
  }

  // ---------- the gap is real ----------

  function Copies(line: string, n: nat): (r: seq<string>) {
    if n == 0 then [] else Copies(line, n - 1) + [line]
  }

  lemma {:induction false} CopiesLength(line: string, n: nat)
    requires |line| == 1279
    ensures |Concat(Copies(line, n))| == n * 1279
  {
    if n > 0 {
      CopiesLength(line, n - 1);
      ConcatSnoc(Copies(line, n - 1), line);
    }
  }

  const FULL := 3279

  /** A run that loses a whole buffer: while the back end is between its swap and its look at the flag, the front ends
      fill one buffer with lines of full length and start another, and then shutdown clears the flag. */
  function LossyStep(k: nat, header: string, message: string): Step {
    if k == 0 then Start else if k == 1 then Swap else if k <= FULL + 2 then Append(header, message)
    else if k == FULL + 3 then Shutdown else if k == FULL + 4 then CheckFlag else Exit
  }

  function LossyState(k: nat, line: string): Log {
    if k == 0 then INITIAL
    else if k == 1 then INITIAL.(started := true, backend := Waiting)
    else if k <= FULL + 2 then Log(true, Concat(Copies(line, k - 2)), [], Writing([]), "", Copies(line, k - 2))
    else if k == FULL + 3 then Log(true, line, [Concat(Copies(line, FULL))], Writing([]), "", Copies(line, FULL + 1))
    else LossyState(FULL + 3, line).(
      started := false,
      cur := if k <= FULL + 5 then line else "",
      file := if k <= FULL + 5 then "" else line,
      backend := if k == FULL + 4 then Writing([]) else if k == FULL + 5 then Leaving else Exited(0))
  }

  lemma LossyStepIsAStep(k: nat, header: string, message: string)
    requires |header| >= HEADER_MAX && |message| >= MESSAGE_MAX && k <= FULL + 5
    ensures var line := Line(header, message);
      Enabled(LossyState(k, line), LossyStep(k, header, message))
      && LossyState(k + 1, line) == Next(LossyState(k, line), LossyStep(k, header, message))
  {
    var line := Line(header, message);
    assert |line| == 1279;
    hide Line, Copies, Concat;
    if k == 1 {
      assert Copies(line, 0) == [] && Concat([]) == "" by { NoCopies(line); }
    } else if 2 <= k <= FULL + 2 {
      CopiesLength(line, k - 2);
      OneMoreCopy(line, k - 2);
    }
  }

  lemma NoCopies(line: string)
    ensures Copies(line, 0) == [] && Concat([]) == ""
  {
  }

  lemma OneMoreCopy(line: string, n: nat)
    ensures Copies(line, n + 1) == Copies(line, n) + [line]
    ensures Concat(Copies(line, n + 1)) == Concat(Copies(line, n)) + line
  {
    ConcatSnoc(Copies(line, n), line);
  }

  lemma LossyEnd(line: string)
    ensures LossyState(FULL + 6, line).accepted == Copies(line, FULL + 1)
    ensures LossyState(FULL + 6, line).file == line && LossyState(FULL + 6, line).backend.Exited?
  {
    hide Copies;
  }

  /** Shutdown in that window: more than four million bytes that were accepted never reach the file. */
  lemma ShutdownCanLoseABuffer(header: string, message: string) returns (ss: seq<Log>, es: seq<Step>)
    requires |header| >= HEADER_MAX && |message| >= MESSAGE_MAX
    ensures IsRun(ss, es) && ss[|es|].backend.Exited?
    ensures |Concat(ss[|es|].accepted)| - |ss[|es|].file| == 4193841
  {
    var line := Line(header, message);
    assert |line| == 1279;
    es := seq(FULL + 6, k requires k >= 0 => LossyStep(k, header, message));
    ss := seq(FULL + 7, k requires k >= 0 => LossyState(k, line));
    forall k | 0 <= k < |es| ensures Enabled(ss[k], es[k]) && ss[k + 1] == Next(ss[k], es[k]) {
      hide Enabled, Next, LossyState, LossyStep, Line;
      LossyStepIsAStep(k, header, message);
    }
    hide Line, Copies, Concat, Enabled, Next, LossyState;
    LossyEnd(line);
    assert ss[|es|] == LossyState(FULL + 6, line);
    CopiesLength(line, FULL + 1);
  }

  // ---------- the classes ----------

  /** A buffer of fixed size that is filled from the front. */
  class LogBuffer {
    const m_data: array<char>
    var m_len: nat

    ghost predicate Valid() reads this { m_data.Length == CAPACITY && m_len <= CAPACITY }

    ghost function Contents(): (r: string)
      requires Valid()
      reads this, m_data
      ensures |r| == m_len
    {
      m_data[..m_len]
    }

    constructor ()
      ensures Valid() && Contents() == "" && fresh(m_data)
    {
      m_data, m_len := new char[CAPACITY], 0;
    }

    method Append(data: string) returns (ok: bool)
      requires Valid()
      modifies `m_len, m_data
      ensures Valid() && ok == (|old(Contents())| + |data| <= CAPACITY)
      ensures Contents() == if ok then old(Contents()) + data else old(Contents())
    {
      if m_len + |data| > CAPACITY {
        return false;
      }
      forall k | 0 <= k < |data| {
        m_data[m_len + k] := data[k];
      }
      m_len := m_len + |data|;
      ok := true;
    }

    method Clear()
      requires Valid()
      modifies `m_len
      ensures Valid() && Contents() == ""
    {
      m_len := 0;
    }
  }

  /** Different buffers, each whole, holding these texts. */
  ghost predicate Hold(bs: seq<LogBuffer>, texts: seq<string>)
    reads bs, set b | b in bs :: b.m_data
  {
    && |bs| == |texts|
    && (forall i :: 0 <= i < |bs| ==> bs[i].Valid() && bs[i].Contents() == texts[i])
    && (forall i, j :: 0 <= i < j < |bs| ==> bs[i] != bs[j])
  }

  /** Taking one text off the front of what is still to be written. */
  lemma NextText(file: string, texts: seq<string>, k: nat)
    requires k < |texts|
    ensures file + Concat(texts[k..]) == file + texts[k] + Concat(texts[k + 1..])
  {
    assert texts[k..][1..] == texts[k + 1..];
    assert file + (texts[k] + Concat(texts[k + 1..])) == file + texts[k] + Concat(texts[k + 1..]);
  }

  /** The state after the back end has written everything it took. */
  function WrittenOut(s: Log): Log
    requires s.backend.Writing?
    decreases |s.backend.taken|
  {
    if s.backend.taken == [] then s else WrittenOut(Next(s, WriteOne))
  }

  lemma {:induction false} WrittenOutIsConcat(s: Log)
    requires s.backend.Writing?
    ensures WrittenOut(s) == s.(file := s.file + Concat(s.backend.taken), backend := Writing([]))
    decreases |s.backend.taken|
  {
    var b := s.backend.taken;
    if b == [] {
      assert s.file + "" == s.file;
    } else {
      WrittenOutIsConcat(Next(s, WriteOne));
      assert s.file + (b[0] + Concat(b[1..])) == s.file + b[0] + Concat(b[1..]);
    }
  }

  /** No buffer of the list shares storage with `b`. */
  ghost predicate Apart(bs: seq<LogBuffer>, b: LogBuffer) {
    forall i :: 0 <= i < |bs| ==> bs[i] != b && bs[i].m_data != b.m_data
  }

  /** The front and back ends' critical sections, and the back end's unlocked loop. `m_file` is what
      has been written. */
  class AsyncLog {
    var m_cur_buf: LogBuffer
    var m_ready_bufs: seq<LogBuffer>
    var m_started: bool
    var m_file: string

    /** The fields agree with an abstract state. */
    ghost predicate Agrees(s: Log)
      reads this, m_cur_buf, m_cur_buf.m_data, m_ready_bufs, set b | b in m_ready_bufs :: b.m_data
    {
      && s.started == m_started && s.file == m_file
      && m_cur_buf.Valid() && m_cur_buf.Contents() == s.cur
      && Hold(m_ready_bufs, s.ready) && Apart(m_ready_bufs, m_cur_buf)
    }

    constructor ()
      ensures Agrees(INITIAL)
    {
      m_cur_buf := new LogBuffer();
      m_ready_bufs, m_started, m_file := [], false, "";
    }

    method AppendHere(line: string, ghost s: Log) returns (ok: bool)
      requires Agrees(s)
      modifies m_cur_buf, m_cur_buf.m_data
      ensures ok == (|s.cur| + |line| <= CAPACITY) && Agrees(if ok then s.(cur := s.cur + line) else s)
    {
      ok := m_cur_buf.Append(line);
    }

    /** The current buffer goes to the ready list, and a new one takes its place. */
    method Roll(ghost s: Log)
      requires Agrees(s)
      modifies `m_cur_buf, `m_ready_bufs
      ensures Agrees(s.(cur := "", ready := s.ready + [s.cur])) && fresh(m_cur_buf) && fresh(m_cur_buf.m_data)
    {
      m_ready_bufs := m_ready_bufs + [m_cur_buf];
      m_cur_buf := new LogBuffer();
    }

    /** The current buffer takes the line, or goes to the ready list and a new one takes it. */
    method Place(line: string, ghost s: Log)
      requires Agrees(s) && |line| <= CAPACITY
      modifies `m_cur_buf, `m_ready_bufs, m_cur_buf, m_cur_buf.m_data
      ensures Agrees(s.(cur := Placed(s.cur, s.ready, line).0, ready := Placed(s.cur, s.ready, line).1))
    {
      hide Hold;
      var ok := AppendHere(line, s);
      if !ok {
        Roll(s);
        ok := AppendHere(line, s.(cur := "", ready := s.ready + [s.cur]));
      }
    }

    /** append, behind the formatting. */
    method Append(header: string, message: string, ghost s: Log)
      requires Agrees(s)
      modifies `m_cur_buf, `m_ready_bufs, m_cur_buf, m_cur_buf.m_data
      ensures Agrees(Next(s, Step.Append(header, message)))
    {
      hide Line, Placed, Hold;
      if m_started {
        Place(Line(header, message), s);
      }
    }

    method Shutdown(ghost s: Log)
      requires Agrees(s)
      modifies `m_started
      ensures Agrees(Next(s, Step.Shutdown))
    {
      m_started := false;
    }

    /** The back end's critical section behind the wait. */
    method Swap(ghost s: Log) returns (bufs: seq<LogBuffer>)
      requires Agrees(s) && s.backend == Waiting
      modifies `m_cur_buf, `m_ready_bufs
      ensures Agrees(Next(s, Step.Swap)) && Apart(bufs, m_cur_buf)
      ensures Hold(bufs, Taken(Next(s, Step.Swap)))
    {
      if m_cur_buf.m_len != 0 {
        m_ready_bufs := m_ready_bufs + [m_cur_buf];
        m_cur_buf := new LogBuffer();
      }
      bufs, m_ready_bufs := m_ready_bufs, [];
    }

    /** The back end's loop over the taken buffers: each is written in turn, then emptied. */
    method WriteAll(bufs: seq<LogBuffer>, ghost s: Log)
      requires Hold(bufs, Taken(s)) && s.backend.Writing? && s.file == m_file
      modifies `m_file, bufs
      ensures m_file == WrittenOut(s).file
      ensures forall i :: 0 <= i < |bufs| ==> bufs[i].Valid() && bufs[i].Contents() == ""
    {
      hide Next, Placed, Handed, Line;
      ghost var taken := s.backend.taken;
      for k := 0 to |bufs|
        invariant m_file + Concat(taken[k..]) == s.file + Concat(taken)
        invariant forall i :: 0 <= i < |bufs| ==>
          bufs[i].Valid() && bufs[i].Contents() == if i < k then "" else taken[i]
      {
        NextText(m_file, taken, k);
        m_file := m_file + bufs[k].m_data[..bufs[k].m_len];
        bufs[k].Clear();
      }
      WrittenOutIsConcat(s);
    }

    /** The exit path under the mutex: only the current buffer is looked at. */
    method Exit(ghost s: Log)
      requires Agrees(s) && s.backend == Leaving
      modifies `m_file, m_cur_buf`m_len
      ensures Agrees(Next(s, Step.Exit))
    {
      if m_cur_buf.m_len != 0 {
        m_file := m_file + m_cur_buf.m_data[..m_cur_buf.m_len];
        m_cur_buf.Clear();
      }
    }
  }
}
