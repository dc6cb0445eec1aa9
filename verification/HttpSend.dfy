/** The resumable sender (http_conn::write) against a kernel that takes what it likes: a script of short writes,
    full buffers, interruptions and errors. */
module HttpSend {

  type Positive = n: nat | n > 0 witness 1

  /** What one send, writev or sendfile call comes to. */
  datatype Kernel = Took(n: Positive) | Full | Interrupted | Broken

  /** The return values 0, 1 and 2. */
  datatype Outcome = Failed | Done | Again

  function Min(a: nat, b: nat): nat { if a < b then a else b }

  /** A call never offers bytes across the border between head and payload. */
  function SegmentEnd(head: nat, total: nat, off: nat): nat {
    if off < head then head else total
  }

  /** One call of write from offset `off`: how it ends, the new offset, and the script it leaves.
      A script that has run out stands for a full socket buffer. */
  function Write(head: nat, total: nat, off: nat, script: seq<Kernel>): (r: (Outcome, nat, seq<Kernel>))
    requires off <= total && head <= total
    ensures off <= r.1 <= total
    ensures r.0.Done? <==> r.1 == total
    ensures |r.2| <= |script| && (r.0.Again? && script != [] ==> |r.2| < |script|)
    decreases |script|
  {
    if off == total then (Done, off, script)
    else if script == [] then (Again, off, [])
    else
      match script[0]
      case Took(n) => Write(head, total, off + Min(n, SegmentEnd(head, total, off) - off), script[1..])
      case Full => (Again, off, script[1..])
      case Interrupted => Write(head, total, off, script[1..])
      case Broken => (Failed, off, script[1..])
  }

  /** write called again and again, each time the socket is reported writable, until it ends or the script does. */
  function Calls(head: nat, total: nat, off: nat, script: seq<Kernel>): (r: (Outcome, nat))
    requires off <= total && head <= total
    decreases |script|
  {
    var (o, at, rest) := Write(head, total, off, script);
    if o.Again? && rest != [] then Calls(head, total, at, rest) else (o, at)
  }

  /** The script without the answers that send nothing. */
  function Transfers(script: seq<Kernel>): seq<Kernel> {
    if script == [] then []
    else (if script[0].Full? || script[0].Interrupted? then [] else [script[0]]) + Transfers(script[1..])
  }

  /** What the first answer of the script does to a series of calls. */
  lemma CallsUnfold(head: nat, total: nat, off: nat, script: seq<Kernel>)
    requires off < total && head <= total && script != []
    ensures Calls(head, total, off, script) == match script[0]
      case Took(n) => Calls(head, total, off + Min(n, SegmentEnd(head, total, off) - off), script[1..])
      case Full => Calls(head, total, off, script[1..])
      case Interrupted => Calls(head, total, off, script[1..])
      case Broken => (Failed, off)
  {
  }

  lemma WriteUnfold(head: nat, total: nat, off: nat, script: seq<Kernel>)
    requires off < total && head <= total && script != [] && (script[0].Took? || script[0].Broken?)
    ensures var r := Write(head, total, off, script);
      (r.0, r.1) ==
        if script[0].Broken? then (Failed, off)
        else
          var t := Write(head, total, off + Min(script[0].n, SegmentEnd(head, total, off) - off), script[1..]);
          (t.0, t.1)
  {
  }

  lemma TransfersUnfold(script: seq<Kernel>)
    requires script != []
    ensures if script[0].Full? || script[0].Interrupted? then Transfers(script) == Transfers(script[1..])
            else Transfers(script) != [] && Transfers(script)[0] == script[0]
                 && Transfers(script)[1..] == Transfers(script[1..])
  {
  }

  /** Where the socket filled up or a signal came in does not matter: any number of calls gets as far, and ends the
      same way, as one call that only sees the transfers. */
  lemma {:induction false} CallsDoNotMatter(head: nat, total: nat, off: nat, script: seq<Kernel>)
    requires off <= total && head <= total
    ensures var r, t := Calls(head, total, off, script), Write(head, total, off, Transfers(script));
      r.1 == t.1 && r.0 == t.0
    decreases |script|
  {
    if script != [] && off < total {
      CallsUnfold(head, total, off, script);
      TransfersUnfold(script);
      if !script[0].Full? && !script[0].Interrupted? { WriteUnfold(head, total, off, Transfers(script)); }
      hide Calls, Write, Transfers;
      match script[0]
      case Took(n) => CallsDoNotMatter(head, total, off + Min(n, SegmentEnd(head, total, off) - off), script[1..]);
      case Full => CallsDoNotMatter(head, total, off, script[1..]);
      case Interrupted => CallsDoNotMatter(head, total, off, script[1..]);
      case Broken =>
    }
  }

  /** The bytes one call hands to the kernel, chunk by chunk. */
  function Sent(message: seq<char>, head: nat, off: nat, script: seq<Kernel>): seq<char>
    requires off <= |message| && head <= |message|
    decreases |script|
  {
    if off == |message| || script == [] then []
    else
      match script[0]
      case Took(n) =>
        var to := off + Min(n, SegmentEnd(head, |message|, off) - off);
        message[off..to] + Sent(message, head, to, script[1..])
      case Full => []
      case Interrupted => Sent(message, head, off, script[1..])
      case Broken => []
  }

  /** The bytes all calls hand to the kernel. */
  function SentByCalls(message: seq<char>, head: nat, off: nat, script: seq<Kernel>): seq<char>
    requires off <= |message| && head <= |message|
    decreases |script|
  {
    var (o, at, rest) := Write(head, |message|, off, script);
    Sent(message, head, off, script) +
      if o.Again? && rest != [] then SentByCalls(message, head, at, rest) else []
  }

  lemma {:induction false} SentIsASlice(message: seq<char>, head: nat, off: nat, script: seq<Kernel>)
    requires off <= |message| && head <= |message|
    ensures Sent(message, head, off, script) == message[off..Write(head, |message|, off, script).1]
    decreases |script|
  {
    if off < |message| && script != [] {
      if script[0].Took? {
        var to := off + Min(script[0].n, SegmentEnd(head, |message|, off) - off);
        SentIsASlice(message, head, to, script[1..]);
        var e := Write(head, |message|, to, script[1..]).1;
        assert message[off..to] + message[to..e] == message[off..e];
      } else if script[0].Interrupted? {
        SentIsASlice(message, head, off, script[1..]);
      }
    }
  }

  /** Whatever the kernel does over any number of calls, what it was handed is exactly the message from the first
      offset to the last: nothing skipped, nothing repeated; all of it if and only if the last call said so. */
  lemma {:induction false} SendingIsExact(message: seq<char>, head: nat, off: nat, script: seq<Kernel>)
    requires off <= |message| && head <= |message|
    ensures var (o, at) := Calls(head, |message|, off, script);
      && off <= at <= |message|
      && SentByCalls(message, head, off, script) == message[off..at]
      && (o.Done? <==> at == |message|)
    decreases |script|
  {
    SentIsASlice(message, head, off, script);
    var (o, at, rest) := Write(head, |message|, off, script);
    if o.Again? && rest != [] {
      SendingIsExact(message, head, at, rest);
      var e := Calls(head, |message|, at, rest).1;
      assert message[off..at] + message[at..e] == message[off..e];
    } else {
      assert message[off..at] + [] == message[off..at];
    }
  }

  // ---------- what the kernel took is what is sent ----------

  /** The bytes the kernel says it took. */
  function Sum(script: seq<Kernel>): nat {
    if script == [] then 0 else (if script[0].Took? then script[0].n else 0) + Sum(script[1..])
  }

  /** The kernel never takes more than it is offered: from `off`, the rest of the head, or else the rest of the
      message. */
  predicate TakesWhatIsOffered(head: nat, total: nat, off: nat, script: seq<Kernel>)
    requires off <= total && head <= total
    decreases |script|
  {
    script == [] || off == total ||
    match script[0]
    case Took(n) =>
      off + n <= (if off < head then head else total) && TakesWhatIsOffered(head, total, off + n, script[1..])
    case Broken => true
    case _ => TakesWhatIsOffered(head, total, off, script[1..])
  }

  /** A call that finds `n` bytes taken goes on `n` bytes further; of more than was offered, all that was. */
  lemma TookAdvances(head: nat, total: nat, off: nat, n: Positive, script: seq<Kernel>)
    requires off < total && head <= total
    ensures var offered := (if off < head then head else total) - off;
      Write(head, total, off, [Took(n)] + script) ==
      Write(head, total, if n <= offered then off + n else off + offered, script)
  {
    assert ([Took(n)] + script)[1..] == script;
  }

  predicate OnlyProgress(script: seq<Kernel>) {
    forall i :: 0 <= i < |script| ==> script[i].Took? || script[i].Interrupted?
  }

  lemma SumCons(k: Kernel, rest: seq<Kernel>)
    ensures Sum([k] + rest) == (if k.Took? then k.n else 0) + Sum(rest)
  {
    assert ([k] + rest)[1..] == rest;
  }

  /** One call: it uses answers up to the first that is neither a transfer nor EINTR, or until all is out. It has then
      sent exactly what they took; and it returns 1 if that is everything, 0 on an error, 2 on a full buffer. */
  lemma {:induction false} OneCall(head: nat, total: nat, off: nat, script: seq<Kernel>) returns (i: nat)
    requires off <= total && head <= total && TakesWhatIsOffered(head, total, off, script)
    ensures i <= |script| && OnlyProgress(script[..i])
    ensures Write(head, total, off, script).1 == off + Sum(script[..i])
    ensures Write(head, total, off, script).0 ==
      if off + Sum(script[..i]) == total then Done
      else if i < |script| && script[i].Broken? then Failed
      else Again
    ensures off + Sum(script[..i]) == total || i == |script| || script[i].Full? || script[i].Broken?
    decreases |script|
  {
    if off == total || script == [] || script[0].Full? || script[0].Broken? {
      i := 0;
    } else {
      var to := if script[0].Took? then off + script[0].n else off;
      var j := OneCall(head, total, to, script[1..]);
      i := j + 1;
      assert script[..i] == [script[0]] + script[1..][..j];
      SumCons(script[0], script[1..][..j]);
    }
  }

  /** Where the first answer leaves the offset. */
  function After(head: nat, total: nat, off: nat, k: Kernel): (to: nat)
    requires off < total && head <= total
    ensures off <= to <= total
  {
    var offered := (if off < head then head else total) - off;
    if !k.Took? then off else if k.n <= offered then off + k.n else off + offered
  }

  lemma CallsAfter(head: nat, total: nat, off: nat, script: seq<Kernel>)
    requires off < total && head <= total && script != []
    ensures Calls(head, total, off, script) ==
      if script[0].Broken? then (Failed, off) else Calls(head, total, After(head, total, off, script[0]), script[1..])
  {
    CallsUnfold(head, total, off, script);
    hide Calls;
  }

  /** Over any number of calls, whatever the kernel says it took: no more is sent than that. */
  lemma {:induction false} SentIsAtMostTheSum(head: nat, total: nat, off: nat, script: seq<Kernel>)
    requires off <= total && head <= total
    ensures Calls(head, total, off, script).1 <= off + Sum(script)
    decreases |script|
  {
    if off < total && script != [] {
      CallsAfter(head, total, off, script);
      hide Calls;
      if !script[0].Broken? { SentIsAtMostTheSum(head, total, After(head, total, off, script[0]), script[1..]); }
    }
  }

  /** And as long as it takes no more than it is offered, exactly what it took is sent, up to the answer that ends the
      last call: an error, or none when all is out or the script has run out. */
  lemma {:induction false} SentIsTheSum(head: nat, total: nat, off: nat, script: seq<Kernel>) returns (i: nat)
    requires off <= total && head <= total && TakesWhatIsOffered(head, total, off, script)
    ensures i <= |script|
    ensures var (o, at) := Calls(head, total, off, script);
      && at == off + Sum(script[..i]) && (at == total || i == |script| || script[i].Broken?)
      && o == if at == total then Done else if i < |script| then Failed else Again
    decreases |script|
  {
    i := 0;
    if off < total && script != [] {
      CallsAfter(head, total, off, script);
      if !script[0].Broken? {
        hide Calls, Sum;
        var j := SentIsTheSum(head, total, After(head, total, off, script[0]), script[1..]);
        i := j + 1;
        assert script[..i] == [script[0]] + script[1..][..j];
        SumCons(script[0], script[1..][..j]);
      }
    }
  }
}
