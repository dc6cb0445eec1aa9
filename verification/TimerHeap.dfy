/** The idle timers: a min-heap of nodes with lazy deletion by version number. */
module TimerHeap {

  datatype TimerNode = TimerNode(expire: int, fd: int, seqno: nat)

  /** The state the heap's behaviour depends on, and the deadline each live descriptor was last given. */
  datatype Timers = Timers(heap: multiset<TimerNode>, seqs: seq<nat>, deadline: map<int, int>)
  {
    predicate InRange(fd: int) { 0 <= fd < |seqs| }

    predicate Live(fd: int) { InRange(fd) && seqs[fd] != 0 }

    /** The node counts for its descriptor: the versions agree. */
    predicate Current(n: TimerNode) { InRange(n.fd) && seqs[n.fd] == n.seqno }

    /** Kept by every operation as the code stands. */
    ghost predicate Valid() {
      && (forall n :: n in heap ==> InRange(n.fd) && n.seqno > 0)
      && (forall fd :: fd in deadline <==> Live(fd))
      && (forall fd :: Live(fd) ==> TimerNode(deadline[fd], fd, seqs[fd]) in heap)
    }

    /** No node counts for a descriptor before its deadline. */
    ghost predicate Exact()
      requires Valid()
    {
      forall n :: n in heap && Current(n) ==> deadline[n.fd] <= n.expire
    }
  }

  // ---------- the operations on values ----------

  /** add and refresh: a new version, a new node; nothing for a descriptor out of range. */
  function Added(t: Timers, fd: int, timeout: int, now: int): Timers {
    if !t.InRange(fd) then t
    else
      var s := t.seqs[fd] + 1;
      Timers(t.heap + multiset{TimerNode(now + timeout, fd, s)}, t.seqs[fd := s], t.deadline[fd := now + timeout])
  }

  function Invalidated(t: Timers, fd: int): Timers {
    if t.InRange(fd) then t.(seqs := t.seqs[fd := 0], deadline := t.deadline - {fd}) else t
  }

  /** The descriptors tick(now) must call back: those a node due by `now` counts for. */
  ghost predicate Fires(t: Timers, now: int, fd: int) {
    exists n :: n in t.heap && n.fd == fd && t.Current(n) && n.expire <= now
  }

  // ---------- what every operation keeps ----------

  lemma AddKeepsValid(t: Timers, fd: int, timeout: int, now: int)
    requires t.Valid()
    ensures Added(t, fd, timeout, now).Valid() && |Added(t, fd, timeout, now).seqs| == |t.seqs|
    ensures forall f :: Added(t, fd, timeout, now).Live(f) <==> t.Live(f) || (f == fd && t.InRange(fd))
  {
    var u := Added(t, fd, timeout, now);
    if t.InRange(fd) {
      forall f | u.Live(f) ensures TimerNode(u.deadline[f], f, u.seqs[f]) in u.heap {
        if f != fd {
          assert t.Live(f) && TimerNode(t.deadline[f], f, t.seqs[f]) in t.heap;
        }
      }
    }
  }

  lemma InvalidateKeepsValid(t: Timers, fd: int)
    requires t.Valid()
    ensures var u := Invalidated(t, fd);
      u.Valid() && |u.seqs| == |t.seqs| && (forall f :: u.Live(f) <==> t.Live(f) && f != fd)
  {
    var u := Invalidated(t, fd);
    forall f | u.Live(f) ensures TimerNode(u.deadline[f], f, u.seqs[f]) in u.heap {
      assert t.Live(f);
    }
  }

  lemma InvalidateKeepsExact(t: Timers, fd: int)
    requires t.Valid() && Invalidated(t, fd).Valid() && t.Exact()
    ensures Invalidated(t, fd).Exact()
  {
    var u := Invalidated(t, fd);
    forall n | n in u.heap && u.Current(n) ensures u.deadline[n.fd] <= n.expire {
      assert n.seqno > 0 && n.fd != fd && t.Current(n);
    }
  }

  // ---------- early firing ----------

  /** An older node of `fd` already carries the number the next version will get, and is due before it. */
  predicate EarlyAlias(t: Timers, fd: int, timeout: int, now: int) {
    t.InRange(fd) && exists n :: n in t.heap && n.fd == fd && n.seqno == t.seqs[fd] + 1 && n.expire < now + timeout
  }

  /** Versions are reset to 0, so they repeat: adding keeps deadlines exact precisely when no such older node
      is left. */
  lemma AddIsExactIff(t: Timers, fd: int, timeout: int, now: int)
    requires t.Valid() && t.Exact()
    ensures Added(t, fd, timeout, now).Valid()
    ensures Added(t, fd, timeout, now).Exact() <==> !EarlyAlias(t, fd, timeout, now)
  {
    AddKeepsValid(t, fd, timeout, now);
    var u := Added(t, fd, timeout, now);
    if t.InRange(fd) {
      if EarlyAlias(t, fd, timeout, now) {
        var n :| n in t.heap && n.fd == fd && n.seqno == t.seqs[fd] + 1 && n.expire < now + timeout;
        assert n in u.heap && u.Current(n);
      } else {
        forall n | n in u.heap && u.Current(n) ensures u.deadline[n.fd] <= n.expire {
          if n != TimerNode(now + timeout, fd, t.seqs[fd] + 1) {
            assert n in t.heap && (n.fd != fd ==> t.Current(n));
          }
        }
      }
    }
  }

  /** tick follows the deadlines at every moment if and only if no node counts early. */
  lemma ExactIff(t: Timers)
    requires t.Valid()
    ensures (forall now, fd :: Fires(t, now, fd) <==> t.Live(fd) && t.deadline[fd] <= now) <==> t.Exact()
  {
    if t.Exact() {
      forall now, fd ensures Fires(t, now, fd) <==> t.Live(fd) && t.deadline[fd] <= now {
        if t.Live(fd) && t.deadline[fd] <= now {
          assert t.Current(TimerNode(t.deadline[fd], fd, t.seqs[fd]));
        }
      }
    } else {
      var n :| n in t.heap && t.Current(n) && n.expire < t.deadline[n.fd];
      assert Fires(t, n.expire, n.fd);
    }
  }

  /** Never late, exact or not: a live descriptor whose deadline has come fires. */
  lemma NeverLate(t: Timers, now: int, fd: int)
    requires t.Valid() && t.Live(fd) && t.deadline[fd] <= now
    ensures Fires(t, now, fd)
  {
    assert t.Current(TimerNode(t.deadline[fd], fd, t.seqs[fd]));
  }

  // ---------- runs ----------

  datatype Op = DoAdd(fd: int, timeout: int, now: int) | DoInvalidate(fd: int) | DoTick(now: int)

  /** What tick(now) leaves: no node due by `now`, and no version for what has fired. */
  ghost predicate Ticked(t: Timers, now: int, u: Timers) {
    && |u.seqs| == |t.seqs|
    && (forall n :: u.heap[n] == if n.expire <= now then 0 else t.heap[n])
    && (forall fd :: t.InRange(fd) ==> u.seqs[fd] == if Fires(t, now, fd) then 0 else t.seqs[fd])
    && (forall fd :: fd in u.deadline <==> fd in t.deadline && !Fires(t, now, fd))
    && (forall fd :: fd in u.deadline ==> u.deadline[fd] == t.deadline[fd])
  }

  ghost predicate Step(t: Timers, op: Op, u: Timers) {
    match op
    case DoAdd(fd, timeout, now) => u == Added(t, fd, timeout, now)
    case DoInvalidate(fd) => u == Invalidated(t, fd)
    case DoTick(now) => Ticked(t, now, u)
  }

  lemma TickKeepsValid(t: Timers, now: int, u: Timers)
    requires t.Valid() && Ticked(t, now, u)
    ensures u.Valid() && (t.Exact() ==> u.Exact())
    ensures forall fd :: u.Live(fd) <==> t.Live(fd) && !Fires(t, now, fd)
  {
    forall n | n in u.heap ensures u.InRange(n.fd) && n.seqno > 0 { assert u.heap[n] > 0; }
    forall fd | u.Live(fd) ensures fd in u.deadline && TimerNode(u.deadline[fd], fd, u.seqs[fd]) in u.heap {
      var n := TimerNode(t.deadline[fd], fd, t.seqs[fd]);
      assert n in t.heap && t.Current(n);
      assert n.expire <= now ==> Fires(t, now, fd);
      assert u.heap[n] == t.heap[n];
    }
    if t.Exact() {
      forall n | n in u.heap && u.Current(n) ensures u.deadline[n.fd] <= n.expire {
        assert u.heap[n] > 0 && n.seqno > 0;
      }
    }
  }

  /** None of the first `n` operations adds where an older node would count early: as documented, versions never
      repeat, or whatever is left over is due no earlier. */
  ghost predicate NoEarlyAlias(ts: seq<Timers>, ops: seq<Op>, n: nat)
    requires |ts| == |ops| + 1 && n <= |ops|
  {
    forall i :: 0 <= i < n && ops[i].DoAdd? ==> !EarlyAlias(ts[i], ops[i].fd, ops[i].timeout, ops[i].now)
  }

  ghost predicate IsRun(ts: seq<Timers>, ops: seq<Op>) {
    && |ts| == |ops| + 1
    && ts[0].heap == multiset{} && ts[0].deadline == map[] && (forall fd :: ts[0].InRange(fd) ==> ts[0].seqs[fd] == 0)
    && forall i :: 0 <= i < |ops| ==> Step(ts[i], ops[i], ts[i + 1])
  }

  lemma StepKeepsValid(t: Timers, op: Op, u: Timers)
    requires t.Valid() && Step(t, op, u)
    ensures u.Valid()
    ensures t.Exact() && (op.DoAdd? ==> !EarlyAlias(t, op.fd, op.timeout, op.now)) ==> u.Exact()
  {
    hide Added, Invalidated, Ticked;
    match op
    case DoAdd(fd, timeout, now) =>
      AddKeepsValid(t, fd, timeout, now);
      if t.Exact() { AddIsExactIff(t, fd, timeout, now); }
    case DoInvalidate(fd) =>
      InvalidateKeepsValid(t, fd);
      if t.Exact() { InvalidateKeepsExact(t, fd); }
    case DoTick(now) => TickKeepsValid(t, now, u);
  }

  lemma {:induction false} RunIsValid(ts: seq<Timers>, ops: seq<Op>, k: nat)
    requires IsRun(ts, ops) && k <= |ops|
    ensures ts[k].Valid() && (NoEarlyAlias(ts, ops, k) ==> ts[k].Exact())
    decreases k
  {
    if k > 0 {
      hide Step, EarlyAlias, Timers.Valid, Timers.Exact;
      RunIsValid(ts, ops, k - 1);
      StepKeepsValid(ts[k - 1], ops[k - 1], ts[k]);
    }
  }

  /** Whenever tick is called, it calls back exactly the descriptors whose last deadline has come. */
  ghost predicate FollowsDeadlines(t: Timers) {
    forall now, fd :: Fires(t, now, fd) <==> fd in t.deadline && t.deadline[fd] <= now
  }

  lemma FollowsIff(t: Timers)
    requires t.Valid()
    ensures FollowsDeadlines(t) <==> t.Exact()
  {
    ExactIff(t);
  }

  lemma {:induction false} FirstEarlyAlias(ts: seq<Timers>, ops: seq<Op>) returns (k: nat)
    requires |ts| == |ops| + 1 && !NoEarlyAlias(ts, ops, |ops|)
    ensures k < |ops| && NoEarlyAlias(ts, ops, k) && !NoEarlyAlias(ts, ops, k + 1)
  {
    k := 0;
    while NoEarlyAlias(ts, ops, k + 1)
      invariant k < |ops| && NoEarlyAlias(ts, ops, k)
      decreases |ops| - k
    {
      k := k + 1;
    }
  }

  /** The heap refines a plain map of deadlines throughout a run if and only if no add of the run meets an older node of
      its descriptor that carries the new version and is due earlier. */
  lemma HeapRefinesDeadlinesIff(ts: seq<Timers>, ops: seq<Op>)
    requires IsRun(ts, ops)
    ensures (forall k :: 0 <= k <= |ops| ==> FollowsDeadlines(ts[k])) <==> NoEarlyAlias(ts, ops, |ops|)
  {
    hide Fires, EarlyAlias, Timers.Valid, Timers.Exact, Added;
    if NoEarlyAlias(ts, ops, |ops|) {
      forall k | 0 <= k <= |ops| ensures FollowsDeadlines(ts[k]) {
        RunIsValid(ts, ops, k);
        FollowsIff(ts[k]);
      }
    } else {
      var k := FirstEarlyAlias(ts, ops);
      RunIsValid(ts, ops, k);
      AddIsExactIff(ts[k], ops[k].fd, ops[k].timeout, ops[k].now);
      assert Step(ts[k], ops[k], ts[k + 1]);
      FollowsIff(ts[k + 1]);
      assert !FollowsDeadlines(ts[k + 1]);
    }
  }

  /** The descriptor fires at `now` although its deadline is still to come. */
  ghost predicate FiresBefore(t: Timers, now: int, fd: int) {
    Fires(t, now, fd) && fd in t.deadline && now < t.deadline[fd]
  }

  /** Without that, a connection can be timed out at once: fd 5 is armed for time 15, closed, and its number taken
      again at time 10 with a deadline of 25; at time 15 the old node has the new version and fires. */
  lemma ReusedVersionFiresEarly() returns (ts: seq<Timers>, ops: seq<Op>)
    ensures IsRun(ts, ops) && |ops| == 3 && !NoEarlyAlias(ts, ops, 3) && FiresBefore(ts[3], 15, 5)
  {
    var t0 := Timers(multiset{}, seq(6, _ => 0), map[]);
    var t1 := Added(t0, 5, 15, 0);
    var t2 := Invalidated(t1, 5);
    var t3 := Added(t2, 5, 15, 10);
    ts, ops := [t0, t1, t2, t3], [DoAdd(5, 15, 0), DoInvalidate(5), DoAdd(5, 15, 10)];
    var old5 := TimerNode(15, 5, 1);
    assert EarlyAlias(t2, 5, 15, 10) by { assert old5 in t2.heap && old5.seqno == t2.seqs[5] + 1; }
    assert FiresBefore(t3, 15, 5) by { assert old5 in t3.heap && t3.Current(old5); }
    hide Added, Invalidated, EarlyAlias, FiresBefore;
    assert ts[2] == t2 && ops[2] == DoAdd(5, 15, 10);
    assert forall i :: 0 <= i < 3 ==> Step(ts[i], ops[i], ts[i + 1]);
  }

  // ---------- the object ----------

  class TimerHeap {
    /** The priority queue, of which only this is used: some node with the least expiry is on top. */
    var m_heap: multiset<TimerNode>
    const m_seqs: array<nat>
    ghost var deadline: map<int, int>

    ghost function Now(): Timers
      reads this, m_seqs
    {
      Timers(m_heap, m_seqs[..], deadline)
    }

    constructor (max_fd: nat)
      ensures m_seqs.Length == max_fd && fresh(m_seqs)
      ensures Now() == Timers(multiset{}, seq(max_fd, _ => 0), map[]) && Now().Valid() && Now().Exact()
    {
      m_heap := multiset{};
      m_seqs := new nat[max_fd](_ => 0);
      deadline := map[];
      new;
      assert m_seqs[..] == seq(max_fd, _ => 0);
    }

    method Add(fd: int, timeout_sec: int, now_sec: int)
      modifies this, m_seqs
      ensures Now() == Added(old(Now()), fd, timeout_sec, now_sec)
    {
      if fd < 0 || fd >= m_seqs.Length {
        return;
      }
      m_seqs[fd] := m_seqs[fd] + 1;
      m_heap := m_heap + multiset{TimerNode(now_sec + timeout_sec, fd, m_seqs[fd])};
      deadline := deadline[fd := now_sec + timeout_sec];
    }

    method Refresh(fd: int, timeout_sec: int, now_sec: int)
      modifies this, m_seqs
      ensures Now() == Added(old(Now()), fd, timeout_sec, now_sec)
    {
      Add(fd, timeout_sec, now_sec);
    }

    method Invalidate(fd: int)
      modifies this, m_seqs
      ensures Now() == Invalidated(old(Now()), fd)
    {
      if 0 <= fd < m_seqs.Length {
        m_seqs[fd] := 0;
        deadline := deadline - {fd};
      }
    }

    method Top() returns (top: TimerNode)
      requires m_heap != multiset{}
      ensures top in m_heap && forall n :: n in m_heap ==> top.expire <= n.expire
    {
      LeastExists(m_heap);
      top :| top in m_heap && forall n :: n in m_heap ==> top.expire <= n.expire;
    }

    /** -1 for an empty heap; otherwise never later than any deadline, though outdated nodes can make it early. */
    method NextExpire() returns (e: int)
      requires Now().Valid()
      ensures m_heap == multiset{} ==> e == -1
      ensures m_heap != multiset{} ==> exists n :: n in m_heap && n.expire == e
      ensures forall n :: n in m_heap ==> e <= n.expire
      ensures forall fd :: fd in deadline ==> m_heap != multiset{} && e <= deadline[fd]
    {
      if m_heap == multiset{} {
        return -1;
      }
      var top := Top();
      return top.expire;
    }

    /** Takes the top node off; if its version counts, the version is spent and the connection will be called back. */
    method Pop(node: TimerNode) returns (counts: bool)
      requires node in m_heap && 0 <= node.fd < m_seqs.Length
      modifies this, m_seqs
      ensures counts == (old(m_seqs[node.fd]) == node.seqno)
      ensures Now() == if counts then PoppedAndFired(old(Now()), node) else Popped(old(Now()), node)
    {
      m_heap := m_heap - multiset{node};
      counts := m_seqs[node.fd] == node.seqno;
      if counts {
        m_seqs[node.fd] := 0;
        deadline := deadline - {node.fd};
      }
    }

    /** One turn of tick's loop: whether a node was due, and the descriptor to call back if it counted. The ghosts say
        where tick began and what it has called back so far. */
    method PopDue(now_sec: int, ghost t: Timers, ghost fired: seq<int>, ghost nodes: seq<TimerNode>)
      returns (due: Due, ghost node: TimerNode)
      requires Ticking(t, now_sec, Now(), fired, nodes)
      modifies this, m_seqs
      ensures due == NoneDue ==> Now() == old(Now()) && forall n :: n in m_heap ==> n.expire > now_sec
      ensures due == Outdated ==> Ticking(t, now_sec, Now(), fired, nodes)
      ensures due.CallBack? ==>
        due.fd == node.fd && Ticking(t, now_sec, Now(), fired + [due.fd], nodes + [node]) && Spent(Now(), due.fd)
      ensures due != NoneDue ==> |m_heap| < old(|m_heap|)
    {
      hide Ticking, Popped, PoppedAndFired, Timers.Valid;
      node := TimerNode(0, 0, 0);
      if m_heap == multiset{} {
        return NoneDue, node;
      }
      var top := Top();
      if top.expire > now_sec {
        return NoneDue, node;
      }
      node := top;
      PopInRange(t, now_sec, Now(), fired, nodes, top);
      ghost var before := Now();
      var counts := Pop(top);
      PopShrinks(before, top);
      if !counts {
        PopSkips(t, now_sec, before, fired, nodes, top);
        return Outdated, node;
      }
      PopFires(t, now_sec, before, fired, nodes, top);
      return CallBack(top.fd), node;
    }

    /** Pops every node due by `now_sec`; `fired` are the descriptors called back, `nodes` the nodes that fired them.
        What the callbacks do is in SubReactorHandlers. */
    method Tick(now_sec: int) returns (fired: seq<int>, ghost nodes: seq<TimerNode>)
      requires Now().Valid()
      modifies this, m_seqs
      ensures TickOutcome(old(Now()), now_sec, Now(), fired, nodes)
    {
      ghost var t := Now();
      fired, nodes := [], [];
      TickingBegins(t, now_sec);
      hide Ticking, TickOutcome, Timers.Valid, Spent;
      var due, node := PopDue(now_sec, t, fired, nodes);
      while due != NoneDue
        invariant due == NoneDue ==> forall n :: n in m_heap ==> n.expire > now_sec
        invariant if due.CallBack? then Ticking(t, now_sec, Now(), fired + [due.fd], nodes + [node])
                  else Ticking(t, now_sec, Now(), fired, nodes)
        decreases |m_heap|, if due == NoneDue then 0 else 1
      {
        if due.CallBack? {
          fired, nodes := fired + [due.fd], nodes + [node];
        }
        due, node := PopDue(now_sec, t, fired, nodes);
      }
      TickingEnds(t, now_sec, Now(), fired, nodes);
    }
  }

  datatype Due = NoneDue | Outdated | CallBack(fd: int)

  /** The descriptor has no version and no deadline: invalidating it changes nothing. */
  predicate Spent(t: Timers, fd: int) { t.InRange(fd) && t.seqs[fd] == 0 && fd !in t.deadline }

  lemma SpentIsInRange(t: Timers, fd: int)
    requires Spent(t, fd)
    ensures 0 <= fd < |t.seqs|
  {
  }

  lemma SpentStays(t: Timers, fd: int)
    requires Spent(t, fd)
    ensures Invalidated(t, fd) == t
  {
    assert t.seqs[fd := 0] == t.seqs && t.deadline - {fd} == t.deadline;
  }

  // ---------- the popping loop, on values ----------

  /** What holds between `t`, where tick began, and `u`, where it stands. */
  ghost predicate Ticking(t: Timers, now: int, u: Timers, fired: seq<int>, nodes: seq<TimerNode>) {
    && t.Valid()
    && HeapLeft(t, now, u.heap, fired) && MapsLeft(t, u, fired)
    && Distinct(fired) && AllFired(t, now, fired, nodes) && NoneAfter(nodes, u.heap)
  }

  lemma TickingBegins(t: Timers, now: int)
    requires t.Valid()
    ensures Ticking(t, now, t, [], [])
  {
  }

  /** Only due nodes are gone, and none that counts for a descriptor still to fire. */
  ghost predicate HeapLeft(t: Timers, now: int, h: multiset<TimerNode>, fired: seq<int>) {
    && (forall n :: h[n] <= t.heap[n] && (n.expire > now ==> h[n] == t.heap[n]))
    && (forall n :: n in t.heap && t.Current(n) && n.fd !in fired ==> h[n] == t.heap[n])
  }

  ghost predicate MapsLeft(t: Timers, u: Timers, fired: seq<int>) {
    && |u.seqs| == |t.seqs|
    && (forall fd :: t.InRange(fd) ==> u.seqs[fd] == if fd in fired then 0 else t.seqs[fd])
    && (forall fd :: fd in u.deadline <==> fd in t.deadline && fd !in fired)
    && (forall fd :: fd in u.deadline ==> u.deadline[fd] == t.deadline[fd])
  }

  predicate Distinct(fired: seq<int>) {
    forall i, j :: 0 <= i < j < |fired| ==> fired[i] != fired[j]
  }

  predicate NoneAfter(nodes: seq<TimerNode>, h: multiset<TimerNode>) {
    forall i, n :: 0 <= i < |nodes| && n in h ==> nodes[i].expire <= n.expire
  }

  /** Each of `nodes` fired its descriptor: it counted, was due, was not after the deadline; and they are in order. */
  ghost predicate AllFired(t: Timers, now: int, fired: seq<int>, nodes: seq<TimerNode>)
    requires t.Valid()
  {
    && |nodes| == |fired|
    && (forall i :: 0 <= i < |nodes| ==> nodes[i].fd == fired[i] && FiredBy(t, now, nodes[i]))
    && (forall i, j :: 0 <= i < j < |nodes| ==> nodes[i].expire <= nodes[j].expire)
  }

  ghost predicate FiredBy(t: Timers, now: int, n: TimerNode)
    requires t.Valid()
  {
    n in t.heap && t.Current(n) && n.expire <= now && n.expire <= t.deadline[n.fd]
  }

  function Popped(u: Timers, node: TimerNode): Timers { u.(heap := u.heap - multiset{node}) }

  function PoppedAndFired(u: Timers, node: TimerNode): Timers
    requires u.InRange(node.fd)
  {
    Popped(u, node).(seqs := u.seqs[node.fd := 0], deadline := u.deadline - {node.fd})
  }

  lemma PopInRange(t: Timers, now: int, u: Timers, fired: seq<int>, nodes: seq<TimerNode>, node: TimerNode)
    requires Ticking(t, now, u, fired, nodes) && node in u.heap
    ensures node in t.heap && t.InRange(node.fd) && |u.seqs| == |t.seqs| && node.seqno > 0
    ensures u.seqs[node.fd] == node.seqno ==> node.fd !in fired && t.Current(node)
  {
    assert u.heap[node] > 0;
  }

  lemma PopOne(h: multiset<TimerNode>, node: TimerNode)
    requires node in h
    ensures var g := h - multiset{node};
      forall n :: g[n] == (if n == node then h[n] - 1 else h[n]) && (n in g ==> n in h)
  {
  }

  lemma PopShrinks(u: Timers, node: TimerNode)
    requires node in u.heap
    ensures |Popped(u, node).heap| < |u.heap|
    ensures u.InRange(node.fd) ==>
      PoppedAndFired(u, node).heap == Popped(u, node).heap && Spent(PoppedAndFired(u, node), node.fd)
  {
  }

  lemma PopSkips(t: Timers, now: int, u: Timers, fired: seq<int>, nodes: seq<TimerNode>, node: TimerNode)
    requires Ticking(t, now, u, fired, nodes) && node in u.heap && node.expire <= now
    requires t.InRange(node.fd) && u.seqs[node.fd] != node.seqno
    ensures Ticking(t, now, Popped(u, node), fired, nodes)
  {
    hide Timers.Valid, AllFired, Distinct;
    PopOne(u.heap, node);
  }

  lemma CountsByDeadline(t: Timers, now: int, u: Timers, fired: seq<int>, nodes: seq<TimerNode>, node: TimerNode)
    requires Ticking(t, now, u, fired, nodes) && node in t.heap && t.Current(node) && node.expire <= now
    requires node.fd !in fired && node.seqno > 0 && forall n :: n in u.heap ==> node.expire <= n.expire
    ensures FiredBy(t, now, node)
  {
    hide AllFired, Distinct, NoneAfter;
    var last := TimerNode(t.deadline[node.fd], node.fd, t.seqs[node.fd]);
    assert t.Live(node.fd) && last in t.heap && u.heap[last] == t.heap[last] > 0;
  }

  lemma HeapLeftPops(t: Timers, now: int, h: multiset<TimerNode>, fired: seq<int>, node: TimerNode)
    requires HeapLeft(t, now, h, fired) && node in h && node.expire <= now
    ensures HeapLeft(t, now, h - multiset{node}, fired + [node.fd])
  {
    PopOne(h, node);
  }

  lemma MapsLeftFires(t: Timers, u: Timers, fired: seq<int>, node: TimerNode)
    requires MapsLeft(t, u, fired) && u.InRange(node.fd)
    ensures MapsLeft(t, PoppedAndFired(u, node), fired + [node.fd])
  {
  }

  lemma NoneAfterPops(nodes: seq<TimerNode>, h: multiset<TimerNode>, node: TimerNode)
    requires NoneAfter(nodes, h) && node in h && forall n :: n in h ==> node.expire <= n.expire
    ensures NoneAfter(nodes + [node], h - multiset{node})
    ensures forall i :: 0 <= i < |nodes| ==> nodes[i].expire <= node.expire
  {
    PopOne(h, node);
  }

  lemma PopFires(t: Timers, now: int, u: Timers, fired: seq<int>, nodes: seq<TimerNode>, node: TimerNode)
    requires Ticking(t, now, u, fired, nodes) && node in u.heap && node.expire <= now
    requires forall n :: n in u.heap ==> node.expire <= n.expire
    requires t.InRange(node.fd) && u.seqs[node.fd] == node.seqno
    ensures Ticking(t, now, PoppedAndFired(u, node), fired + [node.fd], nodes + [node])
  {
    PopInRange(t, now, u, fired, nodes, node);
    CountsByDeadline(t, now, u, fired, nodes, node);
    hide Timers.Valid, FiredBy, HeapLeft, MapsLeft, NoneAfter, AllFired;
    HeapLeftPops(t, now, u.heap, fired, node);
    MapsLeftFires(t, u, fired, node);
    NoneAfterPops(nodes, u.heap, node);
    AllFiredGrows(t, now, u, fired, nodes, node);
  }

  lemma AllFiredGrows(t: Timers, now: int, u: Timers, fired: seq<int>, nodes: seq<TimerNode>, node: TimerNode)
    requires t.Valid() && AllFired(t, now, fired, nodes) && FiredBy(t, now, node)
    requires forall i :: 0 <= i < |nodes| ==> nodes[i].expire <= node.expire
    ensures AllFired(t, now, fired + [node.fd], nodes + [node])
  {
  }

  lemma FiredAtDeadlines(t: Timers, now: int, fired: seq<int>, nodes: seq<TimerNode>)
    requires t.Valid() && t.Exact() && AllFired(t, now, fired, nodes)
    ensures forall i :: 0 <= i < |nodes| ==> nodes[i].expire == t.deadline[fired[i]]
  {
    forall i | 0 <= i < |nodes| ensures nodes[i].expire == t.deadline[fired[i]] {
      assert FiredBy(t, now, nodes[i]);
    }
  }

  /** What tick(now) comes to: the due nodes are gone; exactly the descriptors one of them counted for have been called
      back, each once, in order of the nodes that fired them; and if deadlines were exact, they still are, and each
      descriptor fired by the node of its last deadline. */
  ghost predicate TickOutcome(t: Timers, now: int, u: Timers, fired: seq<int>, nodes: seq<TimerNode>) {
    && t.Valid() && u.Valid() && Ticked(t, now, u)
    && Distinct(fired) && (forall fd :: fd in fired <==> Fires(t, now, fd))
    && AllFired(t, now, fired, nodes)
    && (t.Exact() ==> u.Exact() && forall i :: 0 <= i < |nodes| ==> nodes[i].expire == t.deadline[fired[i]])
  }

  lemma FiredIsFires(t: Timers, now: int, u: Timers, fired: seq<int>, nodes: seq<TimerNode>)
    requires Ticking(t, now, u, fired, nodes) && forall n :: n in u.heap ==> n.expire > now
    ensures forall fd :: fd in fired <==> Fires(t, now, fd)
  {
    hide Timers.Valid, MapsLeft, NoneAfter, Distinct;
    forall fd ensures fd in fired <==> Fires(t, now, fd) {
      if fd in fired {
        var i :| 0 <= i < |fired| && fired[i] == fd;
        assert FiredBy(t, now, nodes[i]) && nodes[i].fd == fd;
      } else {
        assert forall n :: n in t.heap && t.Current(n) && n.fd == fd ==> u.heap[n] == t.heap[n] && n in u.heap;
      }
    }
  }

  lemma TickingIsTicked(t: Timers, now: int, u: Timers, fired: seq<int>, nodes: seq<TimerNode>)
    requires Ticking(t, now, u, fired, nodes) && forall n :: n in u.heap ==> n.expire > now
    requires forall fd :: fd in fired <==> Fires(t, now, fd)
    ensures Ticked(t, now, u)
  {
    hide Timers.Valid, Fires, NoneAfter, AllFired, Distinct;
    assert forall n :: u.heap[n] > 0 ==> n in u.heap;
  }

  /** When no due node is left, what has fired is what had to. */
  lemma TickingEnds(t: Timers, now: int, u: Timers, fired: seq<int>, nodes: seq<TimerNode>)
    requires Ticking(t, now, u, fired, nodes) && forall n :: n in u.heap ==> n.expire > now
    ensures TickOutcome(t, now, u, fired, nodes)
  {
    FiredIsFires(t, now, u, fired, nodes);
    TickingIsTicked(t, now, u, fired, nodes);
    hide Ticked, Fires, Timers.Valid, HeapLeft, MapsLeft, NoneAfter;
    TickKeepsValid(t, now, u);
    if t.Exact() { FiredAtDeadlines(t, now, fired, nodes); }
  }

  lemma LeastExists(h: multiset<TimerNode>)
    requires h != multiset{}
    ensures exists top :: top in h && forall n :: n in h ==> top.expire <= n.expire
    decreases |h|
  {
    var x :| x in h;
    var rest := h - multiset{x};
    PopOne(h, x);
    if rest == multiset{} {
      assert forall n :: n in h ==> rest[n] == 0;
    } else {
      LeastExists(rest);
      var y :| y in rest && forall n :: n in rest ==> y.expire <= n.expire;
      var top := if x.expire <= y.expire then x else y;
      forall n | n in h ensures top.expire <= n.expire {
        assert n == x || rest[n] == h[n];
      }
    }
  }
}
