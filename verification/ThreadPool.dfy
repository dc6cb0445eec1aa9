/** The business thread pool as interleaved steps: a mutex, a condition variable, a task queue, and a stop flag that
    is set outside the mutex. Every lock, flag read, queue access, block and wake-up is a step of its own. */
module ThreadPool {

  /** worker_loop: at the top, holding the mutex before the predicate, with the predicate found false, waiting,
      notified, with the predicate found true, running a task, returned. */
  datatype Worker = Top | Checking | Blocking | Blocked | Woken | Taking | Running(task: int) | Exited

  /** submit: not called, wanting the mutex, holding it, with the flag found clear, between push and notify_one. */
  datatype Submitter = Idle | Wanting(task: int) | Holding(task: int) | Pushing(task: int) | Notifying

  /** The shutdown call that wins the flag: before it, flag set, in the empty critical section, behind it, joining. */
  datatype Stopper = NotCalled | FlagSet | InLock | Unlocked | Joining | Returned

  datatype Holder = Free | ByWorker(i: int) | BySubmitter(j: int) | ByStopper

  /** `accepted`, `started` and `finished` record the history of tasks. */
  datatype State = State(
    stop: bool,
    tasks: seq<int>,
    lock: Holder,
    workers: seq<Worker>,
    submitters: seq<Submitter>,
    stopper: Stopper,
    accepted: seq<int>,
    started: seq<int>,
    finished: multiset<int>)

  datatype Step =
    | WorkerLock(i: nat) | WorkerCheck(i: nat) | WorkerBlock(i: nat) | WorkerTake(i: nat) | WorkerFinish(i: nat)
    | WorkerSpuriousWake(i: nat)
    | SubmitCall(j: nat, task: int) | SubmitLock(j: nat) | SubmitCheck(j: nat) | SubmitPush(j: nat)
    | SubmitNotify(j: nat, chosen: int)
    | StopCall | StopLock | StopUnlock | StopNotifyAll | StopReturn

  predicate SomeBlocked(s: State) { exists i :: 0 <= i < |s.workers| && s.workers[i] == Blocked }

  predicate AllExited(s: State) { forall i :: 0 <= i < |s.workers| ==> s.workers[i] == Exited }

  predicate Enabled(s: State, e: Step) {
    match e
    case WorkerLock(i) => i < |s.workers| && (s.workers[i] == Top || s.workers[i] == Woken) && s.lock == Free
    case WorkerCheck(i) => i < |s.workers| && s.workers[i] == Checking
    case WorkerBlock(i) => i < |s.workers| && s.workers[i] == Blocking
    case WorkerTake(i) => i < |s.workers| && s.workers[i] == Taking
    case WorkerFinish(i) => i < |s.workers| && s.workers[i].Running?
    case WorkerSpuriousWake(i) => i < |s.workers| && s.workers[i] == Blocked
    case SubmitCall(j, t) => j < |s.submitters| && s.submitters[j] == Idle
    case SubmitLock(j) => j < |s.submitters| && s.submitters[j].Wanting? && s.lock == Free
    case SubmitCheck(j) => j < |s.submitters| && s.submitters[j].Holding?
    case SubmitPush(j) => j < |s.submitters| && s.submitters[j].Pushing?
    case SubmitNotify(j, c) =>
      && j < |s.submitters| && s.submitters[j] == Notifying
      && (if SomeBlocked(s) then 0 <= c < |s.workers| && s.workers[c] == Blocked else c == -1)
    case StopCall => s.stopper == NotCalled
    case StopLock => s.stopper == FlagSet && s.lock == Free
    case StopUnlock => s.stopper == InLock
    case StopNotifyAll => s.stopper == Unlocked
    case StopReturn => s.stopper == Joining && AllExited(s)
  }

  function WakeAll(ws: seq<Worker>): (r: seq<Worker>)
    ensures |r| == |ws|
    ensures forall i :: 0 <= i < |ws| ==> r[i] == if ws[i] == Blocked then Woken else ws[i]
  {
    seq(|ws|, i requires 0 <= i < |ws| => if ws[i] == Blocked then Woken else ws[i])
  }

  function Next(s: State, e: Step): State
    requires Enabled(s, e)
  {
    match e
    case WorkerLock(i) => s.(workers := s.workers[i := Checking], lock := ByWorker(i))
    case WorkerCheck(i) => s.(workers := s.workers[i := if s.stop || s.tasks != [] then Taking else Blocking])
    case WorkerBlock(i) => s.(workers := s.workers[i := Blocked], lock := Free)
    case WorkerTake(i) =>
      if s.stop && s.tasks == [] then s.(workers := s.workers[i := Exited], lock := Free)
      else if s.tasks == [] then s  // front() of an empty queue: see TakeIsSafe
      else s.(workers := s.workers[i := Running(s.tasks[0])], lock := Free,
              tasks := s.tasks[1..], started := s.started + [s.tasks[0]])
    case WorkerFinish(i) =>
      s.(workers := s.workers[i := Top], finished := s.finished + multiset{s.workers[i].task})
    case WorkerSpuriousWake(i) => s.(workers := s.workers[i := Woken])
    case SubmitCall(j, t) => s.(submitters := s.submitters[j := Wanting(t)])
    case SubmitLock(j) => s.(submitters := s.submitters[j := Holding(s.submitters[j].task)], lock := BySubmitter(j))
    case SubmitCheck(j) =>
      if s.stop then s.(submitters := s.submitters[j := Idle], lock := Free)
      else s.(submitters := s.submitters[j := Pushing(s.submitters[j].task)])
    case SubmitPush(j) =>
      var t := s.submitters[j].task;
      s.(submitters := s.submitters[j := Notifying], lock := Free,
         tasks := s.tasks + [t], accepted := s.accepted + [t])
    case SubmitNotify(j, c) =>
      s.(submitters := s.submitters[j := Idle],
         workers := if c == -1 then s.workers else s.workers[c := Woken])
    case StopCall => s.(stop := true, stopper := FlagSet)
    case StopLock => s.(stopper := InLock, lock := ByStopper)
    case StopUnlock => s.(stopper := Unlocked, lock := Free)
    case StopNotifyAll => s.(stopper := Joining, workers := WakeAll(s.workers))
    case StopReturn => s.(stopper := Returned)
  }

  /** As constructed: at least one worker, any number of threads that may submit. */
  predicate Init(s: State) {
    && !s.stop && s.tasks == [] && s.lock == Free && s.stopper == NotCalled
    && |s.workers| > 0 && (forall i :: 0 <= i < |s.workers| ==> s.workers[i] == Top)
    && (forall j :: 0 <= j < |s.submitters| ==> s.submitters[j] == Idle)
    && s.accepted == [] && s.started == [] && s.finished == multiset{}
  }

  // ---------- invariants ----------

  /** The mutex has one holder, and that is who is inside a critical section. */
  predicate LockInv(s: State) {
    && (forall i :: 0 <= i < |s.workers| ==>
          (s.workers[i] in {Checking, Blocking, Taking} <==> s.lock == ByWorker(i)))
    && (forall j :: 0 <= j < |s.submitters| ==>
          (s.submitters[j].Holding? || s.submitters[j].Pushing? <==> s.lock == BySubmitter(j)))
    && (s.stopper == InLock <==> s.lock == ByStopper)
    && (s.lock.ByWorker? ==> 0 <= s.lock.i < |s.workers|)
    && (s.lock.BySubmitter? ==> 0 <= s.lock.j < |s.submitters|)
  }

  predicate NonePushing(s: State) { forall j :: 0 <= j < |s.submitters| ==> !s.submitters[j].Pushing? }

  /** The stopper has been through its empty critical section, or is in it. */
  predicate Fenced(s: State) { s.stopper !in {NotCalled, FlagSet} }

  predicate PhaseInv(s: State) {
    && |s.workers| > 0
    && (s.stop <==> s.stopper != NotCalled)
    && (forall i :: 0 <= i < |s.workers| ==>
          (s.workers[i] == Taking ==> s.stop || s.tasks != [])
          && (s.workers[i] == Blocking ==> s.tasks == [] && !Fenced(s))
          && (s.workers[i] == Exited ==> s.stop && s.tasks == [] && NonePushing(s))
          && (s.workers[i] == Blocked ==> s.stopper !in {Joining, Returned}))
    && (Fenced(s) ==> NonePushing(s))
    && (s.stopper == Returned ==> AllExited(s))
  }

  function Way(w: Worker): nat { if w in {Top, Checking, Woken, Taking} then 1 else 0 }

  /** Workers on their way to the queue. */
  function Awake(ws: seq<Worker>): nat { if ws == [] then 0 else Way(ws[0]) + Awake(ws[1..]) }

  /** Submitters about to notify. */
  function Notifiers(us: seq<Submitter>): nat {
    if us == [] then 0 else (if us[0] == Notifying then 1 else 0) + Notifiers(us[1..])
  }

  function Has(w: Worker, t: int): nat { if w == Running(t) then 1 else 0 }

  /** How many workers are running task `t`. */
  function InHand(ws: seq<Worker>, t: int): nat { if ws == [] then 0 else Has(ws[0], t) + InHand(ws[1..], t) }

  /** While some worker sleeps, every queued task has a worker on its way or a submitter about to wake one. */
  predicate WakeInv(s: State) { SomeBlocked(s) ==> |s.tasks| <= Awake(s.workers) + Notifiers(s.submitters) }

  /** Tasks start in the order they were accepted, and each one started is running or finished, once. */
  ghost predicate HistoryInv(s: State) {
    && s.accepted == s.started + s.tasks
    && forall t :: multiset(s.started)[t] == s.finished[t] + InHand(s.workers, t)
  }

  ghost predicate Inv(s: State) { LockInv(s) && PhaseInv(s) && WakeInv(s) && HistoryInv(s) }

  // ---------- counting ----------

  lemma {:induction false} AwakeUpdate(ws: seq<Worker>, i: nat, w: Worker)
    requires i < |ws|
    ensures Awake(ws[i := w]) == Awake(ws) - Way(ws[i]) + Way(w)
    ensures Awake(ws) >= Way(ws[i])
  {
    if i == 0 {
      assert ws[0 := w][1..] == ws[1..];
    } else {
      assert ws[i := w][1..] == ws[1..][i - 1 := w];
      AwakeUpdate(ws[1..], i - 1, w);
    }
  }

  lemma {:induction false} NotifiersUpdate(us: seq<Submitter>, j: nat, u: Submitter)
    requires j < |us|
    ensures Notifiers(us[j := u]) ==
      Notifiers(us) - (if us[j] == Notifying then 1 else 0) + (if u == Notifying then 1 else 0)
  {
    if j == 0 {
      assert us[0 := u][1..] == us[1..];
    } else {
      assert us[j := u][1..] == us[1..][j - 1 := u];
      NotifiersUpdate(us[1..], j - 1, u);
    }
  }

  lemma {:induction false} InHandUpdate(ws: seq<Worker>, i: nat, w: Worker, t: int)
    requires i < |ws|
    ensures InHand(ws[i := w], t) == InHand(ws, t) - Has(ws[i], t) + Has(w, t)
  {
    if i == 0 {
      assert ws[0 := w][1..] == ws[1..];
    } else {
      assert ws[i := w][1..] == ws[1..][i - 1 := w];
      InHandUpdate(ws[1..], i - 1, w, t);
    }
  }

  lemma {:induction false} InHandWakeAll(ws: seq<Worker>, t: int)
    ensures InHand(WakeAll(ws), t) == InHand(ws, t)
  {
    if ws != [] {
      assert WakeAll(ws)[1..] == WakeAll(ws[1..]);
      InHandWakeAll(ws[1..], t);
    }
  }

  lemma {:induction false} NobodyRuns(ws: seq<Worker>, t: int)
    requires forall i :: 0 <= i < |ws| ==> !ws[i].Running?
    ensures InHand(ws, t) == 0
  {
    if ws != [] {
      NobodyRuns(ws[1..], t);
    }
  }

  // ---------- every step keeps them ----------

  lemma InitHolds(s: State)
    requires Init(s)
    ensures Inv(s)
  {
    forall t ensures InHand(s.workers, t) == 0 { NobodyRuns(s.workers, t); }
  }

  predicate IsWorkerStep(e: Step) {
    e.WorkerLock? || e.WorkerCheck? || e.WorkerBlock? || e.WorkerTake? || e.WorkerFinish? || e.WorkerSpuriousWake?
  }

  predicate IsSubmitStep(e: Step) {
    e.SubmitCall? || e.SubmitLock? || e.SubmitCheck? || e.SubmitPush? || e.SubmitNotify?
  }

  lemma WorkerKeepsLock(s: State, e: Step)
    requires LockInv(s) && PhaseInv(s) && Enabled(s, e) && IsWorkerStep(e)
    ensures LockInv(Next(s, e))
  {
    match e
    case WorkerLock(i) =>
    case WorkerCheck(i) =>
    case WorkerBlock(i) =>
    case WorkerTake(i) =>
    case _ =>
  }

  lemma SubmitKeepsLock(s: State, e: Step)
    requires LockInv(s) && PhaseInv(s) && Enabled(s, e) && IsSubmitStep(e)
    ensures LockInv(Next(s, e))
  {
    match e
    case SubmitCheck(j) =>
    case SubmitPush(j) =>
    case SubmitNotify(j, c) =>
    case _ =>
  }

  lemma StopKeepsLock(s: State, e: Step)
    requires LockInv(s) && PhaseInv(s) && Enabled(s, e) && !IsWorkerStep(e) && !IsSubmitStep(e)
    ensures LockInv(Next(s, e))
  {
    match e
    case StopLock =>
    case StopUnlock =>
    case StopNotifyAll =>
    case _ =>
  }

  lemma StepKeepsLock(s: State, e: Step)
    requires LockInv(s) && PhaseInv(s) && Enabled(s, e)
    ensures LockInv(Next(s, e))
  {
    hide LockInv, PhaseInv, Enabled, Next;
    if IsWorkerStep(e) {
      WorkerKeepsLock(s, e);
    } else if IsSubmitStep(e) {
      SubmitKeepsLock(s, e);
    } else {
      StopKeepsLock(s, e);
    }
  }

  lemma WorkerKeepsPhase(s: State, e: Step)
    requires LockInv(s) && PhaseInv(s) && Enabled(s, e) && IsWorkerStep(e)
    ensures PhaseInv(Next(s, e))
  {
    match e
    case WorkerLock(i) =>
    case WorkerCheck(i) =>
    case WorkerBlock(i) =>
    case WorkerTake(i) =>
    case _ =>
  }

  lemma SubmitKeepsPhase(s: State, e: Step)
    requires LockInv(s) && PhaseInv(s) && Enabled(s, e) && IsSubmitStep(e)
    ensures PhaseInv(Next(s, e))
  {
    match e
    case SubmitCheck(j) =>
    case SubmitPush(j) =>
    case SubmitNotify(j, c) =>
    case _ =>
  }

  lemma StopKeepsPhase(s: State, e: Step)
    requires LockInv(s) && PhaseInv(s) && Enabled(s, e) && !IsWorkerStep(e) && !IsSubmitStep(e)
    ensures PhaseInv(Next(s, e))
  {
    match e
    case StopLock =>
    case StopUnlock =>
    case StopNotifyAll =>
    case _ =>
  }

  lemma StepKeepsPhase(s: State, e: Step)
    requires LockInv(s) && PhaseInv(s) && Enabled(s, e)
    ensures PhaseInv(Next(s, e))
  {
    hide LockInv, PhaseInv, Enabled, Next;
    if IsWorkerStep(e) {
      WorkerKeepsPhase(s, e);
    } else if IsSubmitStep(e) {
      SubmitKeepsPhase(s, e);
    } else {
      StopKeepsPhase(s, e);
    }
  }

  /** The worker a step moves, if it moves just one, and where to. */
  function Moves(s: State, e: Step): (r: (int, Worker))
    requires Enabled(s, e) && e != StopNotifyAll
    ensures r.0 == -1 || 0 <= r.0 < |s.workers|
    ensures Next(s, e).workers == if r.0 == -1 then s.workers else s.workers[r.0 := r.1]
  {
    match e
    case WorkerLock(i) => (i, Checking)
    case WorkerCheck(i) => (i, if s.stop || s.tasks != [] then Taking else Blocking)
    case WorkerBlock(i) => (i, Blocked)
    case WorkerTake(i) =>
      if s.stop && s.tasks == [] then (i, Exited) else if s.tasks == [] then (-1, Top) else (i, Running(s.tasks[0]))
    case WorkerFinish(i) => (i, Top)
    case WorkerSpuriousWake(i) => (i, Woken)
    case SubmitNotify(j, c) => (c, Woken)
    case _ => (-1, Top)
  }

  /** A worker that sleeps after a step other than its own blocking slept before. */
  lemma SleptBefore(s: State, e: Step)
    requires Enabled(s, e) && !e.WorkerBlock? && SomeBlocked(Next(s, e))
    ensures e != StopNotifyAll && SomeBlocked(s)
  {
    var n := Next(s, e);
    var b :| 0 <= b < |n.workers| && n.workers[b] == Blocked;
    if e != StopNotifyAll {
      var m := Moves(s, e);
      assert s.workers[b] == Blocked;
    }
  }

  lemma AwakeAfter(s: State, e: Step)
    requires Enabled(s, e) && e != StopNotifyAll
    ensures var m := Moves(s, e);
      Awake(Next(s, e).workers) == Awake(s.workers) + if m.0 == -1 then 0 else Way(m.1) - Way(s.workers[m.0])
  {
    hide Next;
    if Moves(s, e).0 != -1 { AwakeUpdate(s.workers, Moves(s, e).0, Moves(s, e).1); }
  }

  lemma NotifiersAfter(s: State, e: Step)
    requires Enabled(s, e)
    ensures Notifiers(Next(s, e).submitters) ==
      Notifiers(s.submitters) + if e.SubmitPush? then 1 else if e.SubmitNotify? then -1 else 0
  {
    hide SomeBlocked, Moves;
    if IsSubmitStep(e) { NotifiersUpdate(s.submitters, e.j, Next(s, e).submitters[e.j]); }
  }

  lemma StepKeepsWake(s: State, e: Step)
    requires LockInv(s) && PhaseInv(s) && WakeInv(s) && Enabled(s, e)
    ensures WakeInv(Next(s, e))
  {
    var n := Next(s, e);
    if SomeBlocked(n) {
      if e.WorkerBlock? {
        assert s.tasks == [];
      } else {
        SleptBefore(s, e);
        AwakeAfter(s, e);
        NotifiersAfter(s, e);
        hide LockInv, SomeBlocked, Awake, Notifiers;
      }
    }
  }

  lemma InHandAfter(s: State, e: Step, t: int)
    requires Enabled(s, e)
    ensures InHand(Next(s, e).workers, t) ==
      InHand(s.workers, t) +
      if e == StopNotifyAll || Moves(s, e).0 == -1 then 0
      else Has(Moves(s, e).1, t) - Has(s.workers[Moves(s, e).0], t)
  {
    if e == StopNotifyAll {
      InHandWakeAll(s.workers, t);
    } else if Moves(s, e).0 != -1 {
      InHandUpdate(s.workers, Moves(s, e).0, Moves(s, e).1, t);
    }
  }

  /** Every step but a worker's taking and finishing leaves both counts alone. */
  lemma OthersKeepCount(s: State, e: Step, t: int)
    requires Enabled(s, e) && !e.WorkerTake? && !e.WorkerFinish?
    ensures Next(s, e).started == s.started && Next(s, e).finished == s.finished
    ensures InHand(Next(s, e).workers, t) == InHand(s.workers, t)
  {
    InHandAfter(s, e, t);
    hide SomeBlocked, InHand, NonePushing, Fenced, AllExited;
  }

  lemma StepKeepsCount(s: State, e: Step, t: int)
    requires PhaseInv(s) && Enabled(s, e)
    requires multiset(s.started)[t] == s.finished[t] + InHand(s.workers, t)
    ensures multiset(Next(s, e).started)[t] == Next(s, e).finished[t] + InHand(Next(s, e).workers, t)
  {
    if e.WorkerTake? || e.WorkerFinish? {
      InHandAfter(s, e, t);
      hide SomeBlocked, InHand, PhaseInv;
      if e.WorkerTake? && s.tasks != [] { StartedOne(s.started, s.tasks[0], t); }
    } else {
      hide Next, Enabled, InHand, PhaseInv;
      OthersKeepCount(s, e, t);
    }
  }

  lemma StartedOne(ts: seq<int>, x: int, t: int)
    ensures multiset(ts + [x])[t] == multiset(ts)[t] + if x == t then 1 else 0
  {
  }

  lemma StepKeepsOrder(s: State, e: Step)
    requires PhaseInv(s) && s.accepted == s.started + s.tasks && Enabled(s, e)
    ensures Next(s, e).accepted == Next(s, e).started + Next(s, e).tasks
  {
    hide PhaseInv, SomeBlocked;
    var n := Next(s, e);
    if e.WorkerTake? {
      assert s.tasks != [] ==> s.tasks == [s.tasks[0]] + s.tasks[1..];
    } else if e.SubmitPush? {
      assert s.started + s.tasks + [s.submitters[e.j].task] == s.started + (s.tasks + [s.submitters[e.j].task]);
    }
  }

  lemma StepKeepsHistory(s: State, e: Step)
    requires PhaseInv(s) && HistoryInv(s) && Enabled(s, e)
    ensures HistoryInv(Next(s, e))
  {
    hide Next, Enabled, PhaseInv, InHand;
    StepKeepsOrder(s, e);
    forall t ensures multiset(Next(s, e).started)[t] == Next(s, e).finished[t] + InHand(Next(s, e).workers, t) {
      StepKeepsCount(s, e, t);
    }
  }

  // ---------- runs ----------

  predicate IsRun(ss: seq<State>, es: seq<Step>) {
    && |ss| == |es| + 1 && Init(ss[0])
    && forall k :: 0 <= k < |es| ==> Enabled(ss[k], es[k]) && ss[k + 1] == Next(ss[k], es[k])
  }

  lemma {:induction false} InvHolds(ss: seq<State>, es: seq<Step>, k: nat)
    requires IsRun(ss, es) && k <= |es|
    ensures Inv(ss[k])
    decreases k
  {
    hide LockInv, PhaseInv, WakeInv, HistoryInv, Next, Enabled;
    if k == 0 {
      InitHolds(ss[0]);
    } else {
      InvHolds(ss, es, k - 1);
      StepKeepsLock(ss[k - 1], es[k - 1]);
      StepKeepsPhase(ss[k - 1], es[k - 1]);
      StepKeepsWake(ss[k - 1], es[k - 1]);
      StepKeepsHistory(ss[k - 1], es[k - 1]);
    }
  }

  /** A worker whose predicate held never takes from an empty queue. */
  lemma TakeIsSafe(ss: seq<State>, es: seq<Step>, k: nat, i: nat)
    requires IsRun(ss, es) && k <= |es| && i < |ss[k].workers| && ss[k].workers[i] == Taking
    ensures ss[k].stop || ss[k].tasks != []
  {
    InvHolds(ss, es, k);
  }

  lemma ExitedStays(s: State, e: Step, i: nat)
    requires LockInv(s) && PhaseInv(s) && Enabled(s, e) && i < |s.workers| && s.workers[i] == Exited
    ensures Next(s, e).accepted == s.accepted
    ensures |Next(s, e).workers| == |s.workers| && Next(s, e).workers[i] == Exited
  {
  }

  lemma ExitedMeansDrained(s: State, i: nat)
    requires PhaseInv(s) && i < |s.workers| && s.workers[i] == Exited
    ensures s.stop && s.tasks == []
  {
  }

  /** Once any worker has returned, the pool is stopped and drained, and nothing is accepted any more. */
  lemma {:induction false} DrainedForGood(ss: seq<State>, es: seq<Step>, k: nat, i: nat, later: nat)
    requires IsRun(ss, es) && k <= later <= |es|
    requires i < |ss[k].workers| && ss[k].workers[i] == Exited
    ensures ss[later].stop && ss[later].tasks == [] && ss[later].accepted == ss[k].accepted
    ensures |ss[later].workers| == |ss[k].workers| && ss[later].workers[i] == Exited
    decreases later - k
  {
    hide LockInv, PhaseInv, WakeInv, HistoryInv, Next, Enabled;
    InvHolds(ss, es, later);
    if k < later {
      DrainedForGood(ss, es, k, i, later - 1);
      InvHolds(ss, es, later - 1);
      ExitedStays(ss[later - 1], es[later - 1], i);
    }
    ExitedMeansDrained(ss[later], i);
  }

  /** When the shutdown call that won the flag returns, every accepted task has been started, in the order in which the
      tasks were accepted, and has finished, exactly once. */
  lemma ShutdownDrains(ss: seq<State>, es: seq<Step>, k: nat)
    requires IsRun(ss, es) && k <= |es| && ss[k].stopper == Returned
    ensures ss[k].started == ss[k].accepted && ss[k].finished == multiset(ss[k].accepted) && ss[k].tasks == []
  {
    hide WakeInv, Next, Enabled;
    InvHolds(ss, es, k);
    var s := ss[k];
    assert s.workers[0] == Exited;
    forall t ensures multiset(s.started)[t] == s.finished[t] { NobodyRuns(s.workers, t); }
    assert s.started + [] == s.started;
  }

  /** At every moment: tasks start in the order they were accepted, and none finishes that was not started. */
  lemma StartedInOrder(ss: seq<State>, es: seq<Step>, k: nat)
    requires IsRun(ss, es) && k <= |es|
    ensures ss[k].started <= ss[k].accepted && ss[k].finished <= multiset(ss[k].started)
  {
    hide WakeInv, Next, Enabled;
    InvHolds(ss, es, k);
    forall t ensures ss[k].finished[t] <= multiset(ss[k].started)[t] {}
  }

  /** No lost wake-up: while a worker sleeps, each queued task has a worker on its way to the queue or a submitter
      about to wake one; and once shutdown has notified, nobody sleeps, although the flag was set outside the mutex. */
  lemma NoLostWakeup(ss: seq<State>, es: seq<Step>, k: nat)
    requires IsRun(ss, es) && k <= |es|
    ensures SomeBlocked(ss[k]) ==> |ss[k].tasks| <= Awake(ss[k].workers) + Notifiers(ss[k].submitters)
    ensures ss[k].stopper == Joining || ss[k].stopper == Returned ==> !SomeBlocked(ss[k])
  {
    InvHolds(ss, es, k);
  }

  // ---------- what submit must do ----------

  /** Step `x` puts the task of submitter `j` at the end of what is accepted and of the queue. */
  predicate AppendsAt(ss: seq<State>, es: seq<Step>, x: nat, j: nat, task: int)
    requires |ss| == |es| + 1 && x < |es|
  {
    es[x] == SubmitPush(j) && ss[x + 1].accepted == ss[x].accepted + [task] && ss[x + 1].tasks == ss[x].tasks + [task]
  }

  /** At step `x` submitter `j`, holding the mutex, finds the stop flag set. */
  predicate RefusesAt(ss: seq<State>, es: seq<Step>, x: nat, j: nat)
    requires |ss| == |es| + 1 && x < |es|
  {
    es[x] == SubmitCheck(j) && ss[x].stop
  }

  predicate Appended(ss: seq<State>, es: seq<Step>, k: nat, m: nat, j: nat, task: int)
    requires |ss| == |es| + 1 && k <= m <= |es|
  {
    exists x :: k < x < m && AppendsAt(ss, es, x, j, task)
  }

  predicate Refused(ss: seq<State>, es: seq<Step>, k: nat, m: nat, j: nat)
    requires |ss| == |es| + 1 && k <= m <= |es|
  {
    exists x :: k < x < m && RefusesAt(ss, es, x, j)
  }

  /** Where a call of submit(task) that began at step k stands at m. */
  predicate CallStands(ss: seq<State>, es: seq<Step>, k: nat, m: nat, j: nat, task: int)
    requires |ss| == |es| + 1 && k <= m <= |es|
  {
    && j < |ss[m].submitters|
    && match ss[m].submitters[j]
       case Wanting(t) => t == task
       case Holding(t) => t == task
       case Pushing(t) => t == task
       case Notifying => Appended(ss, es, k, m, j, task)
       case Idle => Appended(ss, es, k, m, j, task) || Refused(ss, es, k, m, j)
  }

  /** What one step does to one submitter. */
  lemma SubmitterAfter(s: State, e: Step, j: nat)
    requires Enabled(s, e) && j < |s.submitters|
    ensures |Next(s, e).submitters| == |s.submitters|
    ensures Next(s, e).submitters[j] ==
      if !IsSubmitStep(e) || e.j != j then s.submitters[j]
      else
        match e
        case SubmitCall(_, t) => Wanting(t)
        case SubmitLock(_) => Holding(s.submitters[j].task)
        case SubmitCheck(_) => if s.stop then Idle else Pushing(s.submitters[j].task)
        case SubmitPush(_) => Notifying
        case _ => Idle
  {
    hide SomeBlocked, AllExited;
  }

  predicate NoOtherCall(es: seq<Step>, k: nat, m: nat, j: nat)
    requires k <= m <= |es|
  {
    forall x :: k < x < m ==> !(es[x].SubmitCall? && es[x].j == j)
  }

  lemma {:induction false} CallStandsLater(ss: seq<State>, es: seq<Step>, k: nat, m: nat, j: nat, task: int)
    requires IsRun(ss, es) && k < m <= |es| && es[k] == SubmitCall(j, task) && NoOtherCall(es, k, m, j)
    ensures CallStands(ss, es, k, m, j, task)
    decreases m
  {
    hide Enabled, Next, Init, AppendsAt, RefusesAt;
    if m == k + 1 {
      assert j < |ss[k].submitters| by { CallerExists(ss[k], j, task); }
      SubmitterAfter(ss[k], es[k], j);
    } else {
      CallStandsLater(ss, es, k, m - 1, j, task);
      var s, e := ss[m - 1], es[m - 1];
      SubmitterAfter(s, e, j);
      StepSuits(s, e, j);
      if e == SubmitPush(j) {
        assert AppendsAt(ss, es, m - 1, j, task) by {
          assert ss[m - 1 + 1] == Next(s, e);
          PushAppends(ss, es, m - 1, j);
        }
      } else if e == SubmitCheck(j) && s.stop {
        assert RefusesAt(ss, es, m - 1, j) by { CheckRefuses(ss, es, m - 1, j); }
      }
    }
  }

  lemma CallerExists(s: State, j: nat, task: int)
    requires Enabled(s, SubmitCall(j, task))
    ensures j < |s.submitters|
  {
  }

  /** A submitter's steps come in the order of its program. */
  lemma StepSuits(s: State, e: Step, j: nat)
    requires Enabled(s, e) && j < |s.submitters|
    ensures e == SubmitPush(j) ==> s.submitters[j].Pushing?
    ensures e == SubmitCheck(j) ==> s.submitters[j].Holding?
    ensures e == SubmitLock(j) ==> s.submitters[j].Wanting?
    ensures e.SubmitNotify? && e.j == j ==> s.submitters[j] == Notifying
  {
    hide SomeBlocked, AllExited;
  }

  lemma PushAppends(ss: seq<State>, es: seq<Step>, x: nat, j: nat)
    requires |ss| == |es| + 1 && x < |es| && Enabled(ss[x], es[x]) && ss[x + 1] == Next(ss[x], es[x])
    requires es[x] == SubmitPush(j)
    ensures ss[x].submitters[j].Pushing? && AppendsAt(ss, es, x, j, ss[x].submitters[j].task)
  {
    hide SomeBlocked, AllExited;
  }

  lemma CheckRefuses(ss: seq<State>, es: seq<Step>, x: nat, j: nat)
    requires |ss| == |es| + 1 && x < |es| && es[x] == SubmitCheck(j) && ss[x].stop
    ensures RefusesAt(ss, es, x, j)
  {
  }

  /** Every call of submit that has returned has put its own task at the end of the queue, or has found the stop flag
      set while it held the mutex. Nothing else can become of a task. */
  lemma SubmitIsHonoured(ss: seq<State>, es: seq<Step>, k: nat, m: nat, j: nat, task: int)
    requires IsRun(ss, es) && k < m <= |es| && es[k] == SubmitCall(j, task) && NoOtherCall(es, k, m, j)
    requires j < |ss[m].submitters| && ss[m].submitters[j] == Idle
    ensures Appended(ss, es, k, m, j, task) || Refused(ss, es, k, m, j)
  {
    hide Enabled, Next, Init;
    CallStandsLater(ss, es, k, m, j, task);
  }

  /** A check that finds the flag clear is followed, as this submitter's next step, by the push of its task: whatever is
      in the queue. */
  lemma {:induction false} ClearFlagMeansPush(ss: seq<State>, es: seq<Step>, x: nat, y: nat, j: nat)
    requires IsRun(ss, es) && x < y < |es| && es[x] == SubmitCheck(j) && !ss[x].stop && j < |ss[x].submitters|
    requires IsSubmitStep(es[y]) && es[y].j == j
    requires forall z :: x < z < y ==> !(IsSubmitStep(es[z]) && es[z].j == j)
    ensures ss[x].submitters[j].Holding? && AppendsAt(ss, es, y, j, ss[x].submitters[j].task)
  {
    hide Enabled, Next, Init, AppendsAt;
    StepSuits(ss[x], es[x], j);
    SubmitterAfter(ss[x], es[x], j);
    var u := ss[x + 1].submitters[j];
    var z := x + 1;
    while z < y
      invariant x < z <= y && j < |ss[z].submitters| && ss[z].submitters[j] == u
    {
      SubmitterAfter(ss[z], es[z], j);
      z := z + 1;
    }
    OnlyPushFollows(ss[y], es[y], j);
    PushAppends(ss, es, y, j);
  }

  lemma OnlyPushFollows(s: State, e: Step, j: nat)
    requires Enabled(s, e) && IsSubmitStep(e) && e.j == j && j < |s.submitters| && s.submitters[j].Pushing?
    ensures e == SubmitPush(j)
  {
    hide SomeBlocked, AllExited;
  }

  // ---------- shutdown gets there ----------

  function Distance(w: Worker): nat {
    match w
    case Exited => 0
    case Taking => 1
    case Checking => 2
    case Top => 3
    case Woken => 3
    case Running(_) => 4
    case Blocking => 0
    case Blocked => 0
  }

  function Left(ws: seq<Worker>): nat { if ws == [] then 0 else Distance(ws[0]) + Left(ws[1..]) }

  lemma {:induction false} LeftUpdate(ws: seq<Worker>, i: nat, w: Worker)
    requires i < |ws|
    ensures Left(ws[i := w]) == Left(ws) - Distance(ws[i]) + Distance(w)
  {
    if i == 0 {
      assert ws[0 := w][1..] == ws[1..];
    } else {
      assert ws[i := w][1..] == ws[1..][i - 1 := w];
      LeftUpdate(ws[1..], i - 1, w);
    }
  }

  /** Work left while shutdown joins. */
  function Rank(s: State): nat { 4 * |s.tasks| + Left(s.workers) }

  lemma JoinStep(s: State, e: Step)
    requires LockInv(s) && PhaseInv(s) && Enabled(s, e) && s.stopper == Joining
    ensures if IsWorkerStep(e) then Rank(Next(s, e)) < Rank(s) else Rank(Next(s, e)) == Rank(s)
  {
    if e == StopReturn || IsSubmitStep(e) {
      SubmitWhileJoining(s, e);
    } else {
      LeftUpdate(s.workers, Moves(s, e).0, Moves(s, e).1);
      hide LockInv, Left, SomeBlocked, AllExited;
    }
  }

  /** Once the flag is set and the stopper is behind its fence, submitters change neither queue nor workers. */
  lemma SubmitWhileJoining(s: State, e: Step)
    requires LockInv(s) && PhaseInv(s) && Enabled(s, e) && s.stopper == Joining
    requires e == StopReturn || IsSubmitStep(e)
    ensures Next(s, e).tasks == s.tasks && Next(s, e).workers == s.workers
  {
  }

  /** While shutdown joins, every worker step brings the end nearer and nothing moves it away. */
  lemma JoiningGetsNearer(ss: seq<State>, es: seq<Step>, k: nat)
    requires IsRun(ss, es) && k < |es| && ss[k].stopper == Joining
    ensures if IsWorkerStep(es[k]) then Rank(ss[k + 1]) < Rank(ss[k]) else Rank(ss[k + 1]) == Rank(ss[k])
  {
    hide Enabled, Next, Rank, LockInv, PhaseInv, WakeInv, HistoryInv;
    InvHolds(ss, es, k);
    JoinStep(ss[k], es[k]);
  }

  /** Worker steps among steps k to m. */
  function WorkerSteps(es: seq<Step>, k: nat, m: nat): nat
    requires k <= m <= |es|
    decreases m
  {
    if k == m then 0 else WorkerSteps(es, k, m - 1) + if IsWorkerStep(es[m - 1]) then 1 else 0
  }

  /** So however the threads interleave, the workers take at most `Rank` steps while shutdown joins. */
  lemma {:induction false} JoiningIsBounded(ss: seq<State>, es: seq<Step>, k: nat, m: nat)
    requires IsRun(ss, es) && k <= m <= |es|
    requires forall x :: k <= x < m ==> ss[x].stopper == Joining
    ensures WorkerSteps(es, k, m) + Rank(ss[m]) <= Rank(ss[k])
    decreases m
  {
    hide Enabled, Next, Rank;
    if k < m {
      JoiningIsBounded(ss, es, k, m - 1);
      JoiningGetsNearer(ss, es, m - 1);
    }
  }

  /** Whoever holds the mutex while shutdown joins can move on. */
  lemma HolderCanMove(s: State) returns (e: Step)
    requires LockInv(s) && PhaseInv(s) && s.stopper == Joining && s.lock != Free
    ensures Enabled(s, e) && (e.SubmitCheck? || IsWorkerStep(e))
  {
    if s.lock.ByWorker? {
      e := if s.workers[s.lock.i] == Checking then WorkerCheck(s.lock.i) else WorkerTake(s.lock.i);
    } else {
      assert s.lock.BySubmitter?;
      e := SubmitCheck(s.lock.j);
    }
  }

  /** While shutdown joins, it can return or some thread can move: a worker, or the submitter that holds the mutex and
      is about to find the flag set. */
  lemma JoiningIsNeverStuck(ss: seq<State>, es: seq<Step>, k: nat) returns (e: Step)
    requires IsRun(ss, es) && k <= |es| && ss[k].stopper == Joining
    ensures Enabled(ss[k], e) && (e == StopReturn || e.SubmitCheck? || IsWorkerStep(e))
  {
    hide WakeInv, HistoryInv, Next;
    InvHolds(ss, es, k);
    var s := ss[k];
    if AllExited(s) {
      e := StopReturn;
    } else if s.lock != Free {
      e := HolderCanMove(s);
    } else {
      var i :| 0 <= i < |s.workers| && s.workers[i] != Exited;
      e := if s.workers[i].Running? then WorkerFinish(i) else WorkerLock(i);
    }
  }

  // ---------- the critical sections ----------

  datatype Taken = Returns | Task(task: int)

  /** The shared fields, and what each thread does to them; the steps above say how the threads interleave. */
  class Pool {
    var m_tasks: seq<int>
    var m_stop: bool

    ghost predicate Agrees(s: State) reads this { m_tasks == s.tasks && m_stop == s.stop }

    constructor ()
      ensures m_tasks == [] && !m_stop
    {
      m_tasks, m_stop := [], false;
    }

    /** shutdown's compare-and-exchange; only the call that wins goes on. */
    method WinStop(ghost s: State) returns (won: bool)
      requires Agrees(s) && (s.stopper == NotCalled <==> !s.stop)
      modifies `m_stop
      ensures won == Enabled(s, StopCall)
      ensures Agrees(if won then Next(s, StopCall) else s)
    {
      won := !m_stop;
      m_stop := true;
    }

    /** submit's critical section. */
    method SubmitLocked(task: int, ghost s: State, ghost j: nat) returns (pushed: bool)
      requires Agrees(s) && Enabled(s, SubmitCheck(j)) && s.submitters[j].task == task
      modifies `m_tasks
      ensures pushed == Enabled(Next(s, SubmitCheck(j)), SubmitPush(j))
      ensures Agrees(if pushed then Next(Next(s, SubmitCheck(j)), SubmitPush(j)) else Next(s, SubmitCheck(j)))
      ensures pushed == !m_stop && m_tasks == if m_stop then old(m_tasks) else old(m_tasks) + [task]
    {
      if m_stop {
        return false;
      }
      m_tasks := m_tasks + [task];
      return true;
    }

    /** worker_loop's critical section behind the wait. */
    method TakeLocked(ghost s: State, ghost i: nat) returns (r: Taken)
      requires Agrees(s) && LockInv(s) && PhaseInv(s) && Enabled(s, WorkerTake(i))
      modifies `m_tasks
      ensures Agrees(Next(s, WorkerTake(i)))
      ensures Next(s, WorkerTake(i)).workers[i] == if r == Returns then Exited else Running(r.task)
      ensures r.Task? ==> old(m_tasks) == [r.task] + m_tasks
    {
      if m_stop && m_tasks == [] {
        return Returns;
      }
      r := Task(m_tasks[0]);
      m_tasks := m_tasks[1..];
    }
  }
}
