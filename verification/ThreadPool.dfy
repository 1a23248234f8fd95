/** The thread pool as a protocol: `n` workers, any number of threads in `enqueue`, and the destructor,
    around one mutex, one condition variable, the task queue and the stop flag. */
module ThreadPool {
  import opened Calls
  import opened Options

  /** A task is known by a number. */
  type Task = nat

  datatype Thread = Worker(w: nat) | Submitter(p: nat) | Destructor

  datatype WorkerPc =
    | Locking               // taking or, after a wake-up, retaking the mutex
    | Testing               // mutex held, evaluating the wait's predicate
    | Blocked               // on the condition variable
    | Deciding              // mutex held, past the wait
    | Running(ticket: nat)  // executing the ticket-th task taken from the queue
    | Returned

  datatype SubmitterPc = Submitting(task: Task) | Holding(task: Task) | Notifying

  datatype DestructorPc = Alive | StopHeld | NotifyingAll | Joining

  /** What was accepted, what was taken, and how often each taken task has been executed. */
  datatype History = History(enqueued: seq<Task>, dequeued: seq<Task>, runs: seq<nat>)

  datatype State = State(
    mutex: Option<Thread>, tasks: seq<Task>, stop: bool,
    workers: seq<WorkerPc>, submitters: map<nat, SubmitterPc>, destructor: DestructorPc, log: History)

  datatype Step =
    | Work(w: nat)              // worker w's next action
    | Spurious(w: nat)          // worker w wakes for no reason
    | Begin(p: nat, task: Task) // thread p calls enqueue
    | Submit(p: nat, w: nat)    // thread p's next action; a notify wakes worker w if any is blocked
    | Destroy                   // the destructor's next action

  predicate Init(s: State) {
    && s.mutex == None && s.tasks == [] && !s.stop && (forall pc <- s.workers :: pc == Locking)
    && s.submitters == map[] && s.destructor == Alive && s.log == History([], [], [])
  }

  predicate AnyBlocked(ws: seq<WorkerPc>) { exists w :: 0 <= w < |ws| && ws[w].Blocked? }

  predicate Enabled(s: State, step: Step) {
    match step
    case Work(w) =>
      w < |s.workers| &&
      (match s.workers[w]
       case Locking => s.mutex == None
       case Blocked | Returned => false
       case _ => true)
    case Spurious(w) => w < |s.workers| && s.workers[w].Blocked?
    case Begin(p, _) => p !in s.submitters
    case Submit(p, w) =>
      p in s.submitters &&
      (match s.submitters[p]
       case Submitting(_) => s.mutex == None
       case Holding(_) => true
       case Notifying => AnyBlocked(s.workers) ==> w < |s.workers| && s.workers[w].Blocked?)
    case Destroy =>
      (match s.destructor
       case Alive => s.mutex == None
       case Joining => false
       case _ => true)
  }

  function WorkerNext(s: State, w: nat): State
    requires w < |s.workers|
  {
    match s.workers[w]
    case Locking => s.(mutex := Some(Worker(w)), workers := s.workers[w := Testing])
    case Testing =>
      if s.stop || s.tasks != [] then s.(workers := s.workers[w := Deciding])
      else s.(mutex := None, workers := s.workers[w := Blocked])
    case Deciding =>
      if s.tasks == [] then s.(mutex := None, workers := s.workers[w := Returned])
      else s.(mutex := None, tasks := s.tasks[1..], workers := s.workers[w := Running(|s.log.dequeued|)],
              log := s.log.(dequeued := s.log.dequeued + [s.tasks[0]], runs := s.log.runs + [0]))
    case Running(t) =>
      s.(workers := s.workers[w := Locking],
         log := if t < |s.log.runs| then s.log.(runs := s.log.runs[t := s.log.runs[t] + 1]) else s.log)
    case _ => s
  }

  /** Once `stop` is set the submission is refused: the exception leaves the queue alone. */
  function SubmitNext(s: State, p: nat, w: nat): State
    requires p in s.submitters
  {
    match s.submitters[p]
    case Submitting(task) => s.(mutex := Some(Submitter(p)), submitters := s.submitters[p := Holding(task)])
    case Holding(task) =>
      if s.stop then s.(mutex := None, submitters := s.submitters - {p})
      else s.(mutex := None, tasks := s.tasks + [task], submitters := s.submitters[p := Notifying],
              log := s.log.(enqueued := s.log.enqueued + [task]))
    case Notifying =>
      s.(submitters := s.submitters - {p},
         workers := if w < |s.workers| && s.workers[w].Blocked? then s.workers[w := Locking] else s.workers)
  }

  function AllWoken(ws: seq<WorkerPc>): seq<WorkerPc> {
    seq(|ws|, w requires 0 <= w < |ws| => if ws[w].Blocked? then Locking else ws[w])
  }

  function DestroyNext(s: State): State {
    match s.destructor
    case Alive => s.(mutex := Some(Destructor), destructor := StopHeld)
    case StopHeld => s.(mutex := None, stop := true, destructor := NotifyingAll)
    case NotifyingAll => s.(workers := AllWoken(s.workers), destructor := Joining)
    case Joining => s
  }

  function Next(s: State, step: Step): State
    requires Enabled(s, step)
  {
    match step
    case Work(w) => WorkerNext(s, w)
    case Spurious(w) => s.(workers := s.workers[w := Locking])
    case Begin(p, task) => s.(submitters := s.submitters[p := Submitting(task)])
    case Submit(p, w) => SubmitNext(s, p, w)
    case Destroy => DestroyNext(s)
  }

  // ---- counting over the workers ----

  predicate Ready(pc: WorkerPc) { pc.Locking? || pc.Testing? || pc.Deciding? }

  function ReadyCount(ws: seq<WorkerPc>): nat {
    if ws == [] then 0 else ReadyCount(ws[1..]) + (if Ready(ws[0]) then 1 else 0)
  }

  /** A worker's distance from returning, once the pool is stopping. */
  function Rank(pc: WorkerPc): nat {
    match pc
    case Returned => 0
    case Deciding => 1
    case Testing => 2
    case Locking => 3
    case Running(_) | Blocked => 4
  }

  function RankSum(ws: seq<WorkerPc>): nat {
    if ws == [] then 0 else RankSum(ws[1..]) + Rank(ws[0])
  }

  lemma {:induction false} UpdateOne(ws: seq<WorkerPc>, w: nat, pc: WorkerPc)
    requires w < |ws|
    ensures ReadyCount(ws[w := pc]) + (if Ready(ws[w]) then 1 else 0) == ReadyCount(ws) + (if Ready(pc) then 1 else 0)
    ensures RankSum(ws[w := pc]) + Rank(ws[w]) == RankSum(ws) + Rank(pc)
  {
    if w > 0 {
      assert ws[w := pc][1..] == ws[1..][w - 1 := pc];
      UpdateOne(ws[1..], w - 1, pc);
    } else {
      assert ws[w := pc][1..] == ws[1..];
    }
  }

  lemma {:induction false} WakeAll(ws: seq<WorkerPc>)
    ensures RankSum(AllWoken(ws)) <= RankSum(ws)
  {
    if ws == [] {
    } else {
      assert AllWoken(ws)[1..] == AllWoken(ws[1..]);
      WakeAll(ws[1..]);
    }
  }

  lemma {:induction false} NoneReady(ws: seq<WorkerPc>)
    requires forall pc <- ws :: !Ready(pc)
    ensures ReadyCount(ws) == 0
  {
    if ws == [] {
    } else {
      NoneReady(ws[1..]);
    }
  }

  // ---- the inductive invariant ----

  predicate WorkerHolds(pc: WorkerPc) { pc.Testing? || pc.Deciding? }

  ghost predicate MutexInv(s: State) {
    && (forall w: nat :: w < |s.workers| ==> (s.mutex == Some(Worker(w)) <==> WorkerHolds(s.workers[w])))
    && (forall w: nat :: s.mutex == Some(Worker(w)) ==> w < |s.workers|)
    && (forall p <- s.submitters :: s.mutex == Some(Submitter(p)) <==> s.submitters[p].Holding?)
    && (forall p :: s.mutex == Some(Submitter(p)) ==> p in s.submitters)
    && (s.mutex == Some(Destructor) <==> s.destructor.StopHeld?)
  }

  /** Every task taken from the queue has run exactly once, unless exactly one worker is running it. */
  ghost predicate RunInv(ws: seq<WorkerPc>, runs: seq<nat>) {
    && (forall w :: 0 <= w < |ws| && ws[w].Running? ==> ws[w].ticket < |runs| && runs[ws[w].ticket] == 0)
    && (forall v, w :: 0 <= v < w < |ws| && ws[v].Running? && ws[w].Running? ==> ws[v].ticket != ws[w].ticket)
    && (forall t :: 0 <= t < |runs| ==>
          runs[t] == 1 || (runs[t] == 0 && exists w :: 0 <= w < |ws| && ws[w] == Running(t)))
  }

  ghost predicate QueueInv(s: State) {
    && s.log.enqueued == s.log.dequeued + s.tasks
    && |s.log.runs| == |s.log.dequeued|
    && RunInv(s.workers, s.log.runs)
  }

  ghost predicate StopInv(s: State) {
    && (s.stop <==> s.destructor.NotifyingAll? || s.destructor.Joining?)
    && (forall pc <- s.workers :: pc.Returned? ==> s.stop && s.tasks == [])
    && (forall pc <- s.workers :: pc.Deciding? ==> s.stop || s.tasks != [])
    && (s.destructor.Joining? ==> !AnyBlocked(s.workers))
  }

  function Pending(ss: map<nat, SubmitterPc>): set<nat> { set p | p in ss && ss[p].Notifying? }

  /** While some worker sleeps, every queued task has a wake-up of its own under way: a submitter about
      to notify, or a worker on its way to the queue. */
  predicate WakeInv(s: State) {
    AnyBlocked(s.workers) ==> |s.tasks| <= |Pending(s.submitters)| + ReadyCount(s.workers)
  }

  ghost predicate Inv(s: State) { MutexInv(s) && QueueInv(s) && StopInv(s) && WakeInv(s) }

  lemma WorkerKeepsMutex(s: State, w: nat)
    requires Inv(s) && Enabled(s, Work(w))
    ensures MutexInv(WorkerNext(s, w))
  {
    hide QueueInv, StopInv, WakeInv;
  }

  lemma WorkerKeepsOrder(s: State, w: nat)
    requires Enabled(s, Work(w)) && s.log.enqueued == s.log.dequeued + s.tasks && |s.log.runs| == |s.log.dequeued|
    ensures var s' := WorkerNext(s, w);
            s'.log.enqueued == s'.log.dequeued + s'.tasks && |s'.log.runs| == |s'.log.dequeued|
  {
    if s.workers[w].Deciding? && s.tasks != [] { assert s.tasks == [s.tasks[0]] + s.tasks[1..]; }
  }

  /** A worker that neither takes nor finishes a task changes nothing here. */
  lemma IdleMove(ws: seq<WorkerPc>, runs: seq<nat>, w: nat, pc: WorkerPc)
    requires RunInv(ws, runs) && w < |ws| && !ws[w].Running? && !pc.Running?
    ensures RunInv(ws[w := pc], runs)
  {
    var ws' := ws[w := pc];
    forall t | 0 <= t < |runs| && runs[t] == 0 ensures exists v :: 0 <= v < |ws'| && ws'[v] == Running(t) {
      var v :| 0 <= v < |ws| && ws[v] == Running(t);
      assert ws'[v] == Running(t);
    }
  }

  lemma TakeTask(ws: seq<WorkerPc>, runs: seq<nat>, w: nat)
    requires RunInv(ws, runs) && w < |ws| && !ws[w].Running?
    ensures RunInv(ws[w := Running(|runs|)], runs + [0])
  {
    var ws', runs' := ws[w := Running(|runs|)], runs + [0];
    forall t | 0 <= t < |runs'| && runs'[t] == 0 ensures exists v :: 0 <= v < |ws'| && ws'[v] == Running(t) {
      if t < |runs| {
        var v :| 0 <= v < |ws| && ws[v] == Running(t);
        assert ws'[v] == Running(t);
      } else {
        assert ws'[w] == Running(t);
      }
    }
  }

  lemma FinishTask(ws: seq<WorkerPc>, runs: seq<nat>, w: nat)
    requires RunInv(ws, runs) && w < |ws| && ws[w].Running?
    ensures ws[w].ticket < |runs| && RunInv(ws[w := Locking], runs[ws[w].ticket := runs[ws[w].ticket] + 1])
  {
    var t0 := ws[w].ticket;
    var ws', runs' := ws[w := Locking], runs[t0 := runs[t0] + 1];
    forall t | 0 <= t < |runs'| && runs'[t] == 0 ensures exists v :: 0 <= v < |ws'| && ws'[v] == Running(t) {
      var v :| 0 <= v < |ws| && ws[v] == Running(t);
      assert ws'[v] == Running(t);
    }
  }

  lemma WorkerKeepsQueue(s: State, w: nat)
    requires Inv(s) && Enabled(s, Work(w))
    ensures QueueInv(WorkerNext(s, w))
  {
    hide MutexInv, StopInv, WakeInv, RunInv;
    WorkerKeepsOrder(s, w);
    var s' := WorkerNext(s, w);
    if s.workers[w].Deciding? && s.tasks != [] {
      TakeTask(s.workers, s.log.runs, w);
    } else if s.workers[w].Running? {
      FinishTask(s.workers, s.log.runs, w);
    } else {
      IdleMove(s.workers, s.log.runs, w, s'.workers[w]);
      assert s'.workers == s.workers[w := s'.workers[w]];
    }
  }

  lemma WorkerKeepsStop(s: State, w: nat)
    requires Inv(s) && Enabled(s, Work(w))
    ensures StopInv(WorkerNext(s, w))
  {
    hide QueueInv, WakeInv;
  }

  lemma WorkerKeepsWake(s: State, w: nat)
    requires Inv(s) && Enabled(s, Work(w))
    ensures WakeInv(WorkerNext(s, w))
  {
    hide QueueInv, MutexInv, ReadyCount, RankSum;
    var s' := WorkerNext(s, w);
    UpdateOne(s.workers, w, s'.workers[w]);
    assert s'.workers == s.workers[w := s'.workers[w]];
    if AnyBlocked(s'.workers) && !s'.workers[w].Blocked? {
      var b :| 0 <= b < |s'.workers| && s'.workers[b].Blocked?;
      assert s.workers[b].Blocked?;
    }
  }

  /** The submitters that are about to notify, after one of them has acted. */
  lemma PendingNext(s: State, p: nat, w: nat)
    requires p in s.submitters
    ensures var pending, pending' := Pending(s.submitters), Pending(SubmitNext(s, p, w).submitters);
            match s.submitters[p]
            case Submitting(_) => pending' == pending
            case Holding(_) => p !in pending && pending' == if s.stop then pending else pending + {p}
            case Notifying => p in pending && pending' == pending - {p}
  {
  }

  lemma SubmitKeepsMutex(s: State, p: nat, w: nat)
    requires Inv(s) && Enabled(s, Submit(p, w))
    ensures MutexInv(SubmitNext(s, p, w))
  {
    hide QueueInv, StopInv, WakeInv;
  }

  lemma SubmitKeepsQueue(s: State, p: nat, w: nat)
    requires Inv(s) && Enabled(s, Submit(p, w))
    ensures QueueInv(SubmitNext(s, p, w))
  {
    hide MutexInv, StopInv, WakeInv, RunInv;
    if w < |s.workers| && s.workers[w].Blocked? { IdleMove(s.workers, s.log.runs, w, Locking); }
  }

  lemma SubmitKeepsStop(s: State, p: nat, w: nat)
    requires Inv(s) && Enabled(s, Submit(p, w))
    ensures StopInv(SubmitNext(s, p, w))
  {
    hide MutexInv, QueueInv, WakeInv;
    var s' := SubmitNext(s, p, w);
    forall pc | pc in s'.workers ensures pc in s.workers || pc == Locking {
      var i :| 0 <= i < |s'.workers| && s'.workers[i] == pc;
      assert s'.workers[i] == s.workers[i] || pc == Locking;
    }
  }

  lemma SubmitKeepsWake(s: State, p: nat, w: nat)
    requires Inv(s) && Enabled(s, Submit(p, w))
    ensures WakeInv(SubmitNext(s, p, w))
  {
    hide MutexInv, QueueInv, StopInv, ReadyCount, RankSum, Pending;
    PendingNext(s, p, w);
    if w < |s.workers| { UpdateOne(s.workers, w, Locking); }
  }

  lemma WakeAllRuns(ws: seq<WorkerPc>, runs: seq<nat>)
    requires RunInv(ws, runs)
    ensures RunInv(AllWoken(ws), runs)
  {
    var ws' := AllWoken(ws);
    forall t | 0 <= t < |runs| && runs[t] == 0 ensures exists v :: 0 <= v < |ws'| && ws'[v] == Running(t) {
      var v :| 0 <= v < |ws| && ws[v] == Running(t);
      assert ws'[v] == Running(t);
    }
  }

  lemma DestroyKeepsInv(s: State)
    requires Inv(s) && Enabled(s, Destroy)
    ensures Inv(DestroyNext(s))
  {
    hide ReadyCount, RunInv;
    WakeAll(s.workers);
    WakeAllRuns(s.workers, s.log.runs);
    var ws := AllWoken(s.workers);
    forall pc | pc in ws ensures pc in s.workers || pc == Locking {
      var i :| 0 <= i < |ws| && ws[i] == pc;
      assert s.workers[i] in s.workers;
    }
  }

  lemma SpuriousKeepsInv(s: State, w: nat)
    requires Inv(s) && Enabled(s, Spurious(w))
    ensures Inv(Next(s, Spurious(w)))
  {
    hide ReadyCount, RunInv;
    UpdateOne(s.workers, w, Locking);
    IdleMove(s.workers, s.log.runs, w, Locking);
    var ws := s.workers[w := Locking];
    forall pc | pc in ws ensures pc in s.workers || pc == Locking {
      var i :| 0 <= i < |ws| && ws[i] == pc;
      assert s.workers[i] in s.workers;
    }
  }

  lemma BeginKeepsInv(s: State, p: nat, task: Task)
    requires Inv(s) && Enabled(s, Begin(p, task))
    ensures Inv(Next(s, Begin(p, task)))
  {
    assert Pending(Next(s, Begin(p, task)).submitters) == Pending(s.submitters);
  }

  lemma NextKeepsInv(s: State, step: Step)
    requires Inv(s) && Enabled(s, step)
    ensures Inv(Next(s, step))
  {
    hide MutexInv, QueueInv, StopInv, WakeInv;
    match step
    case Work(w) => WorkerKeepsMutex(s, w); WorkerKeepsQueue(s, w); WorkerKeepsStop(s, w); WorkerKeepsWake(s, w);
    case Spurious(w) => SpuriousKeepsInv(s, w);
    case Begin(p, task) => BeginKeepsInv(s, p, task);
    case Submit(p, w) =>
      SubmitKeepsMutex(s, p, w); SubmitKeepsQueue(s, p, w); SubmitKeepsStop(s, p, w); SubmitKeepsWake(s, p, w);
    case Destroy => DestroyKeepsInv(s);
  }

  lemma InitInv(s: State)
    requires Init(s)
    ensures Inv(s)
  {
    assert forall w: nat :: w < |s.workers| ==> s.workers[w] in s.workers;
  }

  // ---- runs ----

  ghost predicate Run(s: State, steps: seq<Step>, s': State)
    decreases |steps|
  {
    if steps == [] then s' == s else Enabled(s, steps[0]) && Run(Next(s, steps[0]), steps[1..], s')
  }

  ghost predicate Reachable(s: State) {
    exists s0: State, steps: seq<Step> :: Init(s0) && Run(s0, steps, s)
  }

  lemma {:induction false} RunKeepsInv(s: State, steps: seq<Step>, s': State)
    requires Inv(s) && Run(s, steps, s')
    ensures Inv(s')
    decreases |steps|
  {
    hide Inv, Enabled, Next;
    if steps == [] {
    } else {
      NextKeepsInv(s, steps[0]);
      RunKeepsInv(Next(s, steps[0]), steps[1..], s');
    }
  }

  lemma ReachableInv(s: State)
    requires Reachable(s)
    ensures Inv(s)
  {
    var s0: State, steps: seq<Step> :| Init(s0) && Run(s0, steps, s);
    InitInv(s0);
    RunKeepsInv(s0, steps, s);
  }

  // ---- the calls of enqueue, from the steps alone ----

  /** `inside` is the thread that has the mutex in a call, `verdicts` whether the calls that had it were accepted,
      in the order in which they got it. A call is refused if the destructor has acted twice before, which is to
      lock and to set `stop`. */
  datatype Desk = Desk(calls: Calls<Task>, inside: Option<nat>, verdicts: seq<bool>, destroys: nat)

  const NO_CALLS := Desk(Calls([], map[], []), None, [], 0)

  /** The first action of a call is to take the mutex, the second settles it. */
  function NextDesk(k: Desk, step: Step): Desk {
    match step
    case Begin(p, task) => k.(calls := k.calls.Called(p, task))
    case Submit(p, _) =>
      if p in k.calls.waiting then k.(calls := k.calls.Entered(p), inside := Some(p))
      else if k.inside == Some(p) then k.(inside := None, verdicts := k.verdicts + [k.destroys < 2])
      else k
    case Destroy => k.(destroys := k.destroys + 1)
    case _ => k
  }

  function DeskFrom(k: Desk, steps: seq<Step>): Desk
    decreases |steps|
  {
    if steps == [] then k else DeskFrom(NextDesk(k, steps[0]), steps[1..])
  }

  /** The calls that were accepted. */
  function Accepted(entered: seq<nat>, verdicts: seq<bool>): seq<nat>
    requires |verdicts| <= |entered|
  {
    if verdicts == [] then []
    else
      var n := |verdicts| - 1;
      Accepted(entered, verdicts[..n]) + if verdicts[n] then [entered[n]] else []
  }

  lemma {:induction false} AcceptedSame(entered: seq<nat>, k: nat, verdicts: seq<bool>)
    requires |verdicts| <= |entered|
    ensures Accepted(entered + [k], verdicts) == Accepted(entered, verdicts)
  {
    if verdicts == [] {
    } else {
      AcceptedSame(entered, k, verdicts[..|verdicts| - 1]);
    }
  }

  lemma AcceptedMore(entered: seq<nat>, verdicts: seq<bool>, taken: bool)
    requires |verdicts| < |entered|
    ensures Accepted(entered, verdicts + [taken])
            == Accepted(entered, verdicts) + if taken then [entered[|verdicts|]] else []
  {
    assert (verdicts + [taken])[..|verdicts|] == verdicts;
  }

  /** The waiting threads are those before their first action, the one inside holds the mutex. */
  ghost predicate DeskOk(s: State, k: Desk) {
    && (forall p :: p in k.calls.waiting <==> p in s.submitters && s.submitters[p].Submitting?)
    && (forall p <- k.calls.waiting ::
          k.calls.waiting[p] < |k.calls.args| && s.submitters[p].task == k.calls.args[k.calls.waiting[p]])
    && (forall p :: k.inside == Some(p) <==> p in s.submitters && s.submitters[p].Holding?)
    && (s.stop <==> k.destroys >= 2) && (s.destructor == Alive <==> k.destroys == 0)
    && (s.destructor == StopHeld <==> k.destroys == 1)
  }

  /** The tasks enqueued are those of the accepted calls, in the order in which these got the mutex. */
  ghost predicate TasksOk(s: State, k: Desk) {
    var entered := k.calls.entered;
    && |entered| == |k.verdicts| + (if k.inside.Some? then 1 else 0)
    && ArgsOf(k.calls, Accepted(entered, k.verdicts), s.log.enqueued)
    && (k.inside.Some? && k.inside.value in s.submitters && s.submitters[k.inside.value].Holding? ==>
          entered[|entered| - 1] < |k.calls.args|
          && s.submitters[k.inside.value].task == k.calls.args[entered[|entered| - 1]])
  }

  ghost predicate DeskInv(s: State, k: Desk) { EachOnce(k.calls) && DeskOk(s, k) && TasksOk(s, k) }

  /** What a step leaves alone here. */
  lemma OtherSteps(s: State, step: Step)
    requires Enabled(s, step)
    ensures !step.Begin? && !step.Submit? ==> Next(s, step).submitters == s.submitters
    ensures !step.Submit? ==> Next(s, step).log.enqueued == s.log.enqueued
    ensures !step.Destroy? ==> Next(s, step).stop == s.stop && Next(s, step).destructor == s.destructor
  {
  }

  lemma DeskStep(s: State, k: Desk, step: Step)
    requires Inv(s) && Enabled(s, step) && DeskOk(s, k)
    ensures DeskOk(Next(s, step), NextDesk(k, step))
  {
    hide QueueInv, WakeInv, RunInv;
    OtherSteps(s, step);
    if step.Work? || step.Spurious? { hide Next; }
  }

  /** A call gets the mutex. */
  lemma TasksEnter(s: State, k: Desk, p: nat, w: nat)
    requires Inv(s) && Enabled(s, Submit(p, w)) && DeskOk(s, k) && TasksOk(s, k) && p in k.calls.waiting
    ensures TasksOk(Next(s, Submit(p, w)), NextDesk(k, Submit(p, w)))
  {
    AcceptedSame(k.calls.entered, k.calls.waiting[p], k.verdicts);
    hide QueueInv, WakeInv, StopInv, Accepted;
    assert k.inside.None?;
  }

  /** A call is accepted or refused. */
  lemma TasksSettle(s: State, k: Desk, p: nat, w: nat)
    requires Enabled(s, Submit(p, w)) && DeskOk(s, k) && TasksOk(s, k) && k.inside == Some(p)
    requires p !in k.calls.waiting
    ensures TasksOk(Next(s, Submit(p, w)), NextDesk(k, Submit(p, w)))
  {
    AcceptedMore(k.calls.entered, k.verdicts, k.destroys < 2);
    hide Accepted;
  }

  /** Any other step leaves the calls and the tasks as they are. */
  lemma TasksStay(s: State, k: Desk, step: Step)
    requires Enabled(s, step) && DeskOk(s, k) && TasksOk(s, k)
    requires step.Submit? ==> step.p !in k.calls.waiting && k.inside != Some(step.p)
    ensures TasksOk(Next(s, step), NextDesk(k, step))
  {
    hide Accepted;
    OtherSteps(s, step);
    if !step.Submit? && !step.Begin? { hide Next; }
  }

  lemma TasksStep(s: State, k: Desk, step: Step)
    requires Inv(s) && Enabled(s, step) && DeskOk(s, k) && TasksOk(s, k)
    ensures TasksOk(Next(s, step), NextDesk(k, step))
  {
    hide Inv, TasksOk, Next, NextDesk, Enabled;
    if step.Submit? && step.p in k.calls.waiting {
      TasksEnter(s, k, step.p, step.w);
    } else if step.Submit? && k.inside == Some(step.p) {
      TasksSettle(s, k, step.p, step.w);
    } else {
      TasksStay(s, k, step);
    }
  }

  lemma DeskInvStep(s: State, k: Desk, step: Step)
    requires Inv(s) && Enabled(s, step) && DeskInv(s, k)
    ensures DeskInv(Next(s, step), NextDesk(k, step))
  {
    DeskStep(s, k, step);
    TasksStep(s, k, step);
    hide Inv, Next, TasksOk, EachOnce;
    if step.Begin? {
      CalledOnce(k.calls, step.p, step.task);
    } else if step.Submit? && step.p in k.calls.waiting {
      EnteredOnce(k.calls, step.p);
    }
  }

  lemma {:induction false} RunKeepsDesk(s: State, k: Desk, steps: seq<Step>, s': State)
    requires Inv(s) && DeskInv(s, k) && Run(s, steps, s')
    ensures DeskInv(s', DeskFrom(k, steps))
    decreases |steps|
  {
    hide Inv, Enabled, Next, NextDesk, DeskInv;
    if steps == [] {
    } else {
      NextKeepsInv(s, steps[0]);
      DeskInvStep(s, k, steps[0]);
      RunKeepsDesk(Next(s, steps[0]), NextDesk(k, steps[0]), steps[1..], s');
    }
  }

  /** The tasks taken and queued are those of the calls that got the mutex before `stop` was set, in the order in
      which they got it; every call waits for the mutex, has it, was accepted or was refused. */
  lemma EveryCallOnce(s0: State, steps: seq<Step>, s: State)
    requires Init(s0) && Run(s0, steps, s)
    ensures var k := DeskFrom(NO_CALLS, steps);
            && EachOnce(k.calls) && DeskOk(s, k)
            && |k.calls.entered| == |k.verdicts| + (if k.inside.Some? then 1 else 0)
            && ArgsOf(k.calls, Accepted(k.calls.entered, k.verdicts), s.log.dequeued + s.tasks)
  {
    InitInv(s0);
    RunKeepsInv(s0, steps, s);
    assert DeskInv(s0, NO_CALLS);
    hide Run, DeskFrom, Accepted;
    RunKeepsDesk(s0, NO_CALLS, steps, s);
  }

  // ---- the theorems ----

  /** Tasks leave the queue in the order they entered it, and every task that left has been executed
      exactly once, unless it is being executed right now, for the first time and by one worker only. */
  lemma FifoExactlyOnce(s: State)
    requires Reachable(s)
    ensures s.log.enqueued == s.log.dequeued + s.tasks
    ensures |s.log.runs| == |s.log.dequeued| && RunInv(s.workers, s.log.runs)
  {
    ReachableInv(s);
  }

  /** The pool conserves work: tasks never wait for want of a wake-up while a worker sleeps. */
  lemma WorkConserving(s: State)
    requires Reachable(s) && AnyBlocked(s.workers)
    ensures |s.tasks| <= |Pending(s.submitters)| + ReadyCount(s.workers)
  {
    ReachableInv(s);
  }

  /** In particular no reachable state has a task queued, no notify pending and every worker asleep. */
  lemma NoLostWakeup(s: State)
    requires Reachable(s) && s.workers != [] && s.tasks != []
    ensures (exists pc <- s.workers :: !pc.Blocked?) || exists p <- s.submitters :: s.submitters[p].Notifying?
  {
    ReachableInv(s);
    if forall pc <- s.workers :: pc.Blocked? {
      assert s.workers[0] in s.workers;
      assert s.workers[0].Blocked?;
      NoneReady(s.workers);
      assert |Pending(s.submitters)| > 0;
      var p :| p in Pending(s.submitters);
    }
  }

  /** A call of `enqueue` takes the mutex, settles the task and, if that was accepted, notifies and returns; nobody
      else moves it. A notify leaves no more workers asleep than before, and one fewer if there was any. */
  lemma EnqueueCompletes(s: State, p: nat, step: Step)
    requires Enabled(s, step) && p in s.submitters
    ensures var s', pc := Next(s, step), s.submitters[p];
            if step.Submit? && step.p == p then
              match pc
              case Submitting(task) => p in s'.submitters && s'.submitters[p] == Holding(task) && s'.tasks == s.tasks
              case Holding(task) =>
                && (s.stop ==> p !in s'.submitters && s'.tasks == s.tasks)
                && (!s.stop ==> p in s'.submitters && s'.submitters[p].Notifying? && s'.tasks == s.tasks + [task])
              case Notifying =>
                && p !in s'.submitters && s'.tasks == s.tasks
                && (AnyBlocked(s.workers) ==> s.workers[step.w].Blocked? && s'.workers == s.workers[step.w := Locking])
            else p in s'.submitters && s'.submitters[p] == pc
  {
    OtherSteps(s, step);
  }

  /** The destructor waits only for the mutex; it sets `stop` before it wakes the workers, and wakes them all. */
  lemma DestroyProceeds(s: State)
    requires Reachable(s) && s.destructor != Joining
    ensures Enabled(s, Destroy) <==> (s.destructor == Alive ==> s.mutex == None)
    ensures Enabled(s, Destroy) ==>
              var s' := Next(s, Destroy);
              match s.destructor
              case Alive => s'.destructor.StopHeld?
              case StopHeld => s'.stop && s'.mutex == None && s'.destructor.NotifyingAll?
              case _ => s'.stop && s'.destructor.Joining? && forall pc <- s'.workers :: !pc.Blocked?
  {
    ReachableInv(s);
    if s.destructor.NotifyingAll? {
      var ws := AllWoken(s.workers);
      forall pc | pc in ws ensures !pc.Blocked? {
        var w :| 0 <= w < |ws| && ws[w] == pc;
      }
    }
  }

  /** When the destructor's joins are over nothing is left behind: the task of every accepted call has been
      executed, once, and they were taken in the order in which the calls got the mutex. */
  lemma ShutdownDrains(s0: State, steps: seq<Step>, s: State)
    requires Init(s0) && Run(s0, steps, s) && s.stop && s.workers != [] && forall pc <- s.workers :: pc.Returned?
    ensures s.tasks == [] && |s.log.runs| == |s.log.dequeued| && forall runs <- s.log.runs :: runs == 1
    ensures var k := DeskFrom(NO_CALLS, steps);
            && EachOnce(k.calls) && |k.verdicts| <= |k.calls.entered|
            && ArgsOf(k.calls, Accepted(k.calls.entered, k.verdicts), s.log.dequeued)
  {
    ReachableInv(s);
    hide Run, DeskFrom, Accepted;
    EveryCallOnce(s0, steps, s);
    assert s.workers[0] in s.workers;
    assert s.log.dequeued + s.tasks == s.log.dequeued;
    assert forall w :: 0 <= w < |s.workers| ==> s.workers[w] in s.workers;
  }

  /** An upper bound on the workers' remaining actions once the pool is stopping. */
  function WorkLeft(s: State): nat { 4 * |s.tasks| + RankSum(s.workers) }

  predicate WorkerActs(step: Step) { step.Work? || step.Spurious? }

  lemma WorkerCountsDown(s: State, w: nat)
    requires Enabled(s, Work(w)) && s.stop
    ensures WorkerNext(s, w).stop && WorkLeft(WorkerNext(s, w)) < WorkLeft(s)
  {
    hide ReadyCount, RankSum;
    var s' := WorkerNext(s, w);
    UpdateOne(s.workers, w, s'.workers[w]);
    assert s'.workers == s.workers[w := s'.workers[w]];
  }

  /** Once `stop` is set no action adds work, and each action of a worker uses some up. */
  lemma ShutdownCountsDown(s: State, step: Step)
    requires Reachable(s) && s.stop && Enabled(s, step)
    ensures Next(s, step).stop
    ensures WorkLeft(Next(s, step)) <= WorkLeft(s)
    ensures WorkerActs(step) ==> WorkLeft(Next(s, step)) < WorkLeft(s)
  {
    ReachableInv(s);
    StepCountsDown(s, step);
  }

  lemma StepCountsDown(s: State, step: Step)
    requires Inv(s) && s.stop && Enabled(s, step)
    ensures Next(s, step).stop
    ensures WorkLeft(Next(s, step)) <= WorkLeft(s)
    ensures WorkerActs(step) ==> WorkLeft(Next(s, step)) < WorkLeft(s)
  {
    hide ReadyCount, RankSum, MutexInv, QueueInv, WakeInv, WorkerNext;
    match step
    case Work(w) => WorkerCountsDown(s, w);
    case Spurious(w) => UpdateOne(s.workers, w, Locking);
    case Submit(p, w) => if w < |s.workers| { UpdateOne(s.workers, w, Locking); }
    case Destroy => WakeAll(s.workers);
    case Begin(_, _) =>
  }

  function WorkerActions(steps: seq<Step>): nat {
    if steps == [] then 0 else (if WorkerActs(steps[0]) then 1 else 0) + WorkerActions(steps[1..])
  }

  /** Along every run of a stopping pool the workers' actions use up the work that was left. */
  lemma {:induction false} ShutdownRunCountsDown(s: State, steps: seq<Step>, s': State)
    requires Inv(s) && s.stop && Run(s, steps, s')
    ensures s'.stop && WorkLeft(s') + WorkerActions(steps) <= WorkLeft(s)
    decreases |steps|
  {
    if steps == [] {
    } else {
      hide Inv, Enabled, Next, WorkLeft;
      NextKeepsInv(s, steps[0]);
      StepCountsDown(s, steps[0]);
      ShutdownRunCountsDown(Next(s, steps[0]), steps[1..], s');
    }
  }

  lemma {:induction false} NoRankLeft(ws: seq<WorkerPc>)
    requires RankSum(ws) == 0
    ensures forall pc <- ws :: pc.Returned?
  {
    if ws == [] {
    } else {
      NoRankLeft(ws[1..]);
      assert forall pc <- ws :: pc == ws[0] || pc in ws[1..];
    }
  }

  /** So on every run in which the workers act often enough they have all returned in the end and the queue is
      empty, and they cannot act more often than that. */
  lemma ShutdownCompletes(s: State, steps: seq<Step>, s': State)
    requires Reachable(s) && s.stop && Run(s, steps, s')
    ensures WorkerActions(steps) <= WorkLeft(s)
    ensures WorkerActions(steps) >= WorkLeft(s) ==> s'.tasks == [] && forall pc <- s'.workers :: pc.Returned?
  {
    ReachableInv(s);
    hide Run, WorkerActions, RankSum;
    ShutdownRunCountsDown(s, steps, s');
    if WorkLeft(s') == 0 { NoRankLeft(s'.workers); }
  }

  /** After `notify_all` and until every worker has returned, some worker can act, or the thread that
      holds the mutex can. */
  lemma ShutdownNeverStuck(s: State)
    requires Reachable(s) && s.destructor.Joining? && exists pc <- s.workers :: !pc.Returned?
    ensures (exists w :: Enabled(s, Work(w)))
            || exists p <- s.submitters :: s.submitters[p].Holding? && forall w :: Enabled(s, Submit(p, w))
  {
    ReachableInv(s);
    var w :| 0 <= w < |s.workers| && !s.workers[w].Returned?;
    match s.mutex
    case None => assert Enabled(s, Work(w));
    case Some(Worker(v)) => assert Enabled(s, Work(v));
    case Some(Submitter(p)) => assert forall v :: Enabled(s, Submit(p, v));
    case Some(Destructor) =>
  }
}
