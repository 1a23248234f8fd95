/** The event emitter as a protocol: any number of producers in `put`, one consumer in `_run`, one
    thread in `stop`. They share a lock (`cCriticalSection`) around the queue and a sticky flag
    (`cEvent`: a mutex, a condition variable and `m_ShouldContinue`). One step is one atomic action
    of one thread. */
module Emitter {
  import opened Calls
  import opened Options

  /** An event's type name and an index standing for its payload. */
  datatype Event = Event(kind: string, data: nat)

  datatype Thread = Consumer | Stopper | Producer(id: nat)

  /** Where the consumer stands in `_run` and, from `WaitLock` to `Asleep`, in `cEvent::Wait`. */
  datatype ConsumerPc =
    | Locking                // constructing the guard
    | Checking               // evaluating the while condition, lock held
    | Unlocking              // cCSUnlock's constructor, lock held
    | WaitLock               // about to take the event's mutex
    | WaitTest               // mutex held, testing the flag
    | Asleep                 // on the condition variable
    | Relocking              // cCSUnlock's destructor
    | Testing                // the second read of _active, lock held
    | Popping                // lock held
    | Releasing(event: Event)    // Lock.Unlock(), lock held
    | Posting(event: Event)      // InvokeToQueue
    | Returned

  datatype ProducerPc = PutLock(event: Event) | PutPush(event: Event) | SetLock | SetFlag | SetNotify | PutUnlock

  datatype StopperPc = Running | StopSetLock | StopSetFlag | StopNotify | Joining | Stopped

  /** `cCriticalSection`. */
  datatype Section = Section(owner: Option<Thread>, recursion: nat) {
    function Lock(t: Thread): Section { Section(Some(t), recursion + 1) }
    function Unlock(): Section { Section(None, if recursion > 0 then recursion - 1 else 0) }
  }

  /** `cEvent`: who holds its mutex, and `m_ShouldContinue`. */
  datatype Signal = Signal(mutex: Option<Thread>, flag: bool)

  /** What has been put and posted so far, for the statements below. */
  datatype History = History(puts: seq<Event>, posted: seq<Event>, postedAtStop: nat)

  /** `guard` is the `m_IsLocked` of the consumer's cCSLock. */
  datatype State = State(
    cs: Section, guard: bool, signal: Signal, active: bool, queue: seq<Event>,
    consumer: ConsumerPc, stopper: StopperPc, producers: map<nat, ProducerPc>, log: History)

  datatype Step =
    | Consume                // the consumer's next action
    | Spurious               // the condition variable wakes the consumer for no reason
    | Stop                   // the stopper's next action
    | Begin(p: nat, event: Event) // producer p calls put
    | Put(p: nat)            // producer p's next action

  predicate Init(s: State) {
    && s.cs == Section(None, 0) && !s.guard && s.signal == Signal(None, false) && s.active && s.queue == []
    && s.consumer == Locking && s.stopper == Running && s.producers == map[]
    && s.log.puts == s.log.posted == []
  }

  predicate Enabled(s: State, step: Step) {
    match step
    case Consume =>
      (match s.consumer
       case Locking | Relocking => s.cs.owner == None
       case WaitLock => s.signal.mutex == None
       case Asleep | Returned => false
       case _ => true)
    case Spurious => s.consumer.Asleep?
    case Stop =>
      (match s.stopper
       case StopSetLock => s.signal.mutex == None
       case Joining => s.consumer.Returned?
       case Stopped => false
       case _ => true)
    case Begin(p, event) => p !in s.producers
    case Put(p) =>
      p in s.producers &&
      (match s.producers[p]
       case PutLock(_) => s.cs.owner == None
       case SetLock => s.signal.mutex == None
       case _ => true)
  }

  /** `notify_one`: only the consumer ever waits. */
  function Notified(pc: ConsumerPc): ConsumerPc { if pc.Asleep? then WaitLock else pc }

  function ConsumerNext(s: State): State
    requires s.consumer.Popping? ==> s.queue != []
  {
    match s.consumer
    case Locking => s.(cs := s.cs.Lock(Consumer), guard := true, consumer := Checking)
    case Checking => s.(consumer := if s.active && s.queue == [] then Unlocking else Testing)
    case Unlocking => s.(cs := s.cs.Unlock(), guard := false, consumer := WaitLock)
    case WaitLock => s.(signal := Signal(Some(Consumer), s.signal.flag), consumer := WaitTest)
    case WaitTest => s.(signal := Signal(None, false), consumer := if s.signal.flag then Relocking else Asleep)
    case Relocking => s.(cs := s.cs.Lock(Consumer), guard := true, consumer := Checking)
    case Testing => if s.active then s.(consumer := Popping)
                    else s.(cs := s.cs.Unlock(), guard := false, consumer := Returned)
    case Popping => s.(queue := s.queue[1..], consumer := Releasing(s.queue[0]))
    case Releasing(event) => s.(cs := s.cs.Unlock(), guard := false, consumer := Posting(event))
    case Posting(event) =>
      // the guard's destructor ends the iteration: it unlocks only what is still locked
      s.(cs := if s.guard then s.cs.Unlock() else s.cs, guard := false,
         log := s.log.(posted := s.log.posted + [event]), consumer := Locking)
    case _ => s
  }

  function StopNext(s: State): State {
    match s.stopper
    case Running => s.(active := false, log := s.log.(postedAtStop := |s.log.posted|), stopper := StopSetLock)
    case StopSetLock => s.(signal := Signal(Some(Stopper), s.signal.flag), stopper := StopSetFlag)
    case StopSetFlag => s.(signal := Signal(None, true), stopper := StopNotify)
    case StopNotify => s.(consumer := Notified(s.consumer), stopper := Joining)
    case Joining => s.(stopper := Stopped)
    case Stopped => s
  }

  function PutNext(s: State, p: nat): State
    requires p in s.producers
  {
    match s.producers[p]
    case PutLock(event) =>
      s.(cs := s.cs.Lock(Producer(p)), producers := s.producers[p := PutPush(event)])
    case PutPush(event) =>
      s.(queue := s.queue + [event], log := s.log.(puts := s.log.puts + [event]),
         producers := s.producers[p := SetLock])
    case SetLock => s.(signal := Signal(Some(Producer(p)), s.signal.flag), producers := s.producers[p := SetFlag])
    case SetFlag => s.(signal := Signal(None, true), producers := s.producers[p := SetNotify])
    case SetNotify => s.(consumer := Notified(s.consumer), producers := s.producers[p := PutUnlock])
    case PutUnlock => s.(cs := s.cs.Unlock(), producers := s.producers - {p})
  }

  /** The queue is never popped empty: `QueueInv` below discharges the precondition, which is the
      code's own ASSERT. */
  function Next(s: State, step: Step): State
    requires Enabled(s, step)
    requires s.consumer.Popping? ==> s.queue != []
  {
    match step
    case Consume => ConsumerNext(s)
    case Spurious => s.(consumer := WaitLock)
    case Stop => StopNext(s)
    case Begin(p, event) => s.(producers := s.producers[p := PutLock(event)])
    case Put(p) => PutNext(s, p)
  }

  // ---- the inductive invariant ----

  predicate ConsumerLocked(pc: ConsumerPc) {
    pc.Checking? || pc.Unlocking? || pc.Testing? || pc.Popping? || pc.Releasing?
  }

  predicate ProducerLocked(pc: ProducerPc) { !pc.PutLock? }

  /** The consumer has decided to wait and has not yet taken the flag. */
  predicate Waiting(pc: ConsumerPc) { pc.Unlocking? || pc.WaitLock? || pc.WaitTest? || pc.Asleep? }

  predicate MayStillPost(pc: ConsumerPc) { pc.Popping? || pc.Releasing? || pc.Posting? }

  ghost predicate LockInv(s: State) {
    && (s.cs.owner == Some(Consumer) <==> ConsumerLocked(s.consumer))
    && (forall p <- s.producers :: s.cs.owner == Some(Producer(p)) <==> ProducerLocked(s.producers[p]))
    && s.cs.owner != Some(Stopper)
    && (forall p :: s.cs.owner == Some(Producer(p)) ==> p in s.producers)
    && s.cs.recursion == (if s.cs.owner == None then 0 else 1)
    && s.guard == ConsumerLocked(s.consumer)
  }

  ghost predicate MutexInv(s: State) {
    && (s.signal.mutex == Some(Consumer) <==> s.consumer.WaitTest?)
    && (s.signal.mutex == Some(Stopper) <==> s.stopper.StopSetFlag?)
    && (forall p <- s.producers :: s.signal.mutex == Some(Producer(p)) <==> s.producers[p].SetFlag?)
    && (forall p :: s.signal.mutex == Some(Producer(p)) ==> p in s.producers)
  }

  function InFlight(pc: ConsumerPc): seq<Event> {
    match pc
    case Releasing(event) => [event]
    case Posting(event) => [event]
    case _ => []
  }

  ghost predicate QueueInv(s: State) {
    && s.log.puts == s.log.posted + InFlight(s.consumer) + s.queue
    && (s.consumer.Testing? && s.active ==> s.queue != [])
    && (s.consumer.Popping? ==> s.queue != [])
  }

  /** What the producer holding the lock is about to do, if a producer holds it. */
  function Holder(s: State): Option<ProducerPc> {
    if s.cs.owner.Some? && s.cs.owner.value.Producer? && s.cs.owner.value.id in s.producers
    then Some(s.producers[s.cs.owner.value.id]) else None
  }

  /** A producer has pushed and not yet raised the flag; it still holds the lock. */
  predicate PutBeforeSet(s: State) {
    Holder(s).Some? && (Holder(s).value.SetLock? || Holder(s).value.SetFlag?)
  }

  predicate NotifyPending(s: State) {
    s.stopper.StopNotify? || (Holder(s).Some? && Holder(s).value.SetNotify?)
  }

  ghost predicate WakeInv(s: State) {
    && (Waiting(s.consumer) && s.queue != [] ==> s.signal.flag || PutBeforeSet(s))
    && (Waiting(s.consumer) && !s.active ==> s.signal.flag || s.stopper.StopSetLock? || s.stopper.StopSetFlag?)
    && (s.consumer.Asleep? && s.signal.flag ==> NotifyPending(s))
    && (s.consumer.Unlocking? ==> s.queue == [])
  }

  ghost predicate StopInv(s: State) {
    && (s.active <==> s.stopper.Running?)
    && (!s.active ==> |s.log.posted| + (if MayStillPost(s.consumer) then 1 else 0) <= s.log.postedAtStop + 1)
    && (s.consumer.Returned? ==> !s.active)
  }

  ghost predicate Inv(s: State) {
    LockInv(s) && MutexInv(s) && QueueInv(s) && WakeInv(s) && StopInv(s)
  }

  lemma InitInv(s: State)
    requires Init(s)
    ensures Inv(s)
  {
  }

  /** What the consumer's actions leave alone. */
  lemma ConsumerFrame(s: State)
    requires s.consumer.Popping? ==> s.queue != []
    ensures var s' := ConsumerNext(s);
            s'.producers == s.producers && s'.stopper == s.stopper && s'.active == s.active && s'.log.puts == s.log.puts
            && s'.log.postedAtStop == s.log.postedAtStop
  {
  }

  /** The events that have left or are in the queue, as the consumer moves them along. */
  lemma ConsumerMoves(s: State)
    requires s.consumer.Popping? ==> s.queue != []
    ensures var s' := ConsumerNext(s);
            s'.log.posted + InFlight(s'.consumer) + s'.queue == s.log.posted + InFlight(s.consumer) + s.queue
  {
    var s' := ConsumerNext(s);
    if s.consumer.Popping? {
      assert s.log.posted + [] + s.queue == s.log.posted + [s.queue[0]] + s.queue[1..];
    } else if s.consumer.Posting? {
      assert s'.log.posted + [] + s'.queue == s.log.posted + [s.consumer.event] + s.queue;
    } else {
      assert s'.queue == s.queue && s'.log == s.log && InFlight(s'.consumer) == InFlight(s.consumer);
    }
  }

  lemma ConsumerKeepsLock(s: State)
    requires Inv(s) && Enabled(s, Consume)
    ensures LockInv(ConsumerNext(s))
  {
    hide MutexInv, WakeInv, StopInv;
    ConsumerFrame(s);
  }

  lemma ConsumerKeepsMutex(s: State)
    requires Inv(s) && Enabled(s, Consume)
    ensures MutexInv(ConsumerNext(s))
  {
    hide LockInv, WakeInv, StopInv;
    ConsumerFrame(s);
  }

  lemma ConsumerKeepsQueue(s: State)
    requires Inv(s) && Enabled(s, Consume)
    ensures QueueInv(ConsumerNext(s))
  {
    hide LockInv, MutexInv, StopInv, WakeInv, InFlight;
    ConsumerFrame(s);
    ConsumerMoves(s);
  }

  lemma ConsumerKeepsStop(s: State)
    requires Inv(s) && Enabled(s, Consume)
    ensures StopInv(ConsumerNext(s))
  {
    hide MutexInv, LockInv, WakeInv;
    ConsumerFrame(s);
  }

  lemma ConsumerKeepsWake(s: State)
    requires Inv(s) && Enabled(s, Consume)
    ensures WakeInv(ConsumerNext(s))
  {
    hide MutexInv;
  }

  lemma StopKeepsInv(s: State)
    requires Inv(s) && Enabled(s, Stop)
    ensures Inv(StopNext(s))
  {
  }

  lemma PutKeepsLock(s: State, p: nat)
    requires Inv(s) && Enabled(s, Put(p))
    ensures LockInv(PutNext(s, p))
  {
    hide MutexInv, QueueInv, WakeInv, StopInv;
  }

  lemma PutKeepsMutex(s: State, p: nat)
    requires Inv(s) && Enabled(s, Put(p))
    ensures MutexInv(PutNext(s, p))
  {
    hide QueueInv, WakeInv, StopInv;
  }

  lemma PutKeepsQueue(s: State, p: nat)
    requires Inv(s) && Enabled(s, Put(p))
    ensures QueueInv(PutNext(s, p))
  {
    hide MutexInv, StopInv;
  }

  lemma PutKeepsStop(s: State, p: nat)
    requires Inv(s) && Enabled(s, Put(p))
    ensures StopInv(PutNext(s, p))
  {
    hide MutexInv, QueueInv, WakeInv;
  }

  lemma PutKeepsWake(s: State, p: nat)
    requires Inv(s) && Enabled(s, Put(p))
    ensures WakeInv(PutNext(s, p))
  {
    hide MutexInv, QueueInv, StopInv;
  }

  lemma NextKeepsInv(s: State, step: Step)
    requires Inv(s) && Enabled(s, step)
    ensures Inv(Next(s, step))
  {
    match step
    case Consume =>
      ConsumerKeepsLock(s); ConsumerKeepsMutex(s); ConsumerKeepsQueue(s); ConsumerKeepsStop(s); ConsumerKeepsWake(s);
    case Stop => StopKeepsInv(s);
    case Put(p) =>
      PutKeepsLock(s, p); PutKeepsMutex(s, p); PutKeepsQueue(s, p); PutKeepsStop(s, p); PutKeepsWake(s, p);
    case Spurious =>
    case Begin(p, event) =>
  }

  // ---- runs ----

  /** Every interleaving of the threads' actions. The condition on popping excludes no step: by
      `FifoExactlyOnce` it holds in every reachable state. */
  ghost predicate Run(s: State, steps: seq<Step>, s': State)
    decreases |steps|
  {
    if steps == [] then s' == s
    else && Enabled(s, steps[0]) && (s.consumer.Popping? ==> s.queue != [])
         && Run(Next(s, steps[0]), steps[1..], s')
  }

  ghost predicate Reachable(s: State) {
    exists s0: State, steps: seq<Step> :: Init(s0) && Run(s0, steps, s)
  }

  lemma {:induction false} RunKeepsInv(s: State, steps: seq<Step>, s': State)
    requires Inv(s) && Run(s, steps, s')
    ensures Inv(s')
    decreases |steps|
  {
    hide Inv, Enabled, Next;
    if steps == [] {
    } else {
      NextKeepsInv(s, steps[0]);
      RunKeepsInv(Next(s, steps[0]), steps[1..], s');
    }
  }

  lemma ReachableInv(s: State)
    requires Reachable(s)
    ensures Inv(s)
  {
    var s0: State, steps: seq<Step> :| Init(s0) && Run(s0, steps, s);
    InitInv(s0);
    RunKeepsInv(s0, steps, s);
  }

  // ---- the calls of put, from the steps alone ----

  const NO_CALLS: Calls<Event> := Calls([], map[], [])

  /** The first action of a call is to take the lock. */
  function NextCalls(c: Calls<Event>, step: Step): Calls<Event> {
    if step.Begin? then c.Called(step.p, step.event)
    else if step.Put? && step.p in c.waiting then c.Entered(step.p)
    else c
  }

  function CallsFrom(c: Calls<Event>, steps: seq<Step>): Calls<Event>
    decreases |steps|
  {
    if steps == [] then c else CallsFrom(NextCalls(c, steps[0]), steps[1..])
  }

  /** The event of a producer that has the lock and has not pushed yet. */
  function Pushing(s: State): seq<Event> {
    match Holder(s)
    case Some(PutPush(event)) => [event]
    case _ => []
  }

  ghost predicate WaitersOk(s: State, c: Calls<Event>) {
    && (forall p :: p in c.waiting <==> p in s.producers && s.producers[p].PutLock?)
    && (forall p <- c.waiting :: c.waiting[p] < |c.args| && s.producers[p].event == c.args[c.waiting[p]])
  }

  ghost predicate CallsInv(s: State, c: Calls<Event>) {
    EachOnce(c) && WaitersOk(s, c) && ArgsOf(c, c.entered, s.log.puts + Pushing(s))
  }

  lemma WaitersStep(s: State, c: Calls<Event>, step: Step)
    requires Enabled(s, step) && (s.consumer.Popping? ==> s.queue != []) && WaitersOk(s, c)
    ensures WaitersOk(Next(s, step), NextCalls(c, step))
  {
    if step.Consume? { ConsumerFrame(s); }
  }

  /** What a step adds to the puts, the push under way included: the event of a call that takes the lock. */
  lemma EnteringStep(s: State, step: Step)
    requires Inv(s) && Enabled(s, step) && (s.consumer.Popping? ==> s.queue != [])
    ensures var s' := Next(s, step);
            s'.log.puts + Pushing(s') == s.log.puts + Pushing(s)
              + if step.Put? && s.producers[step.p].PutLock? then [s.producers[step.p].event] else []
  {
    hide MutexInv, QueueInv, WakeInv, StopInv;
    var s' := Next(s, step);
    match step
    case Consume =>
      ConsumerFrame(s);
      assert Pushing(s') == Pushing(s) by { ConsumerKeepsLock(s); }
    case Put(p) => PutKeepsLock(s, p);
    case Spurious =>
    case Stop =>
    case Begin(p, event) =>
  }

  lemma CallsStep(s: State, c: Calls<Event>, step: Step)
    requires Inv(s) && Enabled(s, step) && (s.consumer.Popping? ==> s.queue != []) && CallsInv(s, c)
    ensures CallsInv(Next(s, step), NextCalls(c, step))
  {
    hide Inv, Next, Pushing, EachOnce;
    if step.Begin? {
      CalledOnce(c, step.p, step.event);
    } else if step.Put? && step.p in c.waiting {
      EnteredOnce(c, step.p);
    }
    WaitersStep(s, c, step);
    EnteringStep(s, step);
    assert step.Put? && step.p in c.waiting ==> c.waiting[step.p] < |c.args|;
  }

  lemma {:induction false} RunKeepsCalls(s: State, c: Calls<Event>, steps: seq<Step>, s': State)
    requires Inv(s) && CallsInv(s, c) && Run(s, steps, s')
    ensures CallsInv(s', CallsFrom(c, steps))
    decreases |steps|
  {
    hide Inv, Enabled, Next, NextCalls, CallsInv;
    if steps == [] {
    } else {
      NextKeepsInv(s, steps[0]);
      CallsStep(s, c, steps[0]);
      RunKeepsCalls(Next(s, steps[0]), NextCalls(c, steps[0]), steps[1..], s');
    }
  }

  /** Nothing is lost or made up on the way from the calls: what has been posted, what the consumer carries, what is
      queued and what is about to be pushed are the events of the calls that got the lock, in that order, and
      every other call still waits for it. */
  lemma EveryPutOnce(s0: State, steps: seq<Step>, s: State)
    requires Init(s0) && Run(s0, steps, s)
    ensures var c := CallsFrom(NO_CALLS, steps);
            && EachOnce(c) && ArgsOf(c, c.entered, s.log.posted + InFlight(s.consumer) + s.queue + Pushing(s))
            && forall p :: p in c.waiting <==> p in s.producers && s.producers[p].PutLock?
  {
    InitInv(s0);
    RunKeepsInv(s0, steps, s);
    assert CallsInv(s0, NO_CALLS);
    hide Run, CallsFrom;
    RunKeepsCalls(s0, NO_CALLS, steps, s);
  }

  // ---- the theorems ----

  /** Exactly once and in order: what has been posted, what the consumer is carrying and what is still
      queued are together the puts. The queue is never popped empty. */
  lemma FifoExactlyOnce(s: State)
    requires Reachable(s)
    ensures s.log.puts == s.log.posted + InFlight(s.consumer) + s.queue
    ensures s.consumer.Popping? ==> s.queue != []
  {
    ReachableInv(s);
  }

  /** The guards' assertions hold: a thread locks the section only when it does not hold it, unlocks it
      only when it does, and the iteration's destructor finds nothing left to unlock. */
  lemma GuardsBalanced(s: State)
    requires Reachable(s)
    ensures s.cs.recursion <= 1
    ensures s.consumer.Locking? || s.consumer.Relocking? || s.consumer.Posting? ==> !s.guard
    ensures s.consumer.Unlocking? || s.consumer.Releasing? ==> s.guard && s.cs.owner == Some(Consumer)
    ensures forall p <- s.producers :: s.producers[p].PutUnlock? ==> s.cs.owner == Some(Producer(p))
  {
    ReachableInv(s);
  }

  /** No wake-up is lost: a consumer that is waiting while the flag is clear has an empty queue, unless
      the producer that just pushed still holds the lock and has its Set to do; and a consumer that
      sleeps although the flag is up is about to be notified. */
  lemma NoLostWakeup(s: State)
    requires Reachable(s) && Waiting(s.consumer)
    ensures !s.signal.flag ==> s.queue == [] || PutBeforeSet(s)
    ensures !s.signal.flag ==> s.active || s.stopper.StopSetLock? || s.stopper.StopSetFlag?
    ensures s.signal.flag && s.consumer.Asleep? ==> NotifyPending(s)
  {
    ReachableInv(s);
  }

  /** With no put and no stop under way, a sleeping consumer means that the event of every call has been posted,
      once, in the order in which the calls got the lock. */
  lemma QuietMeansDrained(s0: State, steps: seq<Step>, s: State)
    requires Init(s0) && Run(s0, steps, s) && s.consumer.Asleep? && s.producers == map[]
    requires s.stopper.Running? || s.stopper.Joining? || s.stopper.Stopped?
    ensures s.active && s.queue == []
    ensures var c := CallsFrom(NO_CALLS, steps);
            && ArgsOf(c, c.entered, s.log.posted) && |s.log.posted| == |c.args|
            && (forall i, j :: 0 <= i < j < |c.entered| ==> c.entered[i] != c.entered[j])
            && forall k: nat :: k < |c.args| <==> k in c.entered
  {
    ReachableInv(s);
    hide Run, CallsFrom;
    EveryPutOnce(s0, steps, s);
    AllEntered(CallsFrom(NO_CALLS, steps));
  }

  /** Once `stop` has cleared `_active`, at most one more event is posted. */
  lemma AtMostOnePostAfterStop(s: State)
    requires Reachable(s) && !s.active
    ensures |s.log.posted| <= s.log.postedAtStop + 1
  {
    ReachableInv(s);
  }

  // ---- put returns ----

  /** How many actions a call of `put` has before it. */
  function PutLeft(pc: ProducerPc): nat {
    match pc
    case PutLock(_) => 6
    case PutPush(_) => 5
    case SetLock => 4
    case SetFlag => 3
    case SetNotify => 2
    case PutUnlock => 1
  }

  /** A call of `put` returns with its sixth action, raises the flag before it notifies, and notifies before it lets
      the lock go; nobody else moves it. */
  lemma PutCompletes(s: State, p: nat, step: Step)
    requires Enabled(s, step) && (s.consumer.Popping? ==> s.queue != []) && p in s.producers
    ensures var s', left := Next(s, step), PutLeft(s.producers[p]);
            if step == Put(p) then
              && (if left == 1 then p !in s'.producers else p in s'.producers && PutLeft(s'.producers[p]) == left - 1)
              && (left == 3 ==> s'.signal.flag) && (left == 2 ==> !s'.consumer.Asleep?)
              && (left == 1 ==> s'.cs.owner == None)
            else p in s'.producers && s'.producers[p] == s.producers[p]
  {
    if step.Consume? { ConsumerFrame(s); }
  }

  // ---- stop terminates ----

  /** `stop` has cleared `_active` and raised the flag. */
  predicate StopRaised(s: State) { s.stopper.StopNotify? || s.stopper.Joining? || s.stopper.Stopped? }

  /** `stop` first clears `_active`, then raises the flag, then notifies, and waits only for the event's mutex and,
      at last, for the consumer to have returned. */
  lemma StopProceeds(s: State)
    requires Reachable(s) && !s.stopper.Stopped?
    ensures Enabled(s, Stop) <==>
              && (s.stopper.StopSetLock? ==> s.signal.mutex == None) && (s.stopper.Joining? ==> s.consumer.Returned?)
    ensures Enabled(s, Stop) ==>
              var s' := StopNext(s);
              match s.stopper
              case Running => !s'.active && s'.stopper.StopSetLock?
              case StopSetLock => s'.stopper.StopSetFlag?
              case StopSetFlag => s'.signal == Signal(None, true) && s'.stopper.StopNotify?
              case StopNotify => !s'.consumer.Asleep? && s'.stopper.Joining?
              case _ => s'.stopper.Stopped?
  {
    ReachableInv(s);
  }

  /** An upper bound on the consumer's remaining actions after that. */
  function Remaining(pc: ConsumerPc): nat {
    match pc
    case Returned => 0
    case Testing => 1
    case Checking => 2
    case Relocking | Locking => 3
    case WaitTest | Posting(_) => 4
    case WaitLock | Releasing(_) => 5
    case Asleep | Unlocking | Popping => 6
  }

  predicate ConsumerActs(step: Step) { step.Consume? || step.Spurious? }

  /** Every action of the consumer brings its return closer and no other action moves it away. */
  lemma StopCountsDown(s: State, step: Step)
    requires Reachable(s) && StopRaised(s) && Enabled(s, step) && (s.consumer.Popping? ==> s.queue != [])
    ensures var s' := Next(s, step);
            && StopRaised(s')
            && Remaining(s'.consumer) <= Remaining(s.consumer)
            && (ConsumerActs(step) ==> Remaining(s'.consumer) < Remaining(s.consumer))
  {
    ReachableInv(s);
    StepCountsDown(s, step);
  }

  lemma StepCountsDown(s: State, step: Step)
    requires Inv(s) && StopRaised(s) && Enabled(s, step) && (s.consumer.Popping? ==> s.queue != [])
    ensures var s' := Next(s, step);
            && StopRaised(s')
            && Remaining(s'.consumer) <= Remaining(s.consumer)
            && (ConsumerActs(step) ==> Remaining(s'.consumer) < Remaining(s.consumer))
  {
  }

  function ConsumerActions(steps: seq<Step>): nat {
    if steps == [] then 0 else (if ConsumerActs(steps[0]) then 1 else 0) + ConsumerActions(steps[1..])
  }

  /** Along every run after `stop` raised the event the consumer's actions use up what it had left. */
  lemma {:induction false} StopRunCountsDown(s: State, steps: seq<Step>, s': State)
    requires Inv(s) && StopRaised(s) && Run(s, steps, s')
    ensures StopRaised(s') && Remaining(s'.consumer) + ConsumerActions(steps) <= Remaining(s.consumer)
    decreases |steps|
  {
    if steps == [] {
    } else {
      hide Inv, Enabled, Next, Remaining, StopRaised;
      NextKeepsInv(s, steps[0]);
      StepCountsDown(s, steps[0]);
      StopRunCountsDown(Next(s, steps[0]), steps[1..], s');
    }
  }

  /** So on every run in which the consumer acts often enough it has returned in the end, and it cannot act
      more often than that. */
  lemma StopCompletes(s: State, steps: seq<Step>, s': State)
    requires Reachable(s) && StopRaised(s) && Run(s, steps, s')
    ensures ConsumerActions(steps) <= Remaining(s.consumer)
    ensures ConsumerActions(steps) >= Remaining(s.consumer) ==> s'.consumer.Returned?
  {
    ReachableInv(s);
    hide Run, ConsumerActions;
    StopRunCountsDown(s, steps, s');
  }

  /** Until it has returned, the consumer can act, or the thread it waits for can. */
  lemma StopNeverStuck(s: State)
    requires Reachable(s) && StopRaised(s) && !s.consumer.Returned?
    ensures Enabled(s, Consume) || Enabled(s, Stop)
            || exists p <- s.producers :: ProducerLocked(s.producers[p]) && Enabled(s, Put(p))
  {
    ReachableInv(s);
    if !Enabled(s, Consume) && !Enabled(s, Stop) {
      if s.signal.mutex.Some? && s.signal.mutex.value.Producer? {
        assert Enabled(s, Put(s.signal.mutex.value.id)) && ProducerLocked(s.producers[s.signal.mutex.value.id]);
      } else if s.cs.owner.Some? && s.cs.owner.value.Producer? {
        assert Enabled(s, Put(s.cs.owner.value.id)) && ProducerLocked(s.producers[s.cs.owner.value.id]);
      }
    }
  }
}
