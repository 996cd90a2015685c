/** The buffer's mutex / condition-variable protocol as a transition system: one producer, any
    number of consumers of either kind, the main thread's shutdown, an asynchronous flag and
    spurious wakeups. One step is one statement that another thread can observe. */
module BufferProtocol {
  import opened Common
  import opened RingBuffer

  datatype Kind = DataManager | StorageManager

  /** Where a consumer thread is; `r` counts failed pops of the current iteration. */
  datatype Pc =
    | Top                              // while (!shutdown_flag)
    | Recheck                          // the storage manager's second test of the flag
    | Retry(r: nat)                    // while (pop_retries < MAX_RETRIES && sbuffer_pop(...) != 0)
    | Locking(r: nat)                  // sbuffer_pop: pthread_mutex_lock
    | Testing(r: nat)                  // holds the mutex: while (count == 0 && !shutdown_flag)
    | Deciding(r: nat)                 // holds the mutex, the test came out true
    | Waiting(r: nat)                  // inside pthread_cond_wait
    | Woken(r: nat)                    // woken, has not reacquired the mutex
    | Taking(r: nat)                   // holds the mutex, past the wait loop
    | Returning(ok: bool, r: nat)      // holds the mutex, about to unlock it
    | Failed(r: nat)                   // sbuffer_pop returned -1: if (shutdown_flag) goto cleanup
    | Using                            // sbuffer_pop returned 0
    | Preparing(k: nat)                // sqlite3_prepare_v2, k attempts failed
    | Binding
    | Stepping(k: nat)                 // sqlite3_step, k attempts failed
    | Finalizing
    | Left

  datatype ProducerPc = Idle | Pushing(data: Reading) | Inserted | Signalled

  datatype MainPc = Keeping | FlagSet | Locked | Broadcasted | Polling(polls: nat) | Counting(polls: nat) | Finished

  datatype Owner = Nobody | Producer | Main | Consumer(i: nat)

  type Pos = n: nat | n > 0 witness 1

  /** What left the queue: who took it (None: dropped by a push) and how many pushes preceded. */
  datatype Departure = Departure(taker: Option<nat>, reading: Reading, pushesBefore: nat)

  datatype Worker = Worker(kind: Kind, pc: Pc, taken: seq<Reading>)

  datatype State = State(
    size: Pos, queue: seq<Reading>, flag: bool, owner: Owner,
    cons: seq<Worker>, prod: ProducerPc, main: MainPc,
    pushed: seq<Reading>, log: seq<Departure>)

  datatype Step =
    | SigInt                            // the handler sets the flag
    | Produce(data: Reading, woken: set<nat>)
    | MainStep
    | Spurious(i: nat)
    | Own(i: nat, ok: bool)             // consumer i's next statement; `ok`: a foreign call succeeds

  const POLLS := 100

  predicate Init(s: State) {
    && s.queue == [] && !s.flag && s.owner == Nobody
    && s.prod == Idle && s.main == Keeping && s.pushed == [] && s.log == []
    && forall w :: w in s.cons ==> w.pc in {Top, Left} && w.taken == []
  }

  // ---------- steps ----------

  ghost function Sleepers(s: State): set<nat> {
    set i: nat | i < |s.cons| && s.cons[i].pc.Waiting?
  }

  ghost function Wakers(s: State): set<nat> {
    set i: nat | i < |s.cons| && s.cons[i].pc.Woken?
  }

  /** pthread_cond_signal unblocks at least one waiting thread, if there is one. */
  ghost predicate SignalMayWake(s: State, woken: set<nat>) {
    woken <= Sleepers(s) && (Sleepers(s) != {} ==> woken != {})
  }

  function Wake(cons: seq<Worker>, woken: set<nat>): (r: seq<Worker>)
    ensures |r| == |cons|
  {
    seq(|cons|, i requires 0 <= i < |cons| =>
      if i in woken && cons[i].pc.Waiting? then cons[i].(pc := Woken(cons[i].pc.r)) else cons[i])
  }

  function WakeAll(cons: seq<Worker>): (r: seq<Worker>)
    ensures |r| == |cons|
  {
    seq(|cons|, i requires 0 <= i < |cons| =>
      if cons[i].pc.Waiting? then cons[i].(pc := Woken(cons[i].pc.r)) else cons[i])
  }

  ghost predicate Enabled(s: State, step: Step) {
    match step
    case SigInt => true
    case Produce(_, woken) =>
      (match s.prod
       case Idle => s.owner == Nobody
       case Pushing(_) => true
       case Inserted => SignalMayWake(s, woken)
       case Signalled => true)
    case MainStep =>
      (match s.main
       case Keeping => s.flag
       case FlagSet => s.owner == Nobody
       case Polling(k) => k < POLLS ==> s.owner == Nobody
       case Finished => false
       case _ => true)
    case Spurious(i) => i < |s.cons| && s.cons[i].pc.Waiting?
    case Own(i, ok) =>
      i < |s.cons| &&
      (match s.cons[i].pc
       case Locking(_) => ok ==> s.owner == Nobody
       case Woken(_) => s.owner == Nobody
       case Waiting(_) => false
       case Left => false
       case _ => true)
  }

  /** sbuffer_push up to the signal: a full queue loses its oldest item. */
  function Insert(s: State, data: Reading): State {
    s.(queue := Newest(s.queue + [data], s.size),
       pushed := s.pushed + [data],
       log := s.log + if |s.queue| == s.size then [Departure(None, s.queue[0], |s.pushed|)] else [],
       prod := Inserted)
  }

  function Goto(s: State, i: nat, pc: Pc): State
    requires i < |s.cons|
  {
    s.(cons := s.cons[i := s.cons[i].(pc := pc)])
  }

  function Take(s: State, i: nat, r: nat): State
    requires i < |s.cons| && s.queue != []
  {
    var w := s.cons[i];
    s.(queue := s.queue[1..],
       log := s.log + [Departure(Some(i), s.queue[0], |s.pushed|)],
       cons := s.cons[i := w.(pc := Returning(true, r), taken := w.taken + [s.queue[0]])])
  }

  predicate Holds(pc: Pc) {
    pc.Testing? || pc.Deciding? || pc.Taking? || pc.Returning?
  }

  /** Statements of a consumer that neither hold nor acquire the buffer's mutex. */
  predicate Local(pc: Pc, ok: bool) {
    !Holds(pc) && !pc.Woken? && !(pc.Locking? && ok)
  }

  function LocalNext(kind: Kind, pc: Pc, flag: bool, ok: bool): Pc
    requires Local(pc, ok)
  {
    match pc
    case Top => if flag then Left else if kind == StorageManager then Recheck else Retry(0)
    case Recheck => if flag then Left else Retry(0)
    case Retry(r) => if r < MAX_RETRIES then Locking(r) else Top
    case Locking(r) => Failed(r)
    case Failed(r) => if flag then Left else Retry(r + 1)
    case Using => if kind == StorageManager then Preparing(0) else Top
    case Preparing(k) => if k >= MAX_RETRIES then Top else if ok then Binding else Preparing(k + 1)
    case Binding => if ok then Stepping(0) else Finalizing
    case Stepping(k) => if k >= MAX_RETRIES || ok then Finalizing else Stepping(k + 1)
    case Finalizing => Top
    case _ => pc
  }

  /** Statements of sbuffer_pop from the lock to the unlock. */
  function PopStep(s: State, i: nat): State
    requires i < |s.cons|
  {
    match s.cons[i].pc
    case Locking(r) => Goto(s, i, Testing(r)).(owner := Consumer(i))
    case Woken(r) => Goto(s, i, Testing(r)).(owner := Consumer(i))
    case Testing(r) => Goto(s, i, if s.queue == [] && !s.flag then Deciding(r) else Taking(r))
    case Deciding(r) => Goto(s, i, Waiting(r)).(owner := Nobody)
    case Taking(r) => if s.queue == [] then Goto(s, i, Returning(false, r)) else Take(s, i, r)
    case Returning(popped, r) => Goto(s, i, if popped then Using else Failed(r)).(owner := Nobody)
    case _ => s
  }

  function OwnStep(s: State, i: nat, ok: bool): State
    requires i < |s.cons|
  {
    var w := s.cons[i];
    if Local(w.pc, ok) then Goto(s, i, LocalNext(w.kind, w.pc, s.flag, ok)) else PopStep(s, i)
  }

  function MainNext(s: State): State {
    match s.main
    case Keeping => s.(main := FlagSet, flag := true)
    case FlagSet => s.(main := Locked, owner := Main)
    case Locked => s.(main := Broadcasted, cons := WakeAll(s.cons))
    case Broadcasted => s.(main := Polling(0), owner := Nobody)
    case Polling(k) => if k < POLLS then s.(main := Counting(k), owner := Main) else s.(main := Finished)
    case Counting(k) => s.(main := if s.queue == [] then Finished else Polling(k + 1), owner := Nobody)
    case Finished => s
  }

  ghost function Apply(s: State, step: Step): State
    requires Enabled(s, step)
  {
    match step
    case SigInt => s.(flag := true)
    case Produce(data, woken) =>
      (match s.prod
       case Idle => s.(prod := Pushing(data), owner := Producer)
       case Pushing(d) => Insert(s, d)
       case Inserted => s.(prod := Signalled, cons := Wake(s.cons, woken))
       case Signalled => s.(prod := Idle, owner := Nobody))
    case MainStep => MainNext(s)
    case Spurious(i) => Goto(s, i, Woken(s.cons[i].pc.r))
    case Own(i, ok) => OwnStep(s, i, ok)
  }

  // ---------- runs ----------

  ghost predicate IsRun(run: seq<State>, steps: seq<Step>) {
    && |run| == |steps| + 1
    && forall k :: 0 <= k < |steps| ==> Enabled(run[k], steps[k]) && run[k + 1] == Apply(run[k], steps[k])
  }

  /** How many statements consumer i executes. */
  function OwnSteps(steps: seq<Step>, i: nat): nat {
    if steps == [] then 0
    else
      var n := |steps| - 1;
      OwnSteps(steps[..n], i) + (if steps[n].Own? && steps[n].i == i then 1 else 0)
  }

  lemma SuffixIsRun(run: seq<State>, steps: seq<Step>, m: nat)
    requires IsRun(run, steps) && m < |run|
    ensures IsRun(run[m..], steps[m..])
  {
    forall k | 0 <= k < |steps[m..]|
      ensures Enabled(run[m..][k], steps[m..][k]) && run[m..][k + 1] == Apply(run[m..][k], steps[m..][k])
    {
      assert steps[m..][k] == steps[m + k] && run[m..][k] == run[m + k] && run[m..][k + 1] == run[m + k + 1];
    }
  }

  // ---------- the invariant ----------

  ghost predicate MutualExclusion(s: State) {
    && (s.owner == Producer <==> s.prod != Idle)
    && (s.owner == Main <==> s.main.Locked? || s.main.Broadcasted? || s.main.Counting?)
    && (s.owner.Consumer? ==> s.owner.i < |s.cons|)
    && forall i: nat :: i < |s.cons| ==> (s.owner == Consumer(i) <==> Holds(s.cons[i].pc))
  }

  /** One wakeup is still owed while a consumer that will look at the queue, or the producer that
      will signal, is inside its critical section. */
  ghost function Credit(s: State): nat {
    if s.prod == Inserted then 1
    else if s.owner.Consumer? && s.owner.i < |s.cons| && (s.cons[s.owner.i].pc.Testing? || s.cons[s.owner.i].pc.Taking?) then 1
    else 0
  }

  ghost predicate NoLostWakeup(s: State) {
    && (Sleepers(s) != {} ==> |s.queue| <= |Wakers(s)| + Credit(s))
    && (s.owner.Consumer? && s.owner.i < |s.cons| && s.cons[s.owner.i].pc.Deciding? ==> s.queue == [])
  }

  /** The main thread has broadcast. */
  predicate Announced(s: State) {
    s.main.Broadcasted? || s.main.Polling? || s.main.Counting? || s.main.Finished?
  }

  ghost predicate ShutdownSafe(s: State) {
    && (s.main != Keeping ==> s.flag)
    && (Announced(s) ==> forall i :: 0 <= i < |s.cons| ==> !s.cons[i].pc.Waiting? && !s.cons[i].pc.Deciding?)
  }

  /** The retry counters: an iteration makes at most MAX_RETRIES attempts of each kind. */
  predicate Bounded(pc: Pc) {
    match pc
    case Retry(r) => r <= MAX_RETRIES
    case Locking(r) => r < MAX_RETRIES
    case Testing(r) => r < MAX_RETRIES
    case Deciding(r) => r < MAX_RETRIES
    case Waiting(r) => r < MAX_RETRIES
    case Woken(r) => r < MAX_RETRIES
    case Taking(r) => r < MAX_RETRIES
    case Returning(_, r) => r < MAX_RETRIES
    case Failed(r) => r < MAX_RETRIES
    case Preparing(k) => k <= MAX_RETRIES
    case Stepping(k) => k <= MAX_RETRIES
    case _ => true
  }

  ghost predicate RetriesBounded(s: State) {
    forall i :: 0 <= i < |s.cons| ==> Bounded(s.cons[i].pc)
  }

  // ---------- preservation ----------

  lemma MutexKept(s: State, step: Step)
    requires Enabled(s, step) && MutualExclusion(s)
    ensures MutualExclusion(Apply(s, step))
  {
    if step.Own? {
      if Local(s.cons[step.i].pc, step.ok) {
        LocalStaysOutside(s.cons[step.i].kind, s.cons[step.i].pc, s.flag, step.ok);
      } else {
        MutexKeptByPop(s, step.i);
      }
    }
  }

  lemma LocalStaysOutside(kind: Kind, pc: Pc, flag: bool, ok: bool)
    requires Local(pc, ok)
    ensures !Holds(LocalNext(kind, pc, flag, ok)) && !LocalNext(kind, pc, flag, ok).Woken?
    ensures !pc.Waiting? ==> !LocalNext(kind, pc, flag, ok).Waiting?
  {
  }

  lemma MutexKeptByPop(s: State, i: nat)
    requires Enabled(s, Own(i, true)) && !Local(s.cons[i].pc, true) && MutualExclusion(s)
    ensures MutualExclusion(PopStep(s, i))
  {
    var s' := PopStep(s, i);
    assert forall j :: 0 <= j < |s.cons| && j != i ==> s'.cons[j] == s.cons[j];
  }

  /** How moving one consumer changes the two sets. */
  lemma SetsAfterMove(s: State, s': State, i: nat)
    requires i < |s.cons| == |s'.cons| && forall j :: 0 <= j < |s.cons| && j != i ==> s'.cons[j].pc == s.cons[j].pc
    ensures Sleepers(s') == if s'.cons[i].pc.Waiting? then Sleepers(s) + {i} else Sleepers(s) - {i}
    ensures Wakers(s') == if s'.cons[i].pc.Woken? then Wakers(s) + {i} else Wakers(s) - {i}
    ensures i in Sleepers(s) <==> s.cons[i].pc.Waiting?
    ensures i in Wakers(s) <==> s.cons[i].pc.Woken?
    ensures i !in Sleepers(s) ==> Sleepers(s) - {i} == Sleepers(s)
    ensures i !in Wakers(s) ==> Wakers(s) - {i} == Wakers(s)
  {
  }

  lemma WakeupKept(s: State, step: Step)
    requires Enabled(s, step) && MutualExclusion(s) && NoLostWakeup(s)
    ensures NoLostWakeup(Apply(s, step))
  {
    match step
    case SigInt => SameConsumers(s, Apply(s, step));
    case Spurious(i) => SetsAfterMove(s, Apply(s, step), i);
    case Own(i, ok) => WakeupKeptByConsumer(s, i, ok);
    case MainStep => WakeupKeptByMain(s);
    case Produce(data, woken) => WakeupKeptByProducer(s, data, woken);
  }

  lemma WakeupKeptByProducer(s: State, data: Reading, woken: set<nat>)
    requires Enabled(s, Produce(data, woken)) && MutualExclusion(s) && NoLostWakeup(s)
    ensures NoLostWakeup(Apply(s, Produce(data, woken)))
  {
    if s.prod == Inserted {
      SetsAfterSignal(s, woken);
      NonemptyHasSize(woken);
    } else {
      SameConsumers(s, Apply(s, Produce(data, woken)));
    }
  }

  lemma SameConsumers(s: State, s': State)
    requires s'.cons == s.cons
    ensures Sleepers(s') == Sleepers(s) && Wakers(s') == Wakers(s)
  {
  }

  lemma WakeupKeptByMain(s: State)
    requires Enabled(s, MainStep) && MutualExclusion(s) && NoLostWakeup(s)
    ensures NoLostWakeup(MainNext(s))
  {
    if s.main == Locked {
      assert Sleepers(MainNext(s)) == {};
    } else {
      SameConsumers(s, MainNext(s));
    }
  }

  lemma SetsAfterSignal(s: State, woken: set<nat>)
    requires woken <= Sleepers(s)
    ensures Sleepers(s.(prod := Signalled, cons := Wake(s.cons, woken))) == Sleepers(s) - woken
    ensures Wakers(s.(prod := Signalled, cons := Wake(s.cons, woken))) == Wakers(s) + woken
    ensures |Wakers(s) + woken| == |Wakers(s)| + |woken|
  {
    assert Wakers(s) !! woken;
  }

  lemma NonemptyHasSize(a: set<nat>)
    ensures a != {} ==> |a| >= 1
  {
    if x :| x in a {
      assert a == {x} + (a - {x});
    }
  }

  lemma WakeupKeptByConsumer(s: State, i: nat, ok: bool)
    requires Enabled(s, Own(i, ok)) && MutualExclusion(s) && NoLostWakeup(s)
    ensures NoLostWakeup(OwnStep(s, i, ok))
  {
    var w := s.cons[i];
    if Local(w.pc, ok) {
      LocalStaysOutside(w.kind, w.pc, s.flag, ok);
      WakeupKeptLocally(s, i, LocalNext(w.kind, w.pc, s.flag, ok));
    } else {
      if w.pc.Woken? {
        WakeupKeptByReacquire(s, i);
      } else {
        WakeupKeptByPop(s, i);
      }
    }
  }

  lemma WakeupKeptLocally(s: State, i: nat, pc: Pc)
    requires i < |s.cons| && MutualExclusion(s) && NoLostWakeup(s)
    requires !Holds(s.cons[i].pc) && !s.cons[i].pc.Woken? && !s.cons[i].pc.Waiting?
    requires !Holds(pc) && !pc.Woken? && !pc.Waiting?
    ensures NoLostWakeup(Goto(s, i, pc))
  {
    SetsAfterMove(s, Goto(s, i, pc), i);
  }

  lemma WakeupKeptByReacquire(s: State, i: nat)
    requires i < |s.cons| && s.cons[i].pc.Woken? && s.owner == Nobody && MutualExclusion(s) && NoLostWakeup(s)
    ensures NoLostWakeup(PopStep(s, i))
  {
    SetsAfterMove(s, PopStep(s, i), i);
    assert |Wakers(s) - {i}| == |Wakers(s)| - 1;
  }

  lemma WakeupKeptByPop(s: State, i: nat)
    requires Enabled(s, Own(i, true)) && !Local(s.cons[i].pc, true) && !s.cons[i].pc.Woken?
    requires MutualExclusion(s) && NoLostWakeup(s)
    ensures NoLostWakeup(PopStep(s, i))
  {
    SetsAfterMove(s, PopStep(s, i), i);
  }

  lemma ShutdownKept(s: State, step: Step)
    requires Enabled(s, step) && MutualExclusion(s) && ShutdownSafe(s)
    ensures ShutdownSafe(Apply(s, step))
  {
    var s' := Apply(s, step);
    if step.Own? {
      if Local(s.cons[step.i].pc, step.ok) {
        LocalStaysOutside(s.cons[step.i].kind, s.cons[step.i].pc, s.flag, step.ok);
      }
      assert forall j :: 0 <= j < |s.cons| && j != step.i ==> s'.cons[j] == s.cons[j];
    } else if step.MainStep? && s.main == Locked {
      assert forall j :: 0 <= j < |s.cons| ==> !Holds(s.cons[j].pc);
    }
  }

  lemma RetriesKept(s: State, step: Step)
    requires Enabled(s, step) && RetriesBounded(s)
    ensures RetriesBounded(Apply(s, step))
  {
    if step.Own? {
      var w, s' := s.cons[step.i], Apply(s, step);
      if Local(w.pc, step.ok) {
        LocalStaysBounded(w.kind, w.pc, s.flag, step.ok);
      }
      assert forall j :: 0 <= j < |s.cons| && j != step.i ==> s'.cons[j] == s.cons[j];
    }
  }

  lemma LocalStaysBounded(kind: Kind, pc: Pc, flag: bool, ok: bool)
    requires Local(pc, ok) && Bounded(pc)
    ensures Bounded(LocalNext(kind, pc, flag, ok))
  {
  }

  // ---------- reachable states ----------

  ghost predicate Inv(s: State) {
    MutualExclusion(s) && NoLostWakeup(s) && ShutdownSafe(s) && RetriesBounded(s)
  }

  lemma InvInitially(s: State)
    requires Init(s)
    ensures Inv(s)
  {
    assert forall i :: 0 <= i < |s.cons| ==> s.cons[i] in s.cons;
    assert Sleepers(s) == {};
  }

  lemma InvKept(s: State, step: Step)
    requires Enabled(s, step) && Inv(s)
    ensures Inv(Apply(s, step))
  {
    MutexKept(s, step);
    WakeupKept(s, step);
    ShutdownKept(s, step);
    RetriesKept(s, step);
  }

  lemma {:induction false} InvFrom(run: seq<State>, steps: seq<Step>, n: nat)
    requires IsRun(run, steps) && n < |run| && Inv(run[0])
    ensures Inv(run[n])
  {
    if n > 0 {
      InvFrom(run, steps, n - 1);
      InvKept(run[n - 1], steps[n - 1]);
    }
  }

  /** In every reachable state with the mutex free, a waiting consumer means that every queued
      reading already has a woken consumer on its way; so readings are never available while
      every consumer sleeps, unless the producer is between its insertion and its signal. */
  lemma NoWakeupIsLost(run: seq<State>, steps: seq<Step>, n: nat)
    requires IsRun(run, steps) && n < |run| && Init(run[0])
    ensures run[n].owner == Nobody && Sleepers(run[n]) != {} ==> |run[n].queue| <= |Wakers(run[n])|
    ensures run[n].cons != [] && run[n].queue != [] && (forall w :: w in run[n].cons ==> w.pc.Waiting?)
      ==> run[n].prod == Inserted && |run[n].queue| == 1
  {
    InvInitially(run[0]);
    InvFrom(run, steps, n);
    var s := run[n];
    if s.cons != [] && s.queue != [] && forall w :: w in s.cons ==> w.pc.Waiting? {
      assert s.cons[0] in s.cons;
      assert 0 in Sleepers(s);
      forall i: nat | i < |s.cons| ensures s.cons[i].pc.Waiting? {
        assert s.cons[i] in s.cons;
      }
      assert Wakers(s) == {};
    }
  }
}
