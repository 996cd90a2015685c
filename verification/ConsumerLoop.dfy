/** What a single consumer does in any run of BufferProtocol, in terms of its own statements: when its
    pops wait, when they fail, how often it retries, when it leaves, and what it does with a reading. */
module ConsumerLoop {
  import opened Common
  import opened BufferProtocol
  import opened Shutdown

  // ---------- a pop fails only for a reason ----------

  /** Past the wait loop with nothing to take, or about to return -1: only after shutdown has begun. */
  predicate FailsForShutdown(s: State, pc: Pc) {
    && (pc.Taking? && s.queue == [] ==> s.flag)
    && (pc.Returning? && !pc.ok ==> s.flag)
  }

  ghost predicate PopsWait(s: State) {
    forall i :: 0 <= i < |s.cons| ==> FailsForShutdown(s, s.cons[i].pc)
  }

  lemma PopsWaitKept(s: State, step: Step)
    requires Enabled(s, step) && MutualExclusion(s) && PopsWait(s)
    ensures PopsWait(Apply(s, step))
  {
    var s' := Apply(s, step);
    forall i | 0 <= i < |s'.cons|
      ensures FailsForShutdown(s', s'.cons[i].pc)
    {
      assert FailsForShutdown(s, s.cons[i].pc);
      if !(step.Own? && step.i == i) {
        OthersLeaveHolder(s, step, i);
      }
    }
  }

  /** Nobody else's step touches a consumer that holds the mutex, or the queue it is looking at. */
  lemma OthersLeaveHolder(s: State, step: Step, i: nat)
    requires Enabled(s, step) && MutualExclusion(s) && i < |s.cons| && !(step.Own? && step.i == i)
    ensures |Apply(s, step).cons| == |s.cons|
    ensures Holds(s.cons[i].pc) ==>
      Apply(s, step).cons[i] == s.cons[i] && Apply(s, step).queue == s.queue && Apply(s, step).owner == s.owner
    ensures !Holds(s.cons[i].pc) ==> !Holds(Apply(s, step).cons[i].pc)
  {
  }

  lemma {:induction false} PopsWaitAlways(run: seq<State>, steps: seq<Step>, n: nat)
    requires IsRun(run, steps) && n < |run| && Init(run[0])
    ensures PopsWait(run[n]) && Inv(run[n]) && |run[n].cons| == |run[0].cons|
  {
    InvInitially(run[0]);
    InvFrom(run, steps, n);
    if n > 0 {
      PopsWaitAlways(run, steps, n - 1);
      PopsWaitKept(run[n - 1], steps[n - 1]);
    } else {
      assert forall i :: 0 <= i < |run[0].cons| ==> run[0].cons[i] in run[0].cons;
    }
  }

  /** In every run sbuffer_pop returns -1 only if locking the mutex failed or shutdown has begun; and
      as long as it has not, a consumer is past the wait loop only with a reading to take. */
  lemma PopFailsOnlyForReason(run: seq<State>, steps: seq<Step>, n: nat, i: nat)
    requires IsRun(run, steps) && n < |run| && Init(run[0]) && i < |run[n].cons|
    ensures run[n].cons[i].pc.Taking? && run[n].queue == [] ==> run[n].flag
    ensures run[n].cons[i].pc.Returning? && !run[n].cons[i].pc.ok ==> run[n].flag
    ensures n > 0 && run[n].cons[i].pc.Failed? && !run[n].flag ==>
      i < |run[n - 1].cons| && (run[n - 1].cons[i].pc.Failed? || (steps[n - 1] == Own(i, false) && run[n - 1].cons[i].pc.Locking?))
  {
    PopsWaitAlways(run, steps, n);
    assert FailsForShutdown(run[n], run[n].cons[i].pc);
    if n > 0 {
      PopsWaitAlways(run, steps, n - 1);
      FailedComesFrom(run[n - 1], steps[n - 1], i);
    }
  }

  lemma FailedComesFrom(s: State, step: Step, i: nat)
    requires Enabled(s, step) && PopsWait(s) && i < |s.cons| == |Apply(s, step).cons|
    ensures Apply(s, step).cons[i].pc.Failed? && !Apply(s, step).flag ==>
      s.cons[i].pc.Failed? || (step == Own(i, false) && s.cons[i].pc.Locking?)
  {
    assert FailsForShutdown(s, s.cons[i].pc);
  }

  // ---------- an empty buffer puts a consumer to sleep ----------

  /** While consumer i goes from the test of an empty queue towards the wait. */
  lemma {:induction false} FallingAsleep(run: seq<State>, steps: seq<Step>, i: nat, r: nat, n: nat)
    requires IsRun(run, steps) && n < |run| && Inv(run[0]) && i < |run[0].cons|
    requires run[0].cons[i].pc == Testing(r) && run[0].queue == [] && !run[n].flag && OwnSteps(steps[..n], i) < 2
    ensures Inv(run[n]) && |run[n].cons| == |run[0].cons| && run[n].queue == []
    ensures run[n].cons[i].pc == if OwnSteps(steps[..n], i) == 0 then Testing(r) else Deciding(r)
  {
    if n > 0 {
      assert steps[..n][..n - 1] == steps[..n - 1];
      assert run[n] == Apply(run[n - 1], steps[n - 1]);
      FallingAsleep(run, steps, i, r, n - 1);
      InvKept(run[n - 1], steps[n - 1]);
      if !(steps[n - 1].Own? && steps[n - 1].i == i) {
        OthersLeaveHolder(run[n - 1], steps[n - 1], i);
      }
    }
  }

  /** In every run a consumer that tests an empty queue and executes two more statements, whatever the
      others do meanwhile, waits with the mutex released, unless shutdown has begun. */
  lemma EmptyQueuePutsToSleep(run: seq<State>, steps: seq<Step>, m: nat, n: nat, i: nat, r: nat)
    requires IsRun(run, steps) && m < n < |run| && Init(run[0]) && i < |run[m].cons|
    requires run[m].cons[i].pc == Testing(r) && run[m].queue == []
    requires OwnSteps(steps[m..n], i) == 2 && steps[n - 1].Own? && steps[n - 1].i == i && !run[n].flag
    ensures i < |run[n].cons| && run[n].cons[i].pc == Waiting(r) && run[n].owner == Nobody && run[n].queue == []
  {
    InvInitially(run[0]);
    InvFrom(run, steps, m);
    SuffixIsRun(run, steps, m);
    var k := n - 1 - m;
    assert steps[m..n] == steps[m..][..k] + [steps[n - 1]];
    assert (steps[m..][..k] + [steps[n - 1]])[..k] == steps[m..][..k];
    FallingAsleep(run[m..], steps[m..], i, r, k);
    assert run[n] == Apply(run[n - 1], steps[n - 1]);
  }

  // ---------- leaving and retrying ----------

  /** A consumer's loop ends only because shutdown has begun. */
  lemma {:induction false} LeavesOnlyForShutdown(run: seq<State>, steps: seq<Step>, n: nat, i: nat)
    requires IsRun(run, steps) && n < |run| && Init(run[0]) && i < |run[0].cons|
    ensures |run[n].cons| == |run[0].cons|
    ensures run[n].cons[i].pc == Left ==> run[0].cons[i].pc == Left || run[n].flag
  {
    if n > 0 {
      LeavesOnlyForShutdown(run, steps, n - 1, i);
      assert run[n] == Apply(run[n - 1], steps[n - 1]);
    }
  }

  /** How many lock attempts of consumer i have failed since it was last at the head of its loop. */
  function FailedLocks(run: seq<State>, steps: seq<Step>, i: nat): nat
    requires |run| > |steps|
  {
    if steps == [] then 0
    else
      var n := |steps| - 1;
      var before := FailedLocks(run, steps[..n], i);
      if !steps[n].Own? || steps[n].i != i || i >= |run[n].cons| then before
      else if run[n].cons[i].pc == Top then 0
      else if run[n].cons[i].pc.Locking? && !steps[n].ok then before + 1
      else before
  }

  /** The retry counter counts them, as long as shutdown has not begun. */
  predicate CountsFailures(pc: Pc, failed: nat) {
    match pc
    case Recheck => failed == 0
    case Retry(r) => r == failed
    case Locking(r) => r == failed
    case Testing(r) => r == failed
    case Deciding(r) => r == failed
    case Waiting(r) => r == failed
    case Woken(r) => r == failed
    case Taking(r) => r == failed
    case Returning(_, r) => r == failed
    case Failed(r) => r + 1 == failed
    case _ => true
  }

  lemma CountKept(s: State, step: Step, i: nat, failed: nat)
    requires Enabled(s, step) && i < |s.cons| == |Apply(s, step).cons| && PopsWait(s) && !Apply(s, step).flag
    requires CountsFailures(s.cons[i].pc, failed)
    ensures var own := step.Own? && step.i == i;
      CountsFailures(Apply(s, step).cons[i].pc,
        if own && s.cons[i].pc == Top then 0 else if own && s.cons[i].pc.Locking? && !step.ok then failed + 1 else failed)
  {
    assert FailsForShutdown(s, s.cons[i].pc);
  }

  lemma {:induction false} RetriesCounted(run: seq<State>, steps: seq<Step>, n: nat, i: nat)
    requires IsRun(run, steps) && n < |run| && Init(run[0]) && i < |run[0].cons| && !run[n].flag
    ensures |run[n].cons| == |run[0].cons| && CountsFailures(run[n].cons[i].pc, FailedLocks(run, steps[..n], i))
  {
    PopsWaitAlways(run, steps, n);
    if n > 0 {
      PopsWaitAlways(run, steps, n - 1);
      assert run[n] == Apply(run[n - 1], steps[n - 1]);
      RetriesCounted(run, steps, n - 1, i);
      CountKept(run[n - 1], steps[n - 1], i, FailedLocks(run, steps[..n - 1], i));
      assert steps[..n][..n - 1] == steps[..n - 1];
    } else {
      assert run[0].cons[i] in run[0].cons;
    }
  }

  /** Before shutdown a failed pop is tried again, up to three times in one iteration: at the head of
      the retry loop the consumer's next statement is another attempt exactly when fewer than three
      attempts have failed, and gives the iteration up exactly when three have. */
  lemma ThreeAttempts(run: seq<State>, steps: seq<Step>, n: nat, i: nat)
    requires IsRun(run, steps) && n < |steps| && Init(run[0]) && i < |run[0].cons| == |run[n].cons| && !run[n + 1].flag
    requires steps[n].Own? && steps[n].i == i
    ensures |run[n + 1].cons| == |run[0].cons|
    ensures run[n].cons[i].pc.Failed? ==> run[n + 1].cons[i].pc.Retry?
    ensures var tries := FailedLocks(run, steps[..n], i);
      run[n].cons[i].pc.Retry? ==>
        && tries <= 3
        && (run[n + 1].cons[i].pc.Locking? <==> tries < 3)
        && (run[n + 1].cons[i].pc == Top <==> tries == 3)
  {
    assert run[n + 1] == Apply(run[n], steps[n]);
    RetriesCounted(run, steps, n, i);
    PopsWaitAlways(run, steps, n);
    assert Bounded(run[n].cons[i].pc);
  }

  /** Before shutdown the averages' consumer is one statement away from its first attempt, the other one
      two: it tests the flag once more, and leaves if shutdown has begun in between. */
  lemma FirstAttempt(s: State, i: nat, shutdown: bool)
    requires i < |s.cons| && s.cons[i].pc == Top && !s.flag
    ensures var t := Apply(s, Own(i, true));
      && i < |t.cons|
      && (s.cons[i].kind == DataManager ==> t.cons[i].pc == Retry(0))
      && (s.cons[i].kind == StorageManager ==>
          var u := if shutdown then Apply(t, SigInt) else t;
          Enabled(u, Own(i, true)) && i < |Apply(u, Own(i, true)).cons|
          && Apply(u, Own(i, true)).cons[i].pc == if shutdown then Left else Retry(0))
  {
  }

  // ---------- a successful pop is a reading taken ----------

  /** How many pops of consumer i have returned 0. */
  function Successes(run: seq<State>, steps: seq<Step>, i: nat): nat
    requires |run| > |steps|
  {
    if steps == [] then 0
    else
      var n := |steps| - 1;
      var before := Successes(run, steps[..n], i);
      if steps[n].Own? && steps[n].i == i && i < |run[n].cons| && i < |run[n + 1].cons|
         && run[n].cons[i].pc.Returning? && run[n + 1].cons[i].pc == Using
      then before + 1 else before
  }

  lemma TakenAfter(s: State, step: Step, i: nat)
    requires Enabled(s, step) && i < |s.cons|
    ensures var s', own := Apply(s, step), step.Own? && step.i == i;
      && |s'.cons| == |s.cons|
      && |s'.cons[i].taken| == |s.cons[i].taken| + (if own && s.cons[i].pc.Taking? && s.queue != [] then 1 else 0)
      && (own && s.cons[i].pc.Taking? ==> s'.cons[i].pc.Returning? && s'.cons[i].pc.ok == (s.queue != []))
      && (own && s.cons[i].pc.Returning? ==> (s'.cons[i].pc == Using <==> s.cons[i].pc.ok))
      && (s'.cons[i].pc.Returning? && !(own && s.cons[i].pc.Taking?) ==> s'.cons[i].pc == s.cons[i].pc)
      && (s.cons[i].pc.Returning? && !own ==> s'.cons[i].pc == s.cons[i].pc)
  {
  }

  /** In every run the readings a consumer has taken are one for each of its pops that has returned 0,
      and one for a pop about to. */
  lemma {:induction false} OneReadingEach(run: seq<State>, steps: seq<Step>, n: nat, i: nat)
    requires IsRun(run, steps) && n < |run| && Init(run[0]) && i < |run[0].cons|
    ensures |run[n].cons| == |run[0].cons|
    ensures |run[n].cons[i].taken| ==
      Successes(run, steps[..n], i) + (if run[n].cons[i].pc.Returning? && run[n].cons[i].pc.ok then 1 else 0)
  {
    if n > 0 {
      OneReadingEach(run, steps, n - 1, i);
      TakenAfter(run[n - 1], steps[n - 1], i);
      assert steps[..n][..n - 1] == steps[..n - 1];
    } else {
      assert run[0].cons[i] in run[0].cons;
    }
  }

  // ---------- what a consumer does with a reading ----------

  /** Between taking a reading and the head of the loop. */
  predicate Working(pc: Pc) {
    pc.Using? || pc.Preparing? || pc.Binding? || pc.Stepping? || pc.Finalizing?
  }

  /** Where a consumer's next statements take it, given how the calls in them turn out. */
  function After(kind: Kind, pc: Pc, oks: seq<bool>): Pc {
    if oks == [] then pc
    else
      var here := After(kind, pc, oks[..|oks| - 1]);
      if Working(here) then LocalNext(kind, here, true, oks[|oks| - 1]) else here
  }

  function OwnOks(steps: seq<Step>, i: nat): seq<bool> {
    if steps == [] then []
    else
      var n := |steps| - 1;
      OwnOks(steps[..n], i) + (if steps[n].Own? && steps[n].i == i then [steps[n].ok] else [])
  }

  /** What one statement, of whatever thread, makes of consumer i while it works. */
  function Moved(kind: Kind, pc: Pc, step: Step, i: nat): Pc {
    if Working(pc) && step.Own? && step.i == i then LocalNext(kind, pc, true, step.ok) else pc
  }

  /** From s to t consumer i does what its own statement, if the step is one, tells it to. */
  predicate MovesAlone(s: State, t: State, step: Step, i: nat) {
    i < |s.cons| == |t.cons| && t.cons[i].kind == s.cons[i].kind && t.cons[i].pc == Moved(s.cons[i].kind, s.cons[i].pc, step, i)
  }

  lemma WorkingStep(run: seq<State>, steps: seq<Step>, k: nat, i: nat)
    requires IsRun(run, steps) && k < |steps| && i < |run[k].cons| && Working(run[k].cons[i].pc)
    ensures MovesAlone(run[k], run[k + 1], steps[k], i)
  {
    assert run[k + 1] == Apply(run[k], steps[k]);
  }

  lemma FollowsPath(run: seq<State>, steps: seq<Step>, i: nat)
    requires |run| == |steps| + 1 && i < |run[0].cons|
    requires forall k :: 0 <= k < |steps| ==> MovesAlone(run[k], run[k + 1], steps[k], i)
    ensures i < |run[|steps|].cons|
    ensures run[|steps|].cons[i].pc == After(run[0].cons[i].kind, run[0].cons[i].pc, OwnOks(steps, i))
  {
    var w, k := run[0].cons[i], 0;
    while k < |steps|
      invariant k <= |steps| && i < |run[k].cons| && run[k].cons[i].kind == w.kind
      invariant run[k].cons[i].pc == After(w.kind, w.pc, OwnOks(steps[..k], i))
    {
      assert MovesAlone(run[k], run[k + 1], steps[k], i);
      OneMoreStep(w.kind, w.pc, steps[..k], steps[k], i);
      assert steps[..k + 1] == steps[..k] + [steps[k]];
      k := k + 1;
    }
    assert steps[..k] == steps;
  }

  /** What happens to a reading is up to its consumer alone: nothing the others do, and not the flag
      either, has any influence before the consumer is back at the head of its loop. */
  lemma WorkIsItsOwn(run: seq<State>, steps: seq<Step>, m: nat, n: nat, i: nat)
    requires IsRun(run, steps) && m <= n < |run| && i < |run[m].cons|
    requires forall k :: m <= k < n ==> i < |run[k].cons| && Working(run[k].cons[i].pc)
    ensures i < |run[n].cons|
    ensures run[n].cons[i].pc == After(run[m].cons[i].kind, run[m].cons[i].pc, OwnOks(steps[m..n], i))
  {
    var part, done := run[m..n + 1], steps[m..n];
    forall k | 0 <= k < |done| ensures MovesAlone(part[k], part[k + 1], done[k], i) {
      assert part[k] == run[m + k] && part[k + 1] == run[m + k + 1] && done[k] == steps[m + k];
      WorkingStep(run, steps, m + k, i);
    }
    FollowsPath(part, done, i);
  }

  lemma OneMoreStep(kind: Kind, pc: Pc, steps: seq<Step>, step: Step, i: nat)
    ensures After(kind, pc, OwnOks(steps + [step], i)) == Moved(kind, After(kind, pc, OwnOks(steps, i)), step, i)
  {
    assert (steps + [step])[..|steps|] == steps;
    var oks := OwnOks(steps, i);
    if step.Own? && step.i == i {
      assert (oks + [step.ok])[..|oks|] == oks;
    } else {
      assert oks + [] == oks;
    }
  }

  lemma {:induction false} AfterInParts(kind: Kind, pc: Pc, a: seq<bool>, b: seq<bool>)
    ensures After(kind, pc, a + b) == After(kind, After(kind, pc, a), b)
  {
    if b == [] {
      assert a + b == a;
    } else {
      assert (a + b)[..|a + b| - 1] == a + b[..|b| - 1];
      AfterInParts(kind, pc, a, b[..|b| - 1]);
    }
  }

  lemma AfterOne(kind: Kind, pc: Pc, ok: bool)
    ensures After(kind, pc, [ok]) == if Working(pc) then LocalNext(kind, pc, true, ok) else pc
  {
    assert [ok][..0] == [];
    assert After(kind, pc, []) == pc;
  }

  function Failures(n: nat): seq<bool> {
    seq(n, _ => false)
  }

  lemma {:induction false} FailedAttempts(n: nat)
    requires n <= 3
    ensures After(StorageManager, Preparing(0), Failures(n)) == Preparing(n)
    ensures After(StorageManager, Stepping(0), Failures(n)) == Stepping(n)
  {
    if n > 0 {
      FailedAttempts(n - 1);
      assert Failures(n)[..n - 1] == Failures(n - 1);
    }
  }

  /** The averages' consumer goes straight to its next iteration. */
  lemma AveragesNeedOneStatement(ok: bool)
    ensures After(DataManager, Using, [ok]) == Top
  {
    AfterOne(DataManager, Using, ok);
  }

  /** The other one makes attempts to prepare a statement until one succeeds, and gives the reading up
      exactly after three failures. */
  lemma PreparesAtMostThrice(x: bool, n: nat, y: bool)
    requires n <= 3
    ensures After(StorageManager, Using, [x] + Failures(n)) == Preparing(n)
    ensures After(StorageManager, Using, [x] + Failures(n) + [y]) == if n == 3 then Top else if y then Binding else Preparing(n + 1)
  {
    AfterOne(StorageManager, Using, x);
    AfterInParts(StorageManager, Using, [x], Failures(n));
    FailedAttempts(n);
    AfterInParts(StorageManager, Using, [x] + Failures(n), [y]);
    AfterOne(StorageManager, Preparing(n), y);
  }

  /** A prepared statement is bound once, stepped until that succeeds but not more than three times,
      not at all if it was not bound, and finalized in any case. */
  lemma FinalizesInAnyCase(n: nat, y: bool, z: bool)
    requires n <= 3
    ensures After(StorageManager, Binding, [false]) == Finalizing
    ensures After(StorageManager, Binding, [true] + Failures(n)) == Stepping(n)
    ensures After(StorageManager, Binding, [true] + Failures(n) + [y]) == if n == 3 || y then Finalizing else Stepping(n + 1)
    ensures After(StorageManager, Finalizing, [z]) == Top
  {
    AfterOne(StorageManager, Binding, false);
    AfterOne(StorageManager, Binding, true);
    AfterInParts(StorageManager, Binding, [true], Failures(n));
    FailedAttempts(n);
    AfterInParts(StorageManager, Binding, [true] + Failures(n), [y]);
    AfterOne(StorageManager, Stepping(n), y);
    AfterOne(StorageManager, Finalizing, z);
  }
}
