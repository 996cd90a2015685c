/** The shutdown protocol (main.c lines 92-121 against the consumers' loops): the broadcast frees
    every consumer, each consumer then ends within a fixed number of its own statements, and the
    drain loop cannot see an empty buffer when more readings are left than consumers to take them. */
module Shutdown {
  import opened Common
  import opened RingBuffer
  import opened BufferProtocol
  import opened BufferHistory

  // ---------- the main thread's drain loop ----------

  /** main.c:112-121: polls the buffer's count until it reads 0, at most POLLS times. */
  method WaitForDrain(counts: nat -> nat) returns (polls: nat, drained: bool)
    ensures drained <==> exists k: nat :: k < POLLS && counts(k) == 0
    ensures drained ==> 0 < polls <= POLLS && counts(polls - 1) == 0 && forall k: nat :: k < polls - 1 ==> counts(k) != 0
    ensures !drained ==> polls == POLLS
  {
    polls := 0;
    while polls < POLLS
      invariant polls <= POLLS && forall k: nat :: k < polls ==> counts(k) != 0
    {
      polls := polls + 1;
      if counts(polls - 1) == 0 {
        return polls, true;
      }
    }
    drained := false;
  }

  // ---------- nobody sleeps after the broadcast ----------

  /** The flag may have been set at any instant before; from the broadcast on no consumer waits,
      none is about to wait, and none ever will. */
  lemma BroadcastFreesEveryone(run: seq<State>, steps: seq<Step>, m: nat, n: nat)
    requires IsRun(run, steps) && m <= n < |run| && Init(run[0]) && Announced(run[m])
    ensures Announced(run[n]) && run[n].flag && Sleepers(run[n]) == {}
    ensures forall i :: 0 <= i < |run[n].cons| ==> !run[n].cons[i].pc.Deciding?
  {
    InvInitially(run[0]);
    InvFrom(run, steps, n);
    AnnouncedStays(run, steps, m, n);
  }

  /** The flag is set exactly by the signal; main only repeats what the handler has done. */
  lemma {:induction false} FlagNeedsSignal(run: seq<State>, steps: seq<Step>, n: nat)
    requires IsRun(run, steps) && n < |run| && Init(run[0])
    ensures run[n].flag <==> exists k :: 0 <= k < n && steps[k] == SigInt
  {
    if n > 0 {
      FlagNeedsSignal(run, steps, n - 1);
      assert run[n] == Apply(run[n - 1], steps[n - 1]);
      FlagAfter(run[n - 1], steps[n - 1]);
    }
  }

  lemma FlagAfter(s: State, step: Step)
    requires Enabled(s, step)
    ensures Apply(s, step).flag <==> s.flag || step == SigInt
  {
  }

  /** main has announced the shutdown exactly when it has broadcast while holding the mutex. */
  lemma {:induction false} AnnouncedByBroadcast(run: seq<State>, steps: seq<Step>, n: nat)
    requires IsRun(run, steps) && n < |run| && Init(run[0])
    ensures Announced(run[n]) <==> exists k :: 0 <= k < n && steps[k] == MainStep && run[k].main == Locked && run[k].owner == Main
  {
    InvInitially(run[0]);
    if n > 0 {
      AnnouncedByBroadcast(run, steps, n - 1);
      InvFrom(run, steps, n - 1);
      assert run[n] == Apply(run[n - 1], steps[n - 1]);
      AnnouncedAfter(run[n - 1], steps[n - 1]);
    }
  }

  lemma AnnouncedAfter(s: State, step: Step)
    requires Enabled(s, step)
    ensures Announced(Apply(s, step)) <==> Announced(s) || (step == MainStep && s.main == Locked)
  {
  }

  /** The counts main reads in its drain loop. */
  function Counts(run: seq<State>, steps: seq<Step>): seq<nat>
    requires |run| > |steps|
  {
    if steps == [] then []
    else
      var n := |steps| - 1;
      Counts(run, steps[..n]) + (if steps[n].MainStep? && run[n].main.Counting? then [|run[n].queue|] else [])
  }

  /** How far the drain loop is after reading these counts. */
  ghost predicate PollsFit(main: MainPc, counts: seq<nat>) {
    match main
    case Polling(k) => k == |counts| <= 100 && 0 !in counts
    case Counting(k) => k == |counts| < 100 && 0 !in counts
    case Finished =>
      if 0 in counts then counts[|counts| - 1] == 0 && 0 !in counts[..|counts| - 1] && |counts| <= 100 else |counts| == 100
    case _ => counts == []
  }

  /** In every run main stops polling at the first zero, or after 100 nonzero counts. */
  lemma {:induction false} PollsUntilZero(run: seq<State>, steps: seq<Step>, n: nat)
    requires IsRun(run, steps) && n < |run| && Init(run[0])
    ensures PollsFit(run[n].main, Counts(run, steps[..n]))
  {
    if n > 0 {
      PollsUntilZero(run, steps, n - 1);
      assert steps[..n][..n - 1] == steps[..n - 1];
      assert run[n] == Apply(run[n - 1], steps[n - 1]);
      MainFits(run[n - 1], steps[n - 1], Counts(run, steps[..n - 1]));
    }
  }

  lemma MainFits(s: State, step: Step, counts: seq<nat>)
    requires Enabled(s, step) && PollsFit(s.main, counts)
    ensures PollsFit(Apply(s, step).main, counts + (if step.MainStep? && s.main.Counting? then [|s.queue|] else []))
  {
    assert (counts + [|s.queue|])[..|counts|] == counts;
    assert counts + [] == counts;
  }

  lemma {:induction false} AnnouncedStays(run: seq<State>, steps: seq<Step>, m: nat, n: nat)
    requires IsRun(run, steps) && m <= n < |run| && Announced(run[m])
    ensures Announced(run[n])
  {
    if m < n {
      AnnouncedStays(run, steps, m, n - 1);
      assert run[n] == Apply(run[n - 1], steps[n - 1]);
    }
  }

  // ---------- each consumer's remaining work ----------

  const MAX_RANK := 18

  /** How many statements a consumer at `pc` can still execute once the flag is set. */
  function Rank(pc: Pc): (r: nat)
    requires Bounded(pc)
    ensures r <= MAX_RANK
    ensures r == 0 <==> pc == Left
  {
    match pc
    case Left => 0
    case Top => 1
    case Recheck => 1
    case Failed(_) => 1
    case Finalizing => 2
    case Stepping(k) => 3 + (MAX_RETRIES - k)
    case Binding => 7
    case Preparing(k) => 8 + (MAX_RETRIES - k)
    case Using => 12
    case Returning(_, _) => 13
    case Taking(_) => 14
    case Testing(_) => 15
    case Woken(_) => 16
    case Locking(_) => 16
    case Waiting(_) => 17
    case Retry(_) => 17
    case Deciding(_) => 18
  }

  /** With the flag set, a consumer's own step costs it rank, and no other step gives it any. */
  lemma RankFalls(s: State, step: Step, i: nat)
    requires Enabled(s, step) && RetriesBounded(s) && s.flag && i < |s.cons|
    ensures Apply(s, step).flag && RetriesBounded(Apply(s, step)) && |Apply(s, step).cons| == |s.cons|
    ensures Rank(Apply(s, step).cons[i].pc) + (if step.Own? && step.i == i then 1 else 0) <= Rank(s.cons[i].pc)
  {
    RetriesKept(s, step);
    if step.Own? && step.i == i {
      if Local(s.cons[i].pc, step.ok) {
        LocalRankFalls(s.cons[i].kind, s.cons[i].pc, step.ok);
      }
    }
  }

  lemma LocalRankFalls(kind: Kind, pc: Pc, ok: bool)
    requires Bounded(pc) && Local(pc, ok) && !pc.Left? && !pc.Waiting?
    ensures Bounded(LocalNext(kind, pc, true, ok)) && Rank(LocalNext(kind, pc, true, ok)) < Rank(pc)
  {
  }

  lemma {:induction false} OwnStepsCostRank(run: seq<State>, steps: seq<Step>, i: nat, n: nat)
    requires IsRun(run, steps) && RetriesBounded(run[0]) && run[0].flag && i < |run[0].cons| && n < |run|
    ensures run[n].flag && RetriesBounded(run[n]) && |run[n].cons| == |run[0].cons|
    ensures Rank(run[n].cons[i].pc) + OwnSteps(steps[..n], i) <= Rank(run[0].cons[i].pc)
  {
    if n > 0 {
      OwnStepsCostRank(run, steps, i, n - 1);
      RankFalls(run[n - 1], steps[n - 1], i);
      assert steps[..n][..n - 1] == steps[..n - 1];
    }
  }

  /** From any moment m at which the flag is set, whatever the other threads do, a consumer executes
      at most Rank <= 18 more statements, retry loops included; when it has, it has left. */
  lemma ConsumersEndQuickly(run: seq<State>, steps: seq<Step>, m: nat, i: nat)
    requires IsRun(run, steps) && Init(run[0]) && m < |run| && run[m].flag && i < |run[m].cons|
    ensures i < |run[|steps|].cons| && Bounded(run[m].cons[i].pc) && Bounded(run[|steps|].cons[i].pc)
    ensures Rank(run[|steps|].cons[i].pc) + OwnSteps(steps[m..], i) <= Rank(run[m].cons[i].pc) <= MAX_RANK
  {
    InvInitially(run[0]);
    InvFrom(run, steps, m);
    SuffixIsRun(run, steps, m);
    OwnStepsCostRank(run[m..], steps[m..], i, |steps| - m);
    assert steps[m..][..|steps| - m] == steps[m..];
  }

  // ---------- nobody is blocked for good ----------

  /** The step of whoever holds the buffer's mutex. */
  ghost function HolderStep(s: State): Step
    requires s.owner != Nobody
  {
    match s.owner
    case Producer => Produce(Reading(0, 0.0, 0), Sleepers(s))
    case Main => MainStep
    case Consumer(i) => Own(i, true)
  }

  /** How many of its own steps the holder is away from releasing the mutex. */
  function HoldLeft(s: State): nat {
    match s.owner
    case Nobody => 0
    case Producer => if s.prod.Pushing? then 3 else if s.prod == Inserted then 2 else 1
    case Main => if s.main == Locked then 2 else 1
    case Consumer(i) =>
      if i >= |s.cons| then 0
      else if s.cons[i].pc.Testing? then 3 else if s.cons[i].pc.Taking? then 2 else 1
  }

  predicate HoldersOwn(s: State, step: Step) {
    match s.owner
    case Nobody => false
    case Producer => step.Produce?
    case Main => step.MainStep?
    case Consumer(i) => step.Own? && step.i == i
  }

  /** Every step of the holder brings the release nearer, and no other thread's step delays it. */
  lemma HoldShrinks(s: State, step: Step)
    requires Inv(s) && Enabled(s, step) && s.owner != Nobody
    ensures var s' := Apply(s, step);
      && HoldLeft(s') + (if HoldersOwn(s, step) then 1 else 0) <= HoldLeft(s) <= 3
      && (s'.owner == s.owner || (s'.owner == Nobody && HoldersOwn(s, step)))
  {
    MutexKept(s, step);
  }

  function HolderSteps(run: seq<State>, steps: seq<Step>): nat
    requires |run| > |steps|
  {
    if steps == [] then 0
    else
      var n := |steps| - 1;
      HolderSteps(run, steps[..n]) + (if HoldersOwn(run[n], steps[n]) then 1 else 0)
  }

  /** Whatever the other threads do, the holder executes at most two more statements while it keeps
      the mutex: its third one, at the latest, is the unlock. */
  lemma {:induction false} MutexIsReleased(run: seq<State>, steps: seq<Step>, n: nat)
    requires IsRun(run, steps) && n < |run| && Inv(run[0])
    requires forall k :: 0 <= k <= n ==> run[k].owner != Nobody
    ensures run[n].owner == run[0].owner && Inv(run[n])
    ensures 0 < HoldLeft(run[n]) && HolderSteps(run, steps[..n]) + HoldLeft(run[n]) <= HoldLeft(run[0]) <= 3
  {
    InvFrom(run, steps, n);
    HolderAdvances(run[0]);
    HolderAdvances(run[n]);
    if n > 0 {
      MutexIsReleased(run, steps, n - 1);
      HoldShrinks(run[n - 1], steps[n - 1]);
      assert steps[..n][..n - 1] == steps[..n - 1];
    }
  }

  /** The holder is never blocked, and its step brings it nearer to releasing the mutex. */
  lemma HolderAdvances(s: State)
    requires Inv(s) && s.owner != Nobody
    ensures Enabled(s, HolderStep(s))
    ensures HoldLeft(Apply(s, HolderStep(s))) < HoldLeft(s) <= 3
    ensures HoldLeft(Apply(s, HolderStep(s))) == 0 <==> Apply(s, HolderStep(s)).owner == Nobody
  {
    MutexKept(s, HolderStep(s));
  }

  /** After the broadcast a consumer that has not left can execute its next statement, or is only
      waiting for a mutex that its holder is about to release. */
  lemma NoConsumerIsStuck(run: seq<State>, steps: seq<Step>, n: nat, i: nat)
    requires IsRun(run, steps) && n < |run| && Init(run[0]) && Announced(run[n])
    requires i < |run[n].cons| && run[n].cons[i].pc != Left
    ensures Enabled(run[n], Own(i, true)) || (run[n].owner != Nobody && Enabled(run[n], HolderStep(run[n])))
  {
    InvInitially(run[0]);
    InvFrom(run, steps, n);
    if run[n].owner != Nobody {
      HolderAdvances(run[n]);
    }
  }

  // ---------- what the drain loop can hope for ----------

  /** A consumer that may still take one reading once the flag is set. */
  predicate MayTake(pc: Pc) {
    (pc.Retry? && pc.r < MAX_RETRIES) || pc.Locking? || pc.Testing? || pc.Deciding? || pc.Waiting? || pc.Woken? || pc.Taking?
  }

  ghost function Armed(s: State): set<nat> {
    set i: nat | i < |s.cons| && MayTake(s.cons[i].pc)
  }

  /** How many readings are queued once the producer's insertion under way, if any, has happened. */
  function Due(s: State): nat {
    if s.prod.Pushing? then |Newest(s.queue + [s.prod.data], s.size)| else |s.queue|
  }

  /** With the flag set, a reading leaves the queue for good only together with a consumer's last
      chance to take one. */
  lemma QueueOutlastsArmed(s: State, step: Step)
    requires Enabled(s, step) && s.flag && |s.queue| <= s.size && MutualExclusion(s)
    ensures Due(Apply(s, step)) - |Armed(Apply(s, step))| >= Due(s) - |Armed(s)|
    ensures Apply(s, step).flag && |Apply(s, step).queue| <= s.size == Apply(s, step).size
  {
    if step.Own? {
      QueueOutlastsOwnStep(s, step.i, step.ok);
    } else {
      var s' := Apply(s, step);
      assert forall j :: 0 <= j < |s.cons| ==> MayTake(s'.cons[j].pc) == MayTake(s.cons[j].pc);
      assert Armed(s') == Armed(s);
    }
  }

  lemma QueueOutlastsOwnStep(s: State, i: nat, ok: bool)
    requires Enabled(s, Own(i, ok)) && s.flag && |s.queue| <= s.size && MutualExclusion(s)
    ensures Due(OwnStep(s, i, ok)) - |Armed(OwnStep(s, i, ok))| >= Due(s) - |Armed(s)|
    ensures OwnStep(s, i, ok).flag && |OwnStep(s, i, ok).queue| <= s.size == OwnStep(s, i, ok).size
  {
    var s' := OwnStep(s, i, ok);
    assert forall j :: 0 <= j < |s.cons| && j != i ==> s'.cons[j] == s.cons[j];
    ArmedAfterMove(s, s', i);
  }

  lemma ArmedAfterMove(s: State, s': State, i: nat)
    requires i < |s.cons| == |s'.cons| && forall j :: 0 <= j < |s.cons| && j != i ==> s'.cons[j] == s.cons[j]
    ensures !MayTake(s'.cons[i].pc) && MayTake(s.cons[i].pc) ==> |Armed(s')| == |Armed(s)| - 1
    ensures MayTake(s'.cons[i].pc) == MayTake(s.cons[i].pc) ==> Armed(s') == Armed(s)
  {
    if !MayTake(s'.cons[i].pc) && MayTake(s.cons[i].pc) {
      assert Armed(s') == Armed(s) - {i};
    }
    if MayTake(s'.cons[i].pc) == MayTake(s.cons[i].pc) {
      assert Armed(s') == Armed(s);
    }
  }

  /** How many readings a consumer has taken or may still take once the flag is set. */
  function Allowance(w: Worker): nat {
    |w.taken| + (if MayTake(w.pc) then 1 else 0)
  }

  lemma AllowanceNeverGrows(s: State, step: Step, i: nat)
    requires Enabled(s, step) && s.flag && i < |s.cons|
    ensures Apply(s, step).flag && |Apply(s, step).cons| == |s.cons|
    ensures Allowance(Apply(s, step).cons[i]) <= Allowance(s.cons[i])
  {
  }

  /** Once the flag is set, whatever happens, each consumer takes at most one more reading. */
  lemma {:induction false} AtMostOneMoreReading(run: seq<State>, steps: seq<Step>, m: nat, n: nat, i: nat)
    requires IsRun(run, steps) && m <= n < |run| && run[m].flag && i < |run[m].cons|
    ensures run[n].flag && |run[n].cons| == |run[m].cons|
    ensures Allowance(run[n].cons[i]) <= Allowance(run[m].cons[i])
    ensures |run[n].cons[i].taken| <= |run[m].cons[i].taken| + 1
  {
    if m < n {
      AtMostOneMoreReading(run, steps, m, n - 1, i);
      AllowanceNeverGrows(run[n - 1], steps[n - 1], i);
    }
  }

  ghost predicate Reaches(s: State, t: State) {
    exists run: seq<State>, steps: seq<Step> :: IsRun(run, steps) && run[0] == s && run[|steps|] == t
  }

  lemma ReachesItself(s: State)
    ensures Reaches(s, s)
  {
    assert IsRun([s], []);
  }

  lemma ReachesOneMore(s: State, t: State, step: Step)
    requires Reaches(s, t) && Enabled(t, step)
    ensures Reaches(s, Apply(t, step))
  {
    var run: seq<State>, steps: seq<Step> :| IsRun(run, steps) && run[0] == s && run[|steps|] == t;
    var run', steps' := run + [Apply(t, step)], steps + [step];
    assert IsRun(run', steps');
  }

  /** More readings than consumers to take them, some of them queued already. */
  ghost predicate Overdue(s: State) {
    Due(s) > |Armed(s)| && s.queue != []
  }

  lemma {:induction false} QueueOutlastsArmedAlong(run: seq<State>, steps: seq<Step>, n: nat)
    requires IsRun(run, steps) && n < |run| && Inv(run[0]) && run[0].flag && |run[0].queue| <= run[0].size
    ensures Inv(run[n]) && run[n].flag && |run[n].queue| <= run[n].size
    ensures Due(run[n]) - |Armed(run[n])| >= Due(run[0]) - |Armed(run[0])|
    ensures Overdue(run[0]) ==> Overdue(run[n])
  {
    if n > 0 {
      QueueOutlastsArmedAlong(run, steps, n - 1);
      InvKept(run[n - 1], steps[n - 1]);
      QueueOutlastsArmed(run[n - 1], steps[n - 1]);
    }
  }

  /** Steps that take consumer i from outside the mutex to a lock attempt. */
  lemma ReachesLock(s: State, t: State, i: nat) returns (u: State)
    requires Reaches(s, t) && i < |t.cons| && MayTake(t.cons[i].pc) && !Holds(t.cons[i].pc)
    ensures Reaches(s, u) && i < |u.cons| && (u.cons[i].pc.Locking? || u.cons[i].pc.Woken?)
    ensures u == t.(cons := u.cons) && u.cons == t.cons[i := t.cons[i].(pc := u.cons[i].pc)]
  {
    if t.cons[i].pc.Retry? {
      u := Apply(t, Own(i, true));
      ReachesOneMore(s, t, Own(i, true));
    } else if t.cons[i].pc.Waiting? {
      u := Apply(t, Spurious(i));
      ReachesOneMore(s, t, Spurious(i));
    } else {
      u := t;
      assert t.cons == t.cons[i := t.cons[i]];
    }
  }

  /** Lock, test, take, unlock. */
  lemma LockedTake(l: State, i: nat) returns (a: State, b: State, c: State, u: State)
    requires i < |l.cons| && (l.cons[i].pc.Locking? || l.cons[i].pc.Woken?)
    requires l.owner == Nobody && l.flag && l.queue != []
    ensures Enabled(l, Own(i, true)) && a == Apply(l, Own(i, true))
    ensures Enabled(a, Own(i, true)) && b == Apply(a, Own(i, true))
    ensures Enabled(b, Own(i, true)) && c == Apply(b, Own(i, true))
    ensures Enabled(c, Own(i, true)) && u == Apply(c, Own(i, true))
    ensures u.queue == l.queue[1..] && u.cons == l.cons[i := u.cons[i]] && u.cons[i].pc == Using
    ensures u == l.(queue := u.queue, log := u.log, cons := u.cons)
  {
    a := PopStep(l, i);
    b := PopStep(a, i);
    c := PopStep(b, i);
    u := PopStep(c, i);
  }

  lemma ReachesFourMore(s: State, l: State, a: State, b: State, c: State, u: State, step: Step)
    requires Reaches(s, l) && Enabled(l, step) && a == Apply(l, step)
    requires Enabled(a, step) && b == Apply(a, step) && Enabled(b, step) && c == Apply(b, step)
    requires Enabled(c, step) && u == Apply(c, step)
    ensures Reaches(s, u)
  {
    ReachesOneMore(s, l, step);
    ReachesOneMore(s, a, step);
    ReachesOneMore(s, b, step);
    ReachesOneMore(s, c, step);
  }

  /** An armed consumer can take the oldest reading and release the mutex, all on its own. */
  lemma ArmedCanTake(s: State, t: State, i: nat) returns (u: State)
    requires Reaches(s, t) && i in Armed(t) && t.owner == Nobody && MutualExclusion(t) && t.flag && t.queue != []
    ensures Reaches(s, u) && u.owner == Nobody && MutualExclusion(u) && u.flag
    ensures u.queue == t.queue[1..] && Armed(u) == Armed(t) - {i}
  {
    var l := ReachesLock(s, t, i);
    var a, b, c;
    a, b, c, u := LockedTake(l, i);
    ReachesFourMore(s, l, a, b, c, u, Own(i, true));
    assert forall j :: 0 <= j < |t.cons| && j != i ==> u.cons[j] == t.cons[j];
  }

  lemma {:induction false} ArmedCanDrain(s: State, t: State) returns (u: State)
    requires Reaches(s, t) && t.owner == Nobody && MutualExclusion(t) && t.flag
    requires |t.queue| <= |Armed(t)|
    ensures Reaches(s, u) && u.queue == []
    decreases |t.queue|
  {
    if t.queue == [] {
      u := t;
    } else {
      assert Armed(t) != {};
      var i :| i in Armed(t);
      var v := ArmedCanTake(s, t, i);
      u := ArmedCanDrain(s, v);
    }
  }

  /** The holder's next statement cannot spoil what the armed consumers can do. */
  lemma HolderLeavesEnough(s: State)
    requires Inv(s) && s.owner != Nobody && s.flag && Due(s) <= |Armed(s)|
    ensures Enabled(s, HolderStep(s))
    ensures Due(Apply(s, HolderStep(s))) <= |Armed(Apply(s, HolderStep(s)))| && Apply(s, HolderStep(s)).flag
  {
    HolderAdvances(s);
    var s' := Apply(s, HolderStep(s));
    if s.owner.Consumer? {
      assert forall j :: 0 <= j < |s.cons| && j != s.owner.i ==> s'.cons[j] == s.cons[j];
      ArmedAfterMove(s, s', s.owner.i);
    } else {
      assert forall j :: 0 <= j < |s.cons| ==> MayTake(s'.cons[j].pc) == MayTake(s.cons[j].pc);
      assert Armed(s') == Armed(s);
    }
  }

  lemma {:induction false} HolderCanRelease(s: State, t: State) returns (u: State)
    requires Reaches(s, t) && Inv(t) && t.flag && Due(t) <= |Armed(t)|
    ensures Reaches(s, u) && Inv(u) && u.flag && Due(u) <= |Armed(u)| && u.owner == Nobody
    decreases HoldLeft(t)
  {
    if t.owner == Nobody {
      u := t;
    } else {
      HolderLeavesEnough(t);
      HolderAdvances(t);
      InvKept(t, HolderStep(t));
      ReachesOneMore(s, t, HolderStep(t));
      u := HolderCanRelease(s, Apply(t, HolderStep(t)));
    }
  }

  /** Once the flag is set, whoever holds the mutex, the buffer is or can still become empty exactly
      when it is empty now or there are no more readings due than consumers that may take one. If
      there are more, every poll of the drain loop reads a nonzero count, so the loop makes all its
      polls and main goes on with readings left. */
  lemma DrainableExactly(boot: State, s: State)
    requires Init(boot) && Reaches(boot, s) && s.flag
    ensures (exists t :: Reaches(s, t) && t.queue == []) <==> s.queue == [] || Due(s) <= |Armed(s)|
    ensures Due(s) > |Armed(s)| ==>
      forall t :: Reaches(s, t) && t.main.Counting? ==> MainNext(t).main == Polling(t.main.polls + 1)
  {
    var run0: seq<State>, steps0: seq<Step> :| IsRun(run0, steps0) && run0[0] == boot && run0[|steps0|] == s;
    InvInitially(boot);
    InvFrom(run0, steps0, |steps0|);
    AccountedAlways(run0, steps0, |steps0|);
    forall t | Reaches(s, t)
      ensures Inv(t) && Due(t) - |Armed(t)| >= Due(s) - |Armed(s)| && (Overdue(s) ==> t.queue != [])
    {
      var run: seq<State>, steps: seq<Step> :| IsRun(run, steps) && run[0] == s && run[|steps|] == t;
      QueueOutlastsArmedAlong(run, steps, |steps|);
    }
    ReachesItself(s);
    if Due(s) <= |Armed(s)| {
      var t := HolderCanRelease(s, s);
      t := ArmedCanDrain(s, t);
    }
  }
}
