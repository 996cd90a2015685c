/** That readings get through as long as shutdown has not begun: the producer can always push, and a
    queued reading can always be taken without any spurious wakeup. */
module BufferProgress {
  import opened Common
  import opened RingBuffer
  import opened BufferProtocol
  import opened Shutdown

  /** A step of the program itself: no spurious wakeup, no signal. */
  predicate Quiet(step: Step) {
    !step.Spurious? && !step.SigInt?
  }

  ghost predicate ReachesQuietly(s: State, t: State) {
    exists run: seq<State>, steps: seq<Step> ::
      IsRun(run, steps) && run[0] == s && run[|steps|] == t && forall k :: 0 <= k < |steps| ==> Quiet(steps[k])
  }

  lemma StaysQuietly(s: State)
    ensures ReachesQuietly(s, s)
  {
    assert IsRun([s], []);
  }

  lemma OneMoreQuietly(s: State, t: State, step: Step)
    requires ReachesQuietly(s, t) && Enabled(t, step) && Quiet(step)
    ensures ReachesQuietly(s, Apply(t, step))
  {
    var run: seq<State>, steps: seq<Step> :|
      IsRun(run, steps) && run[0] == s && run[|steps|] == t && forall k :: 0 <= k < |steps| ==> Quiet(steps[k]);
    var run', steps' := run + [Apply(t, step)], steps + [step];
    assert IsRun(run', steps');
  }

  /** A run can begin with a buffer of any size and any number of consumers of either kind. */
  lemma BeginsWithAny(size: Pos, kinds: seq<Kind>) returns (s: State)
    ensures Init(s) && s.size == size && |s.cons| == |kinds|
    ensures forall i :: 0 <= i < |kinds| ==> s.cons[i] == Worker(kinds[i], Top, [])
  {
    var cons := seq(|kinds|, i requires 0 <= i < |kinds| => Worker(kinds[i], Top, []));
    s := State(size, [], false, Nobody, cons, Idle, Keeping, [], []);
  }

  // ---------- pushing ----------

  /** In every reachable state with the mutex free the producer can push any reading: it becomes the
      newest of the queue, and if consumers are waiting one at least is woken. */
  lemma ProducerCanPush(run: seq<State>, steps: seq<Step>, n: nat, data: Reading, woken: set<nat>) returns (t: State)
    requires IsRun(run, steps) && n < |run| && Init(run[0]) && run[n].owner == Nobody && SignalMayWake(run[n], woken)
    ensures ReachesQuietly(run[n], t) && t.owner == Nobody && t.prod == Idle
    ensures t.pushed == run[n].pushed + [data] && t.queue == Newest(run[n].queue + [data], run[n].size)
    ensures Sleepers(t) == Sleepers(run[n]) - woken && (Sleepers(run[n]) != {} ==> woken != {})
  {
    var s := run[n];
    InvInitially(run[0]);
    InvFrom(run, steps, n);
    StaysQuietly(s);
    t := Push(s, s, data, woken);
  }

  lemma Push(s: State, t: State, data: Reading, woken: set<nat>) returns (u: State)
    requires ReachesQuietly(s, t) && t.owner == Nobody && t.prod == Idle && SignalMayWake(t, woken)
    ensures ReachesQuietly(s, u) && u.owner == Nobody && u.prod == Idle
    ensures u.pushed == t.pushed + [data] && u.queue == Newest(t.queue + [data], t.size)
    ensures Sleepers(u) == Sleepers(t) - woken
  {
    var step := Produce(data, woken);
    var locked := Apply(t, step);
    OneMoreQuietly(s, t, step);
    var inserted := Apply(locked, step);
    OneMoreQuietly(s, locked, step);
    SameConsumers(t, inserted);
    var signalled := Apply(inserted, step);
    OneMoreQuietly(s, inserted, step);
    SetsAfterSignal(inserted, woken);
    u := Apply(signalled, step);
    OneMoreQuietly(s, signalled, step);
    SameConsumers(signalled, u);
  }

  // ---------- taking ----------

  /** Since `s` some consumer has taken the reading that left the queue last. */
  predicate Taken(s: State, t: State) {
    |t.log| > |s.log| && t.log[|t.log| - 1].taker.Some?
  }

  /** Before shutdown, with a reading to take and somebody to take it. */
  ghost predicate Hungry(s: State) {
    Inv(s) && !s.flag && s.queue != [] && exists i :: 0 <= i < |s.cons| && s.cons[i].pc != Left
  }

  /** The holder of the mutex can be the producer, which makes no queue empty, or a consumer. */
  lemma HolderKeepsHungry(s: State)
    requires Hungry(s) && s.owner != Nobody
    ensures Enabled(s, HolderStep(s)) && HoldLeft(Apply(s, HolderStep(s))) < HoldLeft(s)
    ensures |Apply(s, HolderStep(s)).log| >= |s.log|
    ensures Taken(s, Apply(s, HolderStep(s))) || Hungry(Apply(s, HolderStep(s)))
  {
    HolderAdvances(s);
    var s' := Apply(s, HolderStep(s));
    InvKept(s, HolderStep(s));
    var i :| 0 <= i < |s.cons| && s.cons[i].pc != Left;
    assert s.owner != Main;
    assert s'.cons[i].pc != Left;
  }

  lemma {:induction false} MutexGetsFree(s: State, t: State) returns (u: State)
    requires ReachesQuietly(s, t) && Hungry(t) && |t.log| >= |s.log|
    ensures ReachesQuietly(s, u) && (Taken(s, u) || (Hungry(u) && u.owner == Nobody && |u.log| >= |s.log|))
    decreases HoldLeft(t)
  {
    if t.owner == Nobody {
      u := t;
    } else {
      HolderKeepsHungry(t);
      u := Apply(t, HolderStep(t));
      OneMoreQuietly(s, t, HolderStep(t));
      if !Taken(t, u) {
        u := MutexGetsFree(s, u);
      }
    }
  }

  /** No wakeup being lost, somebody is awake. */
  lemma SomebodyIsAwake(s: State) returns (i: nat)
    requires Hungry(s) && s.owner == Nobody
    ensures i < |s.cons| && s.cons[i].pc != Left && !s.cons[i].pc.Waiting?
  {
    var j: nat :| j < |s.cons| && s.cons[j].pc != Left;
    i := j;
    if s.cons[j].pc.Waiting? {
      assert j in Sleepers(s);
      assert Wakers(s) != {};
      i :| i in Wakers(s);
    }
  }

  /** How many statements a consumer is away from taking a reading, if all its calls succeed. */
  function Distance(pc: Pc): nat {
    match pc
    case Taking(_) => 1
    case Testing(_) => 2
    case Locking(_) => 3
    case Woken(_) => 3
    case Retry(r) => if r < MAX_RETRIES then 4 else 7
    case Recheck => 5
    case Top => 6
    case Finalizing => 7
    case Failed(_) => 8
    case Stepping(_) => 8
    case Binding => 9
    case Preparing(_) => 10
    case Using => 11
    case _ => 12
  }

  /** Consumer i is on its way to a reading, with the mutex free or its own. */
  ghost predicate Approaches(s: State, i: nat) {
    && MutualExclusion(s) && !s.flag && s.queue != [] && i < |s.cons|
    && s.cons[i].pc != Left && !s.cons[i].pc.Waiting? && !s.cons[i].pc.Deciding? && !s.cons[i].pc.Returning?
    && (s.owner == Nobody || s.owner == Consumer(i))
  }

  lemma GetsNearer(s: State, i: nat)
    requires Approaches(s, i)
    ensures Enabled(s, Own(i, true)) && |Apply(s, Own(i, true)).log| >= |s.log|
    ensures s.cons[i].pc.Taking? ==> Taken(s, Apply(s, Own(i, true)))
    ensures !s.cons[i].pc.Taking? ==>
      Approaches(Apply(s, Own(i, true)), i) && Distance(Apply(s, Own(i, true)).cons[i].pc) < Distance(s.cons[i].pc)
  {
    MutexKept(s, Own(i, true));
  }

  lemma {:induction false} AwakeCanTake(s: State, t: State, i: nat) returns (u: State)
    requires ReachesQuietly(s, t) && Approaches(t, i) && |t.log| >= |s.log|
    ensures ReachesQuietly(s, u) && Taken(s, u)
    decreases Distance(t.cons[i].pc)
  {
    GetsNearer(t, i);
    u := Apply(t, Own(i, true));
    OneMoreQuietly(s, t, Own(i, true));
    if !t.cons[i].pc.Taking? {
      u := AwakeCanTake(s, u, i);
    }
  }

  /** From every reachable state before shutdown in which a reading is queued and some consumer has not
      left, a run without spurious wakeups leads to a consumer's taking a reading. This is what no
      wakeup being lost is good for. */
  lemma QueuedReadingCanBeTaken(run: seq<State>, steps: seq<Step>, n: nat) returns (t: State)
    requires IsRun(run, steps) && n < |run| && Init(run[0]) && !run[n].flag && run[n].queue != []
    requires exists i :: 0 <= i < |run[n].cons| && run[n].cons[i].pc != Left
    ensures ReachesQuietly(run[n], t) && Taken(run[n], t)
  {
    InvInitially(run[0]);
    InvFrom(run, steps, n);
    StaysQuietly(run[n]);
    t := MutexGetsFree(run[n], run[n]);
    if !Taken(run[n], t) {
      var i := SomebodyIsAwake(t);
      t := AwakeCanTake(run[n], t, i);
    }
  }

  // ---------- announcing shutdown ----------

  lemma {:induction false} HolderReleases(s: State, t: State) returns (u: State)
    requires ReachesQuietly(s, t) && Inv(t) && t.flag && t.main == FlagSet
    ensures ReachesQuietly(s, u) && Inv(u) && u.flag && u.main == FlagSet && u.owner == Nobody
    decreases HoldLeft(t)
  {
    u := t;
    if t.owner != Nobody {
      assert t.owner != Main;
      HolderAdvances(t);
      InvKept(t, HolderStep(t));
      OneMoreQuietly(s, t, HolderStep(t));
      u := HolderReleases(s, Apply(t, HolderStep(t)));
    }
  }

  lemma MainBroadcasts(s: State, t: State) returns (u: State)
    requires ReachesQuietly(s, t) && Inv(t) && t.flag
    ensures ReachesQuietly(s, u) && Announced(u)
  {
    u := t;
    if u.main == Keeping {
      OneMoreQuietly(s, u, MainStep);
      InvKept(u, MainStep);
      u := Apply(u, MainStep);
    }
    if u.main == FlagSet {
      u := HolderReleases(s, u);
      OneMoreQuietly(s, u, MainStep);
      u := Apply(u, MainStep);
    }
    if u.main == Locked {
      OneMoreQuietly(s, u, MainStep);
      u := Apply(u, MainStep);
    }
  }

  /** In every reachable state the signal can come, and main can then announce the shutdown. */
  lemma ShutdownCanBeAnnounced(run: seq<State>, steps: seq<Step>, n: nat) returns (t: State)
    requires IsRun(run, steps) && n < |run| && Init(run[0])
    ensures Enabled(run[n], SigInt) && Apply(run[n], SigInt).flag
    ensures ReachesQuietly(Apply(run[n], SigInt), t) && Announced(t)
  {
    InvInitially(run[0]);
    InvFrom(run, steps, n);
    var s := Apply(run[n], SigInt);
    InvKept(run[n], SigInt);
    StaysQuietly(s);
    t := MainBroadcasts(s, s);
  }
}
