/** What one undisturbed iteration of the connection manager does to the two tables, from any state of
    TableProtocol between two iterations with the mutex free. */
module TableRuns {
  import opened Common
  import opened Sequences
  import opened KeepAlive
  import opened TableProtocol

  /** A run can begin at any time. */
  lemma BeginsAt(now: int) returns (s: State)
    ensures Init(s) && s.now == now
  {
    s := State([], [], Top, Testing, false, now, None, [], 0);
  }

  ghost predicate Reaches(s: State, t: State) {
    exists run: seq<State>, steps: seq<Step> :: IsRun(run, steps) && run[0] == s && run[|steps|] == t
  }

  lemma ReachesItself(s: State)
    ensures Reaches(s, s)
  {
    assert IsRun([s], []);
  }

  lemma Do(s: State, t: State, step: Step) returns (u: State)
    requires Reaches(s, t) && Enabled(t, step)
    ensures u == Apply(t, step) && Reaches(s, u)
  {
    u := Apply(t, step);
    var run: seq<State>, steps: seq<Step> :| IsRun(run, steps) && run[0] == s && run[|steps|] == t;
    assert IsRun(run + [u], steps + [step]);
  }

  /** From client i on, nobody is ready: the manager goes back to its loop. */
  lemma {:induction false} PassesOver(s: State, t: State) returns (u: State)
    requires Reaches(s, t) && t.manager.AtClient? && t.manager.i <= |t.fds|
    requires forall k :: t.manager.i <= k < |t.fds| ==> t.fds[k] !in t.manager.ready
    ensures u == t.(manager := Top) && Reaches(s, u)
    decreases |t.fds| - t.manager.i
  {
    u := Do(s, t, Visit(false));
    if t.manager.i < |t.fds| {
      u := PassesOver(s, u);
    }
  }

  /** A new client with descriptor fd connects. */
  lemma Connects(s: State, t: State, fd: int) returns (u: State)
    requires Reaches(s, t) && t.manager == Top && !t.flag && MutexFree(t) && fd !in t.fds && |t.fds| < MAX_SENSORS
    ensures u == t.(fds := t.fds + [fd], live := t.live + [Entry(fd, t.now, 1)]) && Reaches(s, u)
  {
    u := Do(s, t, Test);
    u := Do(s, u, Select({}, true));
    u := Do(s, u, Accept(Some(fd)));
    u := Do(s, u, Track);
    u := Do(s, u, Enter);
    u := PassesOver(s, u);
  }

  /** From client k up to client i only i is ready. */
  lemma {:induction false} PassesTo(s: State, t: State, i: nat) returns (u: State)
    requires Reaches(s, t) && t.manager.AtClient? && t.manager.i <= i < |t.fds|
    requires forall k :: t.manager.i <= k < i ==> t.fds[k] !in t.manager.ready
    ensures u == t.(manager := AtClient(i, t.manager.ready)) && Reaches(s, u)
    decreases i - t.manager.i
  {
    if t.manager.i == i {
      u := t;
    } else {
      u := Do(s, t, Visit(false));
      u := PassesTo(s, u, i);
    }
  }

  /** Client i sends a reading: `mid` is the moment its entry is to be refreshed. */
  lemma Reports(s: State, t: State, i: nat) returns (mid: State, u: State)
    requires Reaches(s, t) && t.manager == Top && !t.flag && MutexFree(t) && i < |t.fds| && Distinct(t.fds)
    ensures mid == t.(manager := Refreshing(i, {t.fds[i]})) && Reaches(s, mid)
    ensures u == t.(live := Refreshed(t.live, i, t.now)) && Reaches(mid, u) && Reaches(s, u)
  {
    u := Do(s, t, Test);
    u := Do(s, u, Select({t.fds[i]}, false));
    u := Do(s, u, Enter);
    u := PassesTo(s, u, i);
    mid := Do(s, u, Visit(true));
    u := Do(s, mid, Refresh);
    u := PassesOver(s, u);
    ReachesItself(mid);
    var v := Do(mid, mid, Refresh);
    v := PassesOver(mid, v);
  }

  /** A new client when the table is full: nothing changes. */
  lemma IsRefused(s: State, t: State, fd: int) returns (u: State)
    requires Reaches(s, t) && t.manager == Top && !t.flag && fd !in t.fds && |t.fds| >= MAX_SENSORS
    ensures u == t && Reaches(s, u)
  {
    u := Do(s, t, Test);
    u := Do(s, u, Select({}, true));
    u := Do(s, u, Accept(Some(fd)));
    u := Do(s, u, Enter);
    u := PassesOver(s, u);
  }

  /** Client i is at end of file, or its connection is broken: it leaves both tables. */
  lemma Disconnects(s: State, t: State, i: nat) returns (u: State)
    requires Reaches(s, t) && t.manager == Top && !t.flag && MutexFree(t) && i < |t.fds| && Distinct(t.fds)
    ensures u == t.(fds := RemoveAt(t.fds, i), live := Removed(t.live, i), split := SplitAfterRemove(t.split, i))
    ensures Reaches(s, u)
  {
    u := Do(s, t, Test);
    u := Do(s, u, Select({t.fds[i]}, false));
    u := Do(s, u, Enter);
    u := PassesTo(s, u, i);
    u := Do(s, u, Visit(false));
    u := Do(s, u, Remove);
    u := Do(s, u, Shift);
    u := PassesOver(s, u);
  }

  /** Once the signal has come the manager empties the shared table and ends. */
  lemma CleansUp(s: State, t: State) returns (u: State)
    requires Reaches(s, t) && t.manager == Top && MutexFree(t)
    ensures u == t.(flag := true, live := [], manager := Ended) && Reaches(s, u)
  {
    u := Do(s, t, SigInt);
    u := Do(s, u, Test);
    u := Do(s, u, CleanUp);
  }

  /** Once the flag is set the keep-alive loop ends with the sweep it is in or about to make. */
  lemma {:induction false} KeeperReturns(s: State, t: State) returns (u: State)
    requires Reaches(s, t) && t.flag && (t.keeper.Sweeping? ==> t.keeper.j <= |t.live|)
    ensures Reaches(s, u) && u.keeper == Returned && u.fds == t.fds && u.manager == t.manager
    decreases match t.keeper case Returned => 0 case Testing => 1 case Sweeping(j) => 2 case Sleeping(_) => 3,
              if t.keeper.Sweeping? && t.keeper.j <= |t.live| then |t.live| - t.keeper.j else 0
  {
    if t.keeper == Returned {
      u := t;
    } else {
      u := Do(s, t, if t.keeper == Testing then KeeperTest else if t.keeper.Sleeping? then KeeperLock
                    else if t.keeper.j < |t.live| then KeeperVisit else KeeperUnlock);
      u := KeeperReturns(s, u);
    }
  }

  // ---------- both loops end ----------

  /** How many statements the manager can still execute once the flag is set. */
  function ManagerLeft(pc: ManagerPc, clients: nat): (n: nat)
    requires pc.AtClient? ==> pc.i <= clients
    requires pc.Refreshing? || pc.Closing? || pc.Shifting? ==> pc.i < clients
  {
    match pc
    case Ended => 0
    case CleaningUp => 1
    case Top => 2
    case Entering(_) => 3
    case Selecting => 4
    case Tracking(_, _) => 5
    case Accepting(_) => 6
    case AtClient(i, _) => 3 * (clients - i) + 3
    case Closing(i, _) => 3 * (clients - i) + 2
    case Shifting(i, _) => 3 * (clients - i) + 1
    case Refreshing(i, _) => 3 * (clients - i) + 1
  }

  /** And the keep-alive loop. */
  function KeeperLeft(pc: KeeperPc, entries: nat): (n: nat)
    requires pc.Sweeping? ==> pc.j <= entries
  {
    match pc
    case Returned => 0
    case Testing => 1
    case Sweeping(j) => entries - j + 2
    case Sleeping(_) => entries + 3
  }

  function BothLeft(s: State): nat
    requires InBounds(s)
  {
    ManagerLeft(s.manager, |s.fds|) + KeeperLeft(s.keeper, |s.live|)
  }

  /** With the flag set every statement of the two threads brings both ends nearer. */
  lemma EndsComeNearer(s: State, step: Step)
    requires Enabled(s, step) && InBounds(s) && s.flag
    ensures InBounds(Apply(s, step)) && Apply(s, step).flag
    ensures BothLeft(Apply(s, step)) + (if step.Tick? || step.SigInt? then 0 else 1) <= BothLeft(s)
  {
    InBoundsKept(s, step);
  }

  /** How many statements the two threads execute. */
  function Executed(steps: seq<Step>): nat {
    if steps == [] then 0
    else
      var n := |steps| - 1;
      Executed(steps[..n]) + (if steps[n].Tick? || steps[n].SigInt? then 0 else 1)
  }

  lemma {:induction false} ExecutedBounded(run: seq<State>, steps: seq<Step>, n: nat)
    requires IsRun(run, steps) && n < |run| && InBounds(run[0]) && run[0].flag
    ensures InBounds(run[n]) && run[n].flag && BothLeft(run[n]) + Executed(steps[..n]) <= BothLeft(run[0])
  {
    if n > 0 {
      ExecutedBounded(run, steps, n - 1);
      EndsComeNearer(run[n - 1], steps[n - 1]);
      assert steps[..n][..n - 1] == steps[..n - 1];
    }
  }

  /** And as long as one of them has not ended one of them can move. */
  lemma OneCanMove(s: State) returns (step: Step)
    requires InBounds(s) && s.flag && BothLeft(s) > 0
    ensures Enabled(s, step) && !step.Tick? && !step.SigInt?
  {
    if s.keeper != Returned {
      step := if s.keeper == Testing then KeeperTest else if s.keeper.Sleeping? then KeeperLock
        else if s.keeper.j < |s.live| then KeeperVisit else KeeperUnlock;
    } else {
      step := match s.manager
        case Top => Test
        case Selecting => SelectNothing
        case Accepting(_) => Accept(None)
        case Tracking(_, _) => Track
        case Entering(_) => Enter
        case AtClient(_, _) => Visit(false)
        case Refreshing(_, _) => Refresh
        case Closing(_, _) => Remove
        case Shifting(_, _) => Shift
        case CleaningUp => CleanUp
        case Ended => Test;
    }
  }

  /** From any moment m at which the flag is set the two threads execute at most 206 more statements.
      As long as they have not both ended one of them can move. */
  lemma BothLoopsEndQuickly(run: seq<State>, steps: seq<Step>, m: nat)
    requires IsRun(run, steps) && Init(run[0]) && m < |run| && run[m].flag
    ensures InBounds(run[|steps|]) && BothLeft(run[|steps|]) + Executed(steps[m..]) <= 206
    ensures (run[|steps|].manager == Ended && run[|steps|].keeper == Returned) <==>
      forall step :: !Enabled(run[|steps|], step) || step.Tick? || step.SigInt?
  {
    InBoundsAlways(run, steps, m);
    var part, rest := run[m..], steps[m..];
    forall k | 0 <= k < |rest| ensures Enabled(part[k], rest[k]) && part[k + 1] == Apply(part[k], rest[k]) {
      assert part[k] == run[m + k] && part[k + 1] == run[m + k + 1] && rest[k] == steps[m + k];
    }
    ExecutedBounded(part, rest, |rest|);
    assert rest[..|rest|] == rest;
    if BothLeft(run[|steps|]) > 0 {
      var step := OneCanMove(run[|steps|]);
    }
  }
}
