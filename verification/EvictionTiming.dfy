/** When the keep-alive loop evicts: bounds over whole runs of TableProtocol, when a client that keeps
    sending is safe, and the run in which one is evicted all the same. */
module EvictionTiming {
  import opened Common
  import opened Sequences
  import opened KeepAlive
  import opened TableProtocol
  import opened TableRuns

  ghost predicate InOrder(ts: seq<int>) {
    forall i, j :: 0 <= i <= j < |ts| ==> ts[i] <= ts[j]
  }

  ghost predicate Timed(s: State, boot: int) {
    && boot <= s.now
    && InOrder(s.begun) && (forall k :: 0 <= k < |s.begun| ==> s.begun[k] <= s.now)
    && s.completed == (if s.keeper.Sweeping? then |s.begun| - 1 else |s.begun|)
    && (forall e :: e in s.live ==> e.active == 1 && boot <= e.lastActive <= s.now)
  }

  /** Everything live was young enough at the start of every completed sweep; everything a running
      sweep has passed was young enough when it began. */
  ghost predicate Swept(s: State) {
    && s.completed <= |s.begun|
    && (forall k, e :: 0 <= k < s.completed && e in s.live ==> e.lastActive >= s.begun[k] - TIMEOUT_SECONDS)
    && (s.keeper.Sweeping? ==> s.begun != [] && s.keeper.j <= |s.live|)
    && (s.keeper.Sweeping? ==>
        (forall i :: 0 <= i < s.keeper.j ==> s.live[i].lastActive >= s.begun[|s.begun| - 1] - TIMEOUT_SECONDS))
  }

  lemma TimedKept(s: State, step: Step, boot: int)
    requires Enabled(s, step) && InBounds(s) && Timed(s, boot)
    ensures Timed(Apply(s, step), boot)
  {
  }

  lemma SweptKept(s: State, step: Step, boot: int)
    requires Enabled(s, step) && InBounds(s) && Timed(s, boot) && Swept(s)
    ensures Swept(Apply(s, step))
  {
    if step.KeeperUnlock? {
      SweptKeptByUnlock(s, boot);
    } else if step.KeeperVisit? {
      SweptKeptByVisit(s, boot);
    }
  }

  lemma SweptKeptByVisit(s: State, boot: int)
    requires Enabled(s, KeeperVisit) && InBounds(s) && Timed(s, boot) && Swept(s)
    ensures Swept(Apply(s, KeeperVisit))
  {
  }

  lemma SweptKeptByUnlock(s: State, boot: int)
    requires Enabled(s, KeeperUnlock) && InBounds(s) && Timed(s, boot) && Swept(s)
    ensures Swept(Apply(s, KeeperUnlock))
  {
    var s' := Apply(s, KeeperUnlock);
    forall k, e | 0 <= k < s'.completed && e in s'.live
      ensures e.lastActive >= s'.begun[k] - TIMEOUT_SECONDS
    {
      var i :| 0 <= i < |s.live| && s.live[i] == e;
      assert s.begun[k] <= s.begun[|s.begun| - 1];
    }
  }

  lemma {:induction false} TimedAlways(run: seq<State>, steps: seq<Step>, n: nat)
    requires IsRun(run, steps) && n < |run| && Init(run[0])
    ensures InBounds(run[n]) && Timed(run[n], run[0].now) && Swept(run[n])
  {
    InBoundsAlways(run, steps, n);
    if n > 0 {
      TimedAlways(run, steps, n - 1);
      TimedKept(run[n - 1], steps[n - 1], run[0].now);
      SweptKept(run[n - 1], steps[n - 1], run[0].now);
    }
  }

  // ---------- never too early ----------

  ghost predicate Tracked(s: State, id: int, since: int) {
    exists i :: 0 <= i < |s.live| && s.live[i].id == id && s.live[i].lastActive >= since
  }

  /** The step does not empty the table, nor remove an entry with this id at an end of file. */
  ghost predicate Spares(s: State, step: Step, id: int) {
    !step.CleanUp? && (step.Remove? && s.manager.Closing? && s.manager.i < |s.live| ==> s.live[s.manager.i].id != id)
  }

  lemma YoungEntryStays(s: State, step: Step, id: int, since: int)
    requires Enabled(s, step) && Tracked(s, id, since) && Spares(s, step, id)
    requires s.now - since <= TIMEOUT_SECONDS
    requires forall e :: e in s.live ==> e.lastActive <= s.now
    ensures Tracked(Apply(s, step), id, since)
  {
    var s' := Apply(s, step);
    var i :| 0 <= i < |s.live| && s.live[i].id == id && s.live[i].lastActive >= since;
    var gone := if step.Remove? then s.manager.i else if step.KeeperVisit? && s'.keeper == s.keeper then s.keeper.j else |s.live|;
    var i' := if gone < i then i - 1 else i;
    assert s'.live[i'].id == id && s'.live[i'].lastActive >= since;
  }

  lemma RunStep(run: seq<State>, steps: seq<Step>, k: nat)
    requires IsRun(run, steps) && k < |steps| && Init(run[0])
    ensures Enabled(run[k], steps[k]) && run[k + 1] == Apply(run[k], steps[k]) && run[k].now <= run[k + 1].now
    ensures forall e :: e in run[k].live ==> e.lastActive <= run[k].now
  {
    TimedAlways(run, steps, k);
  }

  lemma {:induction false} ClockRuns(run: seq<State>, steps: seq<Step>, m: nat, n: nat)
    requires IsRun(run, steps) && m <= n < |run| && Init(run[0])
    ensures run[m].now <= run[n].now
  {
    if m < n {
      ClockRuns(run, steps, m, n - 1);
      RunStep(run, steps, n - 1);
    }
  }

  lemma StaysOneStep(run: seq<State>, steps: seq<Step>, k: nat, id: int, since: int)
    requires IsRun(run, steps) && k < |steps| && Init(run[0]) && Tracked(run[k], id, since)
    requires Spares(run[k], steps[k], id) && run[k].now - since <= TIMEOUT_SECONDS
    ensures Tracked(run[k + 1], id, since)
  {
    RunStep(run, steps, k);
    YoungEntryStays(run[k], steps[k], id, since);
  }

  /** Over any stretch of a run in which neither an end of file nor the final cleanup removes it, an
      entry whose time stamp is `since` is still tracked as long as at most 15 s have passed since then. */
  lemma {:induction false} NeverEvictedEarly(run: seq<State>, steps: seq<Step>, m: nat, n: nat, id: int, since: int)
    requires IsRun(run, steps) && m <= n < |run| && Init(run[0]) && Tracked(run[m], id, since)
    requires forall k :: m <= k < n ==> Spares(run[k], steps[k], id)
    requires run[n].now - since <= 15
    ensures Tracked(run[n], id, since)
    decreases n - m
  {
    if m < n {
      ClockRuns(run, steps, m, n);
      StaysOneStep(run, steps, m, id, since);
      NeverEvictedEarly(run, steps, m + 1, n, id, since);
    }
  }

  // ---------- the client that keeps sending ----------

  /** Data of this client, at index i of the client table, has been pushed. */
  predicate Sends(s: State, i: nat, client: int) {
    s.manager.Refreshing? && s.manager.i == i && i < |s.fds| && s.fds[i] == client
  }

  /** A client's reading dates its own entry exactly when that is the entry at the client's index, as
      it is for every client in front of all evictions. Anybody else's reading goes to a stranger's
      entry or to a dead slot. */
  lemma RefreshReachesExactly(run: seq<State>, steps: seq<Step>, n: nat, i: nat, client: int)
    requires IsRun(run, steps) && n < |steps| && Init(run[0]) && steps[n] == Refresh
    requires Sends(run[n], i, client) && !Tracked(run[n], client, run[n].now)
    ensures Tracked(run[n + 1], client, run[n].now) <==> run[n].OwnSlot(i)
    ensures run[n].InFront(i) ==> run[n].OwnSlot(i)
  {
    RunStep(run, steps, n);
    var s, s' := run[n], run[n + 1];
    if s.InFront(i) {
      RefreshHitsItsClient(run, steps, n);
    }
    if Tracked(s', client, s.now) {
      var k :| 0 <= k < |s'.live| && s'.live[k].id == client && s'.live[k].lastActive >= s.now;
      assert k == i;
    }
    if s.OwnSlot(i) {
      assert s'.live[i].id == client && s'.live[i].lastActive >= s.now;
    }
  }

  /** Not the final cleanup, and if an end of file, then that of another client, in front of all
      evictions, so that it removes that client's own entry. */
  ghost predicate LeavesAlone(s: State, step: Step, client: int) {
    && !step.CleanUp?
    && (step.Remove? && s.manager.Closing? && s.manager.i < |s.fds| ==> s.InFront(s.manager.i) && s.fds[s.manager.i] != client)
  }

  /** A client that sends is not disconnected: its entry dated by a reading at step m is tracked for
      15 s from then on, whatever happens to the others, provided that the client is in front of all
      evictions when it sends and that the clients going away meanwhile are others and in front of
      all evictions, too. Before the first eviction that is every client. */
  lemma SendingClientIsKept(run: seq<State>, steps: seq<Step>, m: nat, n: nat, i: nat, client: int)
    requires IsRun(run, steps) && m < |steps| && m < n < |run| && Init(run[0])
    requires Sends(run[m], i, client) && steps[m] == Refresh && run[m].InFront(i)
    requires forall k :: m < k < n ==> LeavesAlone(run[k], steps[k], client)
    requires run[n].now - run[m].now <= 15
    ensures Tracked(run[n], client, run[m].now)
  {
    RunStep(run, steps, m);
    RefreshHitsItsClient(run, steps, m);
    assert run[m + 1].live[i].id == client && run[m + 1].live[i].lastActive >= run[m].now;
    forall k | m + 1 <= k < n
      ensures Spares(run[k], steps[k], client)
    {
      if steps[k] == Remove {
        InBoundsAlways(run, steps, k);
        RunStep(run, steps, k);
        RefreshHitsItsClient(run, steps, k);
      }
    }
    NeverEvictedEarly(run, steps, m + 1, n, client, run[m].now);
  }

  // ---------- never too late ----------

  /** Once a sweep that began later than t + 15 has completed, nothing whose time stamp is t or
      older is tracked, now or later. */
  lemma StaleEntriesAreGone(run: seq<State>, steps: seq<Step>, n: nat, t: int, k: nat)
    requires IsRun(run, steps) && n < |run| && Init(run[0])
    requires k < run[n].completed && k < |run[n].begun| && run[n].begun[k] > t + TIMEOUT_SECONDS
    ensures forall e :: e in run[n].live ==> e.lastActive > t
  {
    TimedAlways(run, steps, n);
  }

  /** A sweep begins no sooner than 10 s after boot and after the one before. */
  ghost predicate Apart(begun: seq<int>, boot: int) {
    forall k :: 0 <= k < |begun| ==> begun[k] >= (if k == 0 then boot else begun[k - 1]) + SLEEP_SECONDS
  }

  ghost predicate Spaced(s: State, boot: int) {
    && Apart(s.begun, boot)
    && (s.keeper.Sleeping? ==> boot <= s.keeper.since && forall k :: 0 <= k < |s.begun| ==> s.begun[k] <= s.keeper.since)
  }

  lemma SpacedKept(s: State, step: Step, boot: int)
    requires Enabled(s, step) && Timed(s, boot) && (!s.flag ==> Spaced(s, boot))
    ensures !Apply(s, step).flag ==> Spaced(Apply(s, step), boot)
  {
    var s' := Apply(s, step);
    if step.KeeperLock? && !s'.flag {
      SpacedWithOneMore(s.begun, s.now, boot, s.keeper.since);
    }
  }

  lemma SpacedWithOneMore(begun: seq<int>, now: int, boot: int, since: int)
    requires boot <= since && since + SLEEP_SECONDS <= now && forall k :: 0 <= k < |begun| ==> begun[k] <= since
    requires Apart(begun, boot)
    ensures Apart(begun + [now], boot)
  {
  }

  /** Until the flag is set the loop sleeps its full 10 s before every sweep. */
  lemma {:induction false} SweepsAreSpaced(run: seq<State>, steps: seq<Step>, n: nat)
    requires IsRun(run, steps) && n < |run| && Init(run[0]) && !run[n].flag
    ensures Spaced(run[n], run[0].now) && Apart(run[n].begun, run[0].now)
  {
    if n > 0 {
      TimedAlways(run, steps, n - 1);
      RunStep(run, steps, n - 1);
      SweepsAreSpaced(run, steps, n - 1);
      SpacedKept(run[n - 1], steps[n - 1], run[0].now);
    }
  }

  /** Sweeps begin at most `period` after boot and after one another. */
  ghost predicate Regular(begun: seq<int>, boot: int, period: int) {
    && (begun != [] ==> begun[0] <= boot + period)
    && forall k :: 0 < k < |begun| ==> begun[k] <= begun[k - 1] + period
  }

  lemma {:induction false} FirstLateSweep(begun: seq<int>, boot: int, period: int, t: int) returns (k: nat)
    requires Regular(begun, boot, period) && boot <= t + TIMEOUT_SECONDS
    requires begun != [] && begun[|begun| - 1] > t + TIMEOUT_SECONDS
    ensures k < |begun| && t + TIMEOUT_SECONDS < begun[k] <= t + TIMEOUT_SECONDS + period
    ensures forall i :: 0 <= i < k ==> begun[i] <= t + TIMEOUT_SECONDS
  {
    k := 0;
    while begun[k] <= t + TIMEOUT_SECONDS
      invariant k < |begun| && forall i :: 0 <= i < k ==> begun[i] <= t + TIMEOUT_SECONDS
      decreases |begun| - k
    {
      k := k + 1;
    }
    assert k > 0 ==> begun[k] <= begun[k - 1] + period;
  }

  /** An entry not refreshed after time t is gone once the first sweep that begins later than t + 15
      has completed, and that sweep begins no later than t + 15 + period. */
  lemma EvictedByDeadline(run: seq<State>, steps: seq<Step>, n: nat, t: int, period: int) returns (k: nat)
    requires IsRun(run, steps) && n < |run| && Init(run[0]) && run[0].now <= t + 15
    requires Regular(run[n].begun, run[0].now, period)
    requires run[n].begun != [] && run[n].begun[|run[n].begun| - 1] > t + 15
    ensures k < |run[n].begun| && t + 15 < run[n].begun[k] <= t + 15 + period
    ensures forall i :: 0 <= i < k ==> run[n].begun[i] <= t + 15
    ensures k < run[n].completed ==> forall e :: e in run[n].live ==> e.lastActive > t
  {
    k := FirstLateSweep(run[n].begun, run[0].now, period, t);
    if k < run[n].completed {
      StaleEntriesAreGone(run, steps, n, t, k);
    }
  }

  /** Hence, between sweeps, with the next one not overdue, nothing tracked is older than 15 s plus
      the period. */
  lemma StalenessIsBounded(run: seq<State>, steps: seq<Step>, n: nat, period: nat)
    requires IsRun(run, steps) && n < |run| && Init(run[0]) && !run[n].keeper.Sweeping?
    requires run[n].now <= (if run[n].begun == [] then run[0].now else run[n].begun[|run[n].begun| - 1]) + period
    ensures forall e :: e in run[n].live ==> run[n].now - e.lastActive <= TIMEOUT_SECONDS + period
  {
    TimedAlways(run, steps, n);
    if run[n].begun != [] {
      assert run[n].completed - 1 == |run[n].begun| - 1;
    }
  }

  // ---------- a client that keeps sending and is evicted ----------

  /** Ten more seconds pass while the keep-alive loop sleeps. */
  lemma TenSecondsLater(s: State, t: State) returns (u: State)
    requires Reaches(s, t) && t.keeper == Testing && !t.flag
    ensures u == t.(keeper := Sleeping(t.now), now := t.now + 10) && Reaches(s, u)
  {
    u := Do(s, t, KeeperTest);
    u := Do(s, u, Tick(t.now + 10));
  }

  /** The manager is between two iterations, the keep-alive loop about to begin its next sweep. */
  ghost predicate BeforeSweep(s: State, live: seq<Entry>, begun: seq<int>, now: int) {
    && s.manager == Top && s.keeper == Sleeping(now - 10) && !s.flag && s.now == now
    && s.fds == [4, 5] && s.live == live && s.begun == begun
  }

  /** Clients 4 and 5 connect at 0 s; only 5 sends, at 10 s. */
  lemma TwoClients(boot: State) returns (s: State)
    requires Init(boot) && boot.now == 0
    ensures Reaches(boot, s) && BeforeSweep(s, [Entry(4, 0, 1), Entry(5, 10, 1)], [], 10)
  {
    ReachesItself(boot);
    s := Connects(boot, boot, 4);
    s := Connects(boot, s, 5);
    s := TenSecondsLater(boot, s);
    var mid;
    mid, s := Reports(boot, s, 1);
    assert s.fds == [4, 5];
  }

  /** The sweep at 10 s finds nobody stale; then 10 s pass. */
  lemma FirstSweep(boot: State, t: State) returns (s: State)
    requires Reaches(boot, t) && BeforeSweep(t, [Entry(4, 0, 1), Entry(5, 10, 1)], [], 10)
    ensures Reaches(boot, s) && BeforeSweep(s, [Entry(4, 0, 1), Entry(5, 10, 1)], [10], 20)
  {
    s := Do(boot, t, KeeperLock);
    s := Do(boot, s, KeeperVisit);
    s := Do(boot, s, KeeperVisit);
    s := Do(boot, s, KeeperUnlock);
    s := TenSecondsLater(boot, s);
  }

  /** The sweep at 20 s evicts client 4, and client 5 sends. */
  lemma SecondSweep(boot: State, t: State) returns (mid: State, s: State)
    requires Reaches(boot, t) && BeforeSweep(t, [Entry(4, 0, 1), Entry(5, 10, 1)], [10], 20)
    ensures Reaches(boot, mid) && Reaches(mid, s) && Reaches(boot, s) && RefreshesInVain(mid, 20)
    ensures BeforeSweep(s, [Entry(5, 10, 1)], [10, 20], 30)
  {
    s := Do(boot, t, KeeperLock);
    s := Do(boot, s, KeeperVisit);
    assert s.live == [Entry(5, 10, 1)];
    s := Do(boot, s, KeeperVisit);
    s := Do(boot, s, KeeperUnlock);
    mid, s := Reports(boot, s, 1);
    var u := TenSecondsLater(mid, s);
    s := TenSecondsLater(boot, s);
  }

  /** Data of client 5 has come in and its entry, dated 10 s, is to be refreshed. */
  ghost predicate RefreshesInVain(s: State, now: int) {
    s.now == now && s.fds == [4, 5] && s.manager == Refreshing(1, {5}) && s.live == [Entry(5, 10, 1)]
  }

  /** Two clients connect at 0 s; the first is silent, the second sends every ten seconds, and the
      keep-alive loop sweeps every ten seconds. The sweep at 20 s evicts the first client; from then
      on the second one's readings do not refresh its entry, and the sweep at 30 s, in the very second
      of its latest reading, evicts it. */
  lemma SendingClientIsEvicted(boot: State) returns (mid: State, later: State, end: State)
    requires Init(boot) && boot.now == 0
    ensures Reaches(boot, mid) && Reaches(mid, later) && Reaches(later, end)
    ensures RefreshesInVain(mid, 20) && RefreshesInVain(later, 30) && end.now == 30
    ensures end.begun == [10, 20, 30] && Regular(end.begun, boot.now, SLEEP_SECONDS)
    ensures Enabled(end, KeeperVisit) && Stale(end.live[end.keeper.j], end.now) && end.live[end.keeper.j].id == 5
    ensures end.fds == [4, 5] && Apply(end, KeeperVisit).live == []
  {
    var s := TwoClients(boot);
    s := FirstSweep(boot, s);
    mid, s := SecondSweep(boot, s);
    later, end := Reports(mid, s, 1);
    end := Do(later, end, KeeperLock);
  }
}
