/** The connection manager and the keep-alive loop interleaved step by step over the two client
    tables: the private `client_fds` and the shared `connections`. A step is one critical section
    under conn_mutex, one iteration of the keep-alive sweep (which holds the mutex throughout), or
    one statement on private data. Sockets, the clock and the flag are the environment's. */
module TableProtocol {
  import opened Common
  import opened Sequences
  import opened KeepAlive

  datatype ManagerPc =
    | Top                                    // while (!shutdown_flag)
    | Selecting                              // in select
    | Accepting(ready: set<int>)             // handle_new_connection, listening socket ready
    | Tracking(fd: int, ready: set<int>)     // client_fds has the client, connections not yet
    | Entering(ready: set<int>)              // handle_client_data: the test of the flag
    | AtClient(i: nat, ready: set<int>)      // head of the sweep
    | Refreshing(i: nat, ready: set<int>)    // data from client i was pushed
    | Closing(i: nat, ready: set<int>)       // client i is at end of file or broken
    | Shifting(i: nat, ready: set<int>)      // removed from connections, not yet from client_fds
    | CleaningUp
    | Ended

  datatype KeeperPc = Testing | Sleeping(since: int) | Sweeping(j: nat) | Returned

  const SLEEP_SECONDS := 10

  datatype State = State(
    fds: seq<int>,              // client_fds[..client_count]
    live: seq<Entry>,           // connections[..conn_active_count]
    manager: ManagerPc, keeper: KeeperPc, flag: bool, now: int,
    split: Option<nat>,         // history: see InFront
    begun: seq<int>,            // history: when each sweep began
    completed: nat)             // history: how many of them have ended
  {
    predicate Evicted() {
      split.Some?
    }

    /** No eviction has ever been made at or in front of index i's client: before the first one that is
        everybody, afterwards everybody in front of `split`. */
    predicate InFront(i: nat) {
      split.Some? ==> i < split.value
    }

    /** The entry at index i is that of client i. */
    predicate OwnSlot(i: nat) {
      i < |live| && i < |fds| && live[i].id == fds[i]
    }

    /** The manager is not between the two halves of an insertion or removal, and has not ended. */
    predicate Settled() {
      !manager.Tracking? && !manager.Shifting? && manager != Ended
    }
  }

  datatype Step =
    | Tick(time: int)
    | SigInt
    | Test
    | Select(ready: set<int>, listening: bool)   // what select reports
    | SelectNothing                              // select fails or reports nothing
    | Accept(fd: Option<int>)
    | Track
    | Enter
    | Visit(data: bool)                          // if client i is ready: does its read bring data
    | Refresh
    | Remove
    | Shift
    | CleanUp
    | KeeperTest
    | KeeperLock
    | KeeperVisit
    | KeeperUnlock

  predicate Init(s: State) {
    && s.fds == [] && s.live == [] && s.manager == Top && s.keeper == Testing
    && !s.flag && s.split == None && s.begun == [] && s.completed == 0
  }

  /** conn_mutex is free for the manager unless the keep-alive loop is in its sweep. */
  predicate MutexFree(s: State) {
    !s.keeper.Sweeping?
  }

  /** The 10 s sleep of the keep-alive loop is cut short only by the signal that sets the flag. */
  ghost predicate Enabled(s: State, step: Step) {
    match step
    case Tick(time) => s.now <= time
    case SigInt => true
    case Test => s.manager == Top
    case Select(_, _) => s.manager == Selecting
    case SelectNothing => s.manager == Selecting
    case Accept(fd) => s.manager.Accepting? && (fd.Some? ==> fd.value !in s.fds)
    case Track => s.manager.Tracking? && MutexFree(s)
    case Enter => s.manager.Entering?
    case Visit(_) => s.manager.AtClient?
    case Refresh => s.manager.Refreshing? && MutexFree(s)
    case Remove => s.manager.Closing? && MutexFree(s)
    case Shift => s.manager.Shifting? && s.manager.i < |s.fds|
    case CleanUp => s.manager == CleaningUp && MutexFree(s)
    case KeeperTest => s.keeper == Testing
    case KeeperLock => s.keeper.Sleeping? && (s.flag || s.now >= s.keeper.since + SLEEP_SECONDS)
    case KeeperVisit => s.keeper.Sweeping? && s.keeper.j < |s.live|
    case KeeperUnlock => s.keeper.Sweeping? && s.keeper.j >= |s.live|
  }

  /** Where the tables begin to differ after a removal, and after an eviction, at index i. */
  function SplitAfterRemove(split: Option<nat>, i: nat): Option<nat> {
    if split.Some? && i < split.value then Some(split.value - 1) else split
  }

  function SplitAfterEviction(split: Option<nat>, i: nat): Option<nat> {
    if split.Some? && split.value <= i then split else Some(i)
  }

  ghost function Apply(s: State, step: Step): State
    requires Enabled(s, step)
  {
    match step
    case Tick(time) => s.(now := time)
    case SigInt => s.(flag := true)
    case Test => s.(manager := if s.flag then CleaningUp else Selecting)
    case Select(ready, listening) => s.(manager := if listening && !s.flag then Accepting(ready) else Entering(ready))
    case SelectNothing => s.(manager := Top)
    case Accept(fd) =>
      if fd.Some? && |s.fds| < MAX_SENSORS then
        s.(fds := s.fds + [fd.value], manager := Tracking(fd.value, s.manager.ready))
      else s.(manager := Entering(s.manager.ready))
    case Track => s.(live := s.live + [Entry(s.manager.fd, s.now, 1)], manager := Entering(s.manager.ready))
    case Enter => s.(manager := if s.flag then Top else AtClient(0, s.manager.ready))
    case Visit(data) =>
      var AtClient(i, ready) := s.manager;
      s.(manager :=
        if i >= |s.fds| then Top
        else if s.fds[i] !in ready then AtClient(i + 1, ready)
        else if data then Refreshing(i, ready)
        else Closing(i, ready))
    case Refresh =>
      s.(live := Refreshed(s.live, s.manager.i, s.now), manager := AtClient(s.manager.i + 1, s.manager.ready))
    case Remove => s.(live := Removed(s.live, s.manager.i), split := SplitAfterRemove(s.split, s.manager.i), manager := Shifting(s.manager.i, s.manager.ready))
    case Shift => s.(fds := RemoveAt(s.fds, s.manager.i), manager := AtClient(s.manager.i, s.manager.ready))
    case CleanUp => s.(live := [], manager := Ended)
    case KeeperTest => s.(keeper := if s.flag then Returned else Sleeping(s.now))
    case KeeperLock => s.(keeper := Sweeping(0), begun := s.begun + [s.now])
    case KeeperVisit =>
      if Stale(s.live[s.keeper.j], s.now) then s.(live := RemoveAt(s.live, s.keeper.j), split := SplitAfterEviction(s.split, s.keeper.j))
      else s.(keeper := Sweeping(s.keeper.j + 1))
    case KeeperUnlock => s.(keeper := Testing, completed := |s.begun|)
  }

  ghost predicate IsRun(run: seq<State>, steps: seq<Step>) {
    && |run| == |steps| + 1
    && forall k :: 0 <= k < |steps| ==> Enabled(run[k], steps[k]) && run[k + 1] == Apply(run[k], steps[k])
  }

  // ---------- the counts ----------

  /** `conn_active_count <= client_count <= MAX_SENSORS`, strictly between the two halves of an
      insertion or a removal; and the manager's index is in the table. */
  ghost predicate InBounds(s: State) {
    && |s.live| <= |s.fds| <= MAX_SENSORS
    && (s.manager.Tracking? || s.manager.Shifting? ==> |s.live| < |s.fds|)
    && (s.manager.Refreshing? || s.manager.Closing? || s.manager.Shifting? ==> s.manager.i < |s.fds|)
    && (s.manager.AtClient? ==> s.manager.i <= |s.fds|)
    && (s.keeper.Sweeping? ==> s.keeper.j <= |s.live|)
  }

  lemma InBoundsKept(s: State, step: Step)
    requires Enabled(s, step) && InBounds(s)
    ensures InBounds(Apply(s, step))
  {
  }

  lemma {:induction false} InBoundsAlways(run: seq<State>, steps: seq<Step>, n: nat)
    requires IsRun(run, steps) && n < |run| && Init(run[0])
    ensures InBounds(run[n])
  {
    if n > 0 {
      InBoundsAlways(run, steps, n - 1);
      InBoundsKept(run[n - 1], steps[n - 1]);
    }
  }

  /** Every array access of both threads is in range in every reachable state, although the insertion
      at `connections[conn_active_count]` tests only the other table's count. */
  lemma AccessesInRange(run: seq<State>, steps: seq<Step>, n: nat)
    requires IsRun(run, steps) && n < |run| && Init(run[0])
    ensures var s := run[n];
      && |s.live| <= |s.fds| <= MAX_SENSORS
      && (s.manager.Tracking? ==> |s.live| < MAX_SENSORS)
      && (s.manager.Refreshing? ==> s.manager.i < MAX_SENSORS)
      && (s.manager.Shifting? ==> |s.live| < |s.fds| && s.manager.i < |s.fds|)
      && (Enabled(s, KeeperVisit) ==> s.keeper.j < MAX_SENSORS)
  {
    InBoundsAlways(run, steps, n);
  }

  // ---------- lockstep ----------

  /** The clients that have an entry as long as nobody is evicted: all but the one whose entry is not
      made yet or already removed. */
  function Tabled(fds: seq<int>, pc: ManagerPc): seq<int> {
    match pc
    case Tracking(_, _) => if fds == [] then [] else fds[..|fds| - 1]
    case Shifting(i, _) => if i < |fds| then RemoveAt(fds, i) else fds
    case Ended => []
    case _ => fds
  }

  /** As long as nothing was evicted the tables list the same clients in the same order, up to the
      half-done insertion or removal the manager is in; afterwards still those in front of the split. */
  ghost predicate InStep(s: State) {
    && Distinct(s.fds)
    && (s.manager.Tracking? ==> s.fds != [] && s.fds[|s.fds| - 1] == s.manager.fd)
    && (s.manager == Ended ==> s.live == [])
    && (s.manager != Ended ==> Agree(Tabled(s.fds, s.manager), Ids(s.live), s.split))
  }

  ghost predicate Agree(clients: seq<int>, ids: seq<int>, split: Option<nat>) {
    match split
    case None => ids == clients
    case Some(v) => v <= |ids| && v <= |clients| && forall k :: 0 <= k < v ==> ids[k] == clients[k]
  }

  lemma AgreeAppended(clients: seq<int>, ids: seq<int>, split: Option<nat>, id: int)
    requires Agree(clients, ids, split)
    ensures Agree(clients + [id], ids + [id], split)
    ensures split.Some? ==> Agree(clients + [id], ids, split)
  {
  }

  lemma AgreeRemoved(clients: seq<int>, ids: seq<int>, split: Option<nat>, i: nat)
    requires Agree(clients, ids, split) && i < |clients|
    ensures Agree(RemoveAt(clients, i), if i < |ids| then RemoveAt(ids, i) else ids, SplitAfterRemove(split, i))
  {
  }

  lemma AgreeEvicted(clients: seq<int>, ids: seq<int>, split: Option<nat>, j: nat)
    requires Agree(clients, ids, split) && j < |ids|
    ensures Agree(clients, RemoveAt(ids, j), SplitAfterEviction(split, j))
  {
  }

  lemma InStepKept(s: State, step: Step)
    requires Enabled(s, step) && InBounds(s) && InStep(s)
    ensures InStep(Apply(s, step))
  {
    if step.Track? {
      InStepKeptByTracking(s);
    } else if step.Refresh? {
      assert Ids(Apply(s, step).live) == Ids(s.live);
    } else if step.Remove? {
      InStepKeptByRemoval(s);
    } else if step.KeeperVisit? {
      InStepKeptByEviction(s);
    } else if step.Accept? {
      InStepKeptByAccept(s, step.fd);
    } else if step.Shift? {
      InStepKeptByShift(s);
    } else if step.CleanUp? {
      InStepKeptByCleanUp(s);
    } else {
      InStepKeptPrivately(s, step);
    }
  }

  lemma InStepKeptByTracking(s: State)
    requires Enabled(s, Track) && InBounds(s) && InStep(s)
    ensures InStep(Apply(s, Track))
  {
    AgreeAppended(Tabled(s.fds, s.manager), Ids(s.live), s.split, s.manager.fd);
    assert Ids(Apply(s, Track).live) == Ids(s.live) + [s.manager.fd];
    assert Tabled(s.fds, s.manager) + [s.manager.fd] == s.fds;
  }

  lemma IdsOfRest(es: seq<Entry>, i: nat)
    requires i < |es|
    ensures Ids(RemoveAt(es, i)) == RemoveAt(Ids(es), i)
  {
  }

  lemma InStepKeptByRemoval(s: State)
    requires Enabled(s, Remove) && InBounds(s) && InStep(s)
    ensures InStep(Apply(s, Remove))
  {
    var i := s.manager.i;
    AgreeRemoved(s.fds, Ids(s.live), s.split, i);
    if i < |s.live| {
      IdsOfRest(s.live, i);
    }
  }

  lemma InStepKeptByEviction(s: State)
    requires Enabled(s, KeeperVisit) && InBounds(s) && InStep(s)
    ensures InStep(Apply(s, KeeperVisit))
  {
    if s.manager != Ended && Stale(s.live[s.keeper.j], s.now) {
      AgreeEvicted(Tabled(s.fds, s.manager), Ids(s.live), s.split, s.keeper.j);
      IdsOfRest(s.live, s.keeper.j);
    }
  }

  lemma InStepKeptByAccept(s: State, fd: Option<int>)
    requires Enabled(s, Accept(fd)) && InStep(s)
    ensures InStep(Apply(s, Accept(fd)))
  {
    if fd.Some? {
      assert (s.fds + [fd.value])[..|s.fds|] == s.fds;
    }
  }

  lemma DistinctRest(xs: seq<int>, i: nat)
    requires Distinct(xs) && i < |xs|
    ensures Distinct(RemoveAt(xs, i))
  {
    var rest := RemoveAt(xs, i);
    forall a, b | 0 <= a < b < |rest| ensures rest[a] != rest[b] {
      assert rest[a] == xs[if a < i then a else a + 1] && rest[b] == xs[if b < i then b else b + 1];
    }
  }

  lemma InStepKeptByShift(s: State)
    requires Enabled(s, Shift) && InStep(s)
    ensures InStep(Apply(s, Shift))
  {
    DistinctRest(s.fds, s.manager.i);
  }

  lemma InStepKeptByCleanUp(s: State)
    requires Enabled(s, CleanUp) && InStep(s)
    ensures InStep(Apply(s, CleanUp))
  {
  }

  /** The steps that leave both tables alone. */
  lemma InStepKeptPrivately(s: State, step: Step)
    requires Enabled(s, step) && InStep(s)
    requires !step.Track? && !step.Refresh? && !step.Remove? && !step.KeeperVisit? && !step.Accept? && !step.Shift? && !step.CleanUp?
    ensures InStep(Apply(s, step))
  {
    var s' := Apply(s, step);
    assert s'.fds == s.fds && s'.live == s.live && s'.split == s.split;
    assert s'.manager.Tracking? <==> s.manager.Tracking?;
    assert s'.manager == Ended <==> s.manager == Ended;
    assert Tabled(s'.fds, s'.manager) == Tabled(s.fds, s.manager);
  }

  lemma {:induction false} InStepAlways(run: seq<State>, steps: seq<Step>, n: nat)
    requires IsRun(run, steps) && n < |run| && Init(run[0])
    ensures InStep(run[n]) && InBounds(run[n])
  {
    InBoundsAlways(run, steps, n);
    if n > 0 {
      InStepAlways(run, steps, n - 1);
      InStepKept(run[n - 1], steps[n - 1]);
    }
  }

  // ---------- beginning and end ----------

  /** The two threads leave their loops only because shutdown has begun, which only the signal starts;
      and when the manager has ended the shared table is empty. */
  lemma {:induction false} LoopsEndOnlyForShutdown(run: seq<State>, steps: seq<Step>, n: nat)
    requires IsRun(run, steps) && n < |run| && Init(run[0])
    ensures run[n].flag <==> exists k :: 0 <= k < n && steps[k] == SigInt
    ensures run[n].manager == CleaningUp || run[n].manager == Ended || run[n].keeper == Returned ==> run[n].flag
    ensures run[n].manager == Ended ==> run[n].live == []
  {
    InStepAlways(run, steps, n);
    if n > 0 {
      LoopsEndOnlyForShutdown(run, steps, n - 1);
      FlagAfter(run[n - 1], steps[n - 1]);
    }
  }

  lemma FlagAfter(s: State, step: Step)
    requires Enabled(s, step)
    ensures Apply(s, step).flag <==> s.flag || step == SigInt
    ensures var s' := Apply(s, step);
      s'.manager == CleaningUp || s'.manager == Ended || s'.keeper == Returned ==>
        s.flag || s.manager == CleaningUp || s.manager == Ended || s.keeper == Returned
  {
  }

  /** In every run a client accepted while the table has room is appended to the private table and, as
      the manager's next access to the shared one, whatever the keep-alive loop does meanwhile, to that
      table with the time of that moment. */
  lemma {:induction false} AcceptedClientIsTracked(run: seq<State>, steps: seq<Step>, m: nat, n: nat, fd: int)
    requires IsRun(run, steps) && m < n < |run| && steps[m] == Accept(Some(fd)) && |run[m].fds| < 50
    requires forall k :: m < k < n ==> run[k].manager.Tracking?
    ensures n == m + 1 ==> run[n].manager.Tracking?
    ensures run[n].fds == run[m].fds + [fd]
    ensures run[n].manager.Tracking? ==> run[n].manager.fd == fd
    ensures !run[n].manager.Tracking? ==> run[n].live == run[n - 1].live + [Entry(fd, run[n - 1].now, 1)]
  {
    assert run[n] == Apply(run[n - 1], steps[n - 1]);
    if m + 1 < n {
      AcceptedClientIsTracked(run, steps, m, n - 1, fd);
    }
  }

  /** In every run up to the first eviction both tables list the same distinct clients in the same
      order whenever the manager is not between the two halves of an operation. */
  lemma LockstepUntilEviction(run: seq<State>, steps: seq<Step>, n: nat)
    requires IsRun(run, steps) && n < |run| && Init(run[0]) && !run[n].Evicted() && run[n].Settled()
    ensures |run[n].live| == |run[n].fds| && Distinct(run[n].fds)
    ensures forall i :: 0 <= i < |run[n].fds| ==> run[n].OwnSlot(i)
  {
    InStepAlways(run, steps, n);
    forall i | 0 <= i < |run[n].fds| ensures run[n].OwnSlot(i) {
      assert Ids(run[n].live)[i] == run[n].fds[i];
    }
  }

  /** In every run, evictions or not, a client in front of all evictions has its own slot. */
  lemma OwnSlotInFront(run: seq<State>, steps: seq<Step>, n: nat, i: nat)
    requires IsRun(run, steps) && n < |run| && Init(run[0]) && run[n].Settled()
    requires i < |run[n].fds| && run[n].InFront(i)
    ensures run[n].OwnSlot(i)
  {
    InStepAlways(run, steps, n);
    assert i < |run[n].live| ==> Ids(run[n].live)[i] == run[n].live[i].id;
  }

  /** So the entry refreshed at index i belongs to the client that sent the data, and the entry
      removed at index i to the client that went away: for all clients in every run up to the first
      eviction, for those in front of all evictions in every run. */
  lemma RefreshHitsItsClient(run: seq<State>, steps: seq<Step>, n: nat)
    requires IsRun(run, steps) && n < |run| && Init(run[0])
    requires (run[n].manager.Refreshing? || run[n].manager.Closing?) && run[n].InFront(run[n].manager.i)
    ensures run[n].OwnSlot(run[n].manager.i)
  {
    InBoundsAlways(run, steps, n);
    OwnSlotInFront(run, steps, n, run[n].manager.i);
  }

  /** The first eviction, at position j, ends that for exactly the clients from j on. */
  lemma EvictionSplitsTables(run: seq<State>, steps: seq<Step>, n: nat, i: nat)
    requires IsRun(run, steps) && n < |run| && Init(run[0]) && !run[n].Evicted() && run[n].Settled()
    requires Enabled(run[n], KeeperVisit) && Apply(run[n], KeeperVisit).Evicted() && i < |run[n].fds|
    ensures var s' := Apply(run[n], KeeperVisit);
      && (s'.OwnSlot(i) <==> i < run[n].keeper.j)
      && (s'.OwnSlot(i) <==> s'.InFront(i))
  {
    InStepAlways(run, steps, n);
    var s := run[n];
    var s' := Apply(s, KeeperVisit);
    assert Ids(s.live)[i] == s.fds[i];
    if i >= s.keeper.j && i < |s'.live| {
      assert s'.live[i] == s.live[i + 1];
      assert Ids(s.live)[i + 1] == s.fds[i + 1];
    }
  }

  // ---------- the client sweep, whatever the keep-alive loop does meanwhile ----------

  /** A client the sweep came to, and whether a read on it brought, or would have brought, data. */
  datatype Visited = Visited(client: int, data: bool)

  ghost function VisitOf(s: State, step: Step): seq<Visited> {
    if step.Visit? && s.manager.AtClient? && s.manager.i < |s.fds| then [Visited(s.fds[s.manager.i], step.data)] else []
  }

  /** The clients visited in a run, in order. */
  ghost function Visits(run: seq<State>, steps: seq<Step>): seq<Visited>
    requires |run| > |steps|
  {
    if steps == [] then []
    else
      var n := |steps| - 1;
      Visits(run, steps[..n]) + VisitOf(run[n], steps[n])
  }

  /** A client stays unless it is ready and its read brings no data. */
  function Stay(vs: seq<Visited>, ready: set<int>): (mask: seq<bool>)
    ensures |mask| == |vs|
  {
    seq(|vs|, j requires 0 <= j < |vs| => vs[j].client in ready ==> vs[j].data)
  }

  /** The first `done` visits have been dealt with: what was kept is in front of i, the rest untouched. */
  ghost predicate Dealt(fds: seq<int>, i: nat, was: seq<int>, vs: seq<Visited>, done: nat, ready: set<int>) {
    && done <= |vs| <= |was| && i <= |fds| && (forall j :: 0 <= j < |vs| ==> vs[j].client == was[j])
    && fds[..i] == Keep(was[..done], Stay(vs, ready)[..done]) && fds[i..] == was[done..]
  }

  lemma DealtNext(fds: seq<int>, i: nat, was: seq<int>, vs: seq<Visited>, done: nat, ready: set<int>)
    requires Dealt(fds, i, was, vs, done, ready) && done < |vs|
    ensures i < |fds| && fds[i] == was[done] == vs[done].client
    ensures var stays := Stay(vs, ready)[done];
      Dealt(if stays then fds else RemoveAt(fds, i), if stays then i + 1 else i, was, vs, done + 1, ready)
  {
    KeepSnoc(was[..|vs|], Stay(vs, ready), done);
    assert was[..|vs|][..done] == was[..done] && was[..|vs|][..done + 1] == was[..done + 1];
    assert |fds[i..]| == |was[done..]| && fds[i..][0] == was[done..][0];
    assert fds[i..][1..] == was[done..][1..];
  }

  lemma DealtOneMoreVisit(fds: seq<int>, i: nat, was: seq<int>, vs: seq<Visited>, v: Visited, ready: set<int>)
    requires Dealt(fds, i, was, vs, |vs|, ready) && i < |fds| && v.client == fds[i]
    ensures Dealt(fds, i, was, vs + [v], |vs|, ready)
  {
    assert |fds[i..]| == |was[|vs|..]| && fds[i..][0] == was[|vs|..][0];
    assert Stay(vs + [v], ready)[..|vs|] == Stay(vs, ready) == Stay(vs, ready)[..|vs|];
  }

  /** The manager is in the sweep: at the head of the loop all visits have been dealt with, in its body
      all but the last. */
  ghost predicate InSweep(s: State, was: seq<int>, vs: seq<Visited>, ready: set<int>) {
    match s.manager
    case AtClient(i, r) => r == ready && Dealt(s.fds, i, was, vs, |vs|, ready)
    case Refreshing(i, r) => r == ready && vs != [] && Dealt(s.fds, i, was, vs, |vs| - 1, ready) && Stay(vs, ready)[|vs| - 1]
    case Closing(i, r) => r == ready && vs != [] && Dealt(s.fds, i, was, vs, |vs| - 1, ready) && !Stay(vs, ready)[|vs| - 1]
    case Shifting(i, r) => r == ready && vs != [] && Dealt(s.fds, i, was, vs, |vs| - 1, ready) && !Stay(vs, ready)[|vs| - 1]
    case _ => false
  }

  /** The step with which the sweep's loop ends. */
  ghost predicate Finishes(s: State, step: Step) {
    step.Visit? && s.manager.AtClient? && s.manager.i >= |s.fds|
  }

  lemma InSweepKept(s: State, step: Step, was: seq<int>, vs: seq<Visited>, ready: set<int>)
    requires Enabled(s, step) && InSweep(s, was, vs, ready) && !Finishes(s, step)
    ensures InSweep(Apply(s, step), was, vs + VisitOf(s, step), ready)
  {
    if step.Visit? {
      InSweepKeptByVisit(s, step.data, was, vs, ready);
    } else {
      assert vs + [] == vs;
      if step.Refresh? || step.Shift? {
        DealtNext(s.fds, s.manager.i, was, vs, |vs| - 1, ready);
      }
    }
  }

  lemma InSweepKeptByVisit(s: State, data: bool, was: seq<int>, vs: seq<Visited>, ready: set<int>)
    requires InSweep(s, was, vs, ready) && s.manager.AtClient? && s.manager.i < |s.fds|
    ensures InSweep(Apply(s, Visit(data)), was, vs + [Visited(s.fds[s.manager.i], data)], ready)
  {
    var i, v := s.manager.i, Visited(s.fds[s.manager.i], data);
    DealtOneMoreVisit(s.fds, i, was, vs, v, ready);
    if v.client !in ready {
      DealtNext(s.fds, i, was, vs + [v], |vs|, ready);
    }
  }

  /** While the sweep is under way. */
  lemma {:induction false} SweepProceeds(run: seq<State>, steps: seq<Step>, ready: set<int>, n: nat)
    requires IsRun(run, steps) && n < |run| && run[0].manager == AtClient(0, ready)
    requires forall k :: 0 <= k < n ==> !Finishes(run[k], steps[k])
    ensures InSweep(run[n], run[0].fds, Visits(run, steps[..n]), ready)
  {
    if n > 0 {
      SweepProceeds(run, steps, ready, n - 1);
      InSweepKept(run[n - 1], steps[n - 1], run[0].fds, Visits(run, steps[..n - 1]), ready);
      assert steps[..n][..n - 1] == steps[..n - 1];
    }
  }

  /** From the head of the client sweep to the step that ends it, with any steps of the keep-alive loop
      and the environment in between: every client of the table is visited exactly once, in order, and
      those left are exactly the ones not ready or with data, in order. */
  lemma SweepDespiteEvictions(run: seq<State>, steps: seq<Step>, ready: set<int>, n: nat)
    requires IsRun(run, steps) && n < |steps| && run[0].manager == AtClient(0, ready)
    requires Finishes(run[n], steps[n]) && forall k :: 0 <= k < n ==> !Finishes(run[k], steps[k])
    ensures var was, vs := run[0].fds, Visits(run, steps[..n]);
      && |vs| == |was| && (forall j :: 0 <= j < |was| ==> vs[j].client == was[j])
      && run[n + 1].manager == Top && run[n + 1].fds == Keep(was, Stay(vs, ready))
  {
    SweepProceeds(run, steps, ready, n);
    var was, vs, s := run[0].fds, Visits(run, steps[..n]), run[n];
    assert s.fds[s.manager.i..] == [] && |was| == |vs|;
    assert was[..|vs|] == was && Stay(vs, ready)[..|vs|] == Stay(vs, ready) && s.fds[..s.manager.i] == s.fds;
  }
}
