/** The client table, the sweep that reads and deletes clients, and its effects on the tracking
    table and the shared buffer (src/connection_manager.c), for one thread running alone; the
    interleaving with the keep-alive loop is in TableProtocol. */
module ConnectionManager {
  import opened Common
  import opened Sequences
  import opened RingBuffer
  import opened KeepAlive

  /** What `read` on a client socket returned: bytes > 0, == 0, < 0. */
  datatype ReadOutcome = Data(reading: Reading) | Closed | Broken

  /** How many of these clients are ready, which is how often `read` is called on them. */
  function CountReady(fds: seq<int>, ready: set<int>): (n: nat)
    ensures n <= |fds|
  {
    if fds == [] then 0
    else CountReady(fds[..|fds| - 1], ready) + (if fds[|fds| - 1] in ready then 1 else 0)
  }

  /** Client j is kept unless it is ready and its read, the next one in table order, brings no data. */
  ghost function Stays(fds: seq<int>, ready: set<int>, input: nat -> ReadOutcome): (mask: seq<bool>)
    ensures |mask| == |fds|
  {
    seq(|fds|, j requires 0 <= j < |fds| => fds[j] in ready ==> input(CountReady(fds[..j], ready)).Data?)
  }

  /** The readings among the first n reads, in order. */
  ghost function Delivered(input: nat -> ReadOutcome, n: nat): (r: seq<Reading>)
    ensures |r| <= n
  {
    if n == 0 then []
    else Delivered(input, n - 1) + (if input(n - 1).Data? then [input(n - 1).reading] else [])
  }

  ghost function Successful(input: nat -> ReadOutcome, n: nat): (mask: seq<bool>)
    ensures |mask| == n && forall k :: 0 <= k < n ==> (mask[k] <==> input(k).Data?)
  {
    seq(n, k requires 0 <= k < n => input(k).Data?)
  }

  lemma SuccessfulKept(input: nat -> ReadOutcome, n: nat)
    ensures forall k: nat :: k < n && input(k).Data? <==> k in Kept(Successful(input, n))
  {
    forall k: nat | k < n && input(k).Data? ensures k in Kept(Successful(input, n)) {
      KeptIsComplete(Successful(input, n), k);
    }
  }

  /** They are the readings of exactly the successful reads, in the order of the reads. */
  lemma {:induction false} DeliveredExactly(input: nat -> ReadOutcome, n: nat)
    ensures var good := Kept(Successful(input, n));
      && |Delivered(input, n)| == |good|
      && (forall k: nat :: k < n && input(k).Data? <==> k in good)
      && forall j :: 0 <= j < |good| ==> input(good[j]).Data? && Delivered(input, n)[j] == input(good[j]).reading
  {
    var mask := Successful(input, n);
    SuccessfulKept(input, n);
    if n > 0 {
      DeliveredExactly(input, n - 1);
      assert mask[..n - 1] == Successful(input, n - 1);
    }
  }

  /** The tracking entries with the time stamps of the successful reads. */
  ghost function Touched(es: seq<Entry>, fds: seq<int>, ready: set<int>, input: nat -> ReadOutcome, clock: nat -> int): (r: seq<Entry>)
    requires |es| == |fds|
    ensures |r| == |es|
  {
    seq(|es|, j requires 0 <= j < |es| =>
      if fds[j] in ready then es[j].(lastActive := clock(CountReady(fds[..j], ready))) else es[j])
  }

  /** The tracking entries after a whole sweep of lockstep tables. */
  ghost function TouchedAndKept(es: seq<Entry>, fds: seq<int>, ready: set<int>, input: nat -> ReadOutcome, clock: nat -> int): seq<Entry>
    requires |es| == |fds|
  {
    Keep(Touched(es, fds, ready, input, clock), Stays(fds, ready, input))
  }

  /** After the sweep a client that stayed has its entry, dated by its own read if it was ready. */
  lemma KeptEntriesAreDated(es: seq<Entry>, fds: seq<int>, ready: set<int>, input: nat -> ReadOutcome, clock: nat -> int, j: nat)
    requires j < |es| == |fds|
    ensures var k, kept := CountReady(fds[..j], ready), TouchedAndKept(es, fds, ready, input, clock);
      && (fds[j] !in ready ==> es[j] in kept)
      && (fds[j] in ready && input(k).Data? ==> Entry(es[j].id, clock(k), es[j].active) in kept)
  {
    var touched, mask := Touched(es, fds, ready, input, clock), Stays(fds, ready, input);
    KeepMembers(touched, mask, touched[j]);
  }

  /** What visiting client i does to the live tracking entries, in lockstep or not. */
  ghost function VisitedLive(es: seq<Entry>, i: nat, ready: bool, data: bool, now: int): seq<Entry> {
    if !ready then es else if data then Refreshed(es, i, now) else Removed(es, i)
  }

  /** And to the shared buffer. */
  ghost function VisitedBuffer(buffer: View, size: nat, ready: bool, outcome: ReadOutcome): View {
    if ready && outcome.Data? then Received(buffer, size, [outcome.reading]) else buffer
  }

  class Manager {
    const clientFds: array<int>
    var clientCount: nat
    const tracker: Tracker
    const sb: SBuffer

    ghost predicate Valid()
      reads this, clientFds, tracker, sb, sb.buffer
    {
      && clientFds.Length == MAX_SENSORS && clientCount <= MAX_SENSORS
      && tracker.Valid() && tracker.activeCount <= clientCount
      && sb.Valid()
    }

    ghost function Fds(): seq<int>
      requires clientCount <= clientFds.Length
      reads this, clientFds
    {
      clientFds[..clientCount]
    }

    /** Both tables list the same clients in the same order. */
    ghost predicate Lockstep()
      requires Valid()
      reads this, clientFds, tracker, tracker.connections, sb, sb.buffer
    {
      Ids(tracker.Live()) == Fds()
    }

    constructor (tracker: Tracker, sb: SBuffer)
      requires tracker.Valid() && tracker.Live() == [] && sb.Valid()
      ensures Valid() && Fds() == [] && Lockstep() && fresh(clientFds)
      ensures this.tracker == tracker && this.sb == sb
    {
      clientFds := new int[MAX_SENSORS](i => if i == 0 then -1 else 0);
      clientCount := 0;
      this.tracker := tracker;
      this.sb := sb;
    }

    /** handle_new_connection: `accepted` is what accept returned, -1 being None; the result is the
        descriptor closed because the table is full. */
    method HandleNewConnection(flag: bool, listening: bool, accepted: Option<int>, now: int) returns (closed: Option<int>)
      requires Valid()
      modifies this, clientFds, tracker, tracker.connections
      ensures Valid() && unchanged(sb) && unchanged(sb.buffer)
      ensures var added := !flag && listening && accepted.Some? && |old(Fds())| < MAX_SENSORS;
        && Fds() == (if added then old(Fds()) + [accepted.value] else old(Fds()))
        && tracker.Live() == (if added then old(tracker.Live()) + [Entry(accepted.value, now, 1)] else old(tracker.Live()))
        && closed == (if !added && !flag && listening then accepted else None)
      ensures old(Lockstep()) ==> Lockstep()
    {
      closed := None;
      if flag {
        return;
      }
      if listening {
        if accepted.None? {
          return;
        }
        if clientCount < MAX_SENSORS {
          clientFds[clientCount] := accepted.value;
          clientCount := clientCount + 1;
          tracker.Track(accepted.value, now);
        } else {
          closed := accepted;
        }
      }
    }

    /** shift_clients */
    method ShiftClients(index: nat)
      requires index < clientCount <= clientFds.Length
      modifies this, clientFds
      ensures clientCount <= clientFds.Length && Fds() == RemoveAt(old(Fds()), index)
    {
      ghost var was := Fds();
      clientFds[index] := -1;
      var j := index;
      while j < clientCount - 1
        invariant index <= j <= clientCount - 1 && clientCount == old(clientCount)
        invariant forall k :: 0 <= k < index ==> clientFds[k] == was[k]
        invariant forall k :: index <= k < j ==> clientFds[k] == was[k + 1]
        invariant forall k :: j < k < clientCount ==> clientFds[k] == was[k]
      {
        clientFds[j] := clientFds[j + 1];
        j := j + 1;
      }
      clientCount := clientCount - 1;
      assert forall k :: 0 <= k < clientCount ==> clientFds[k] == RemoveAt(was, index)[k];
      assert Fds() == RemoveAt(was, index);
    }

    /** The body of the sweep for client i (lines 135-222): if it is ready, read it; then push and
        refresh, or take it out of the tracking table first and out of the client table second. */
    method VisitClient(i: nat, ready: set<int>, outcome: ReadOutcome, now: int) returns (removed: bool)
      requires Valid() && i < clientCount
      modifies this, clientFds, tracker, tracker.connections, sb, sb.buffer
      ensures Valid() && removed == (old(Fds()[i]) in ready && !outcome.Data?)
      ensures Fds() == if removed then RemoveAt(old(Fds()), i) else old(Fds())
      ensures sb.Seen() == VisitedBuffer(old(sb.Seen()), sb.size, old(Fds()[i]) in ready, outcome)
      ensures tracker.Live() == VisitedLive(old(tracker.Live()), i, old(Fds()[i]) in ready, outcome.Data?, now)
    {
      removed := false;
      if clientFds[i] in ready {
        if outcome.Data? {
          sb.Push(outcome.reading);
          tracker.Refresh(i, now);
        } else {
          tracker.RemoveConnection(i);
          ShiftClients(i);
          removed := true;
        }
      }
    }

    /** The same within a sweep, of which some clients have been visited. */
    method VisitNext(ghost s: SweepStart, i: nat, ghost visited: seq<int>, ready: set<int>, outcome: ReadOutcome, now: int, ghost used: nat)
      returns (removed: bool)
      requires Valid() && i < clientCount && Progress(s, Fds(), tracker.Live(), sb.Seen(), i, visited, used)
      requires ready == s.ready && outcome == s.input(used) && now == s.clock(used) && sb.size == s.size
      modifies this, clientFds, tracker, tracker.connections, sb, sb.buffer
      ensures Valid() && |visited| < |s.fds| && (if removed then i else i + 1) <= clientCount
      ensures Progress(s, Fds(), tracker.Live(), sb.Seen(), if removed then i else i + 1,
                       visited + [old(Fds()[i])], if old(Fds()[i]) in ready then used + 1 else used)
    {
      ghost var fds, live, buffer := Fds(), tracker.Live(), sb.Seen();
      removed := VisitClient(i, ready, outcome, now);
      ProgressMade(s, fds, live, buffer, i, visited, used, Fds(), tracker.Live(), sb.Seen(), removed);
    }

    /** handle_client_data: whatever `ready` and the reads are, the survivors are the clients that
        stay, in order; every client is visited exactly once; the readings pushed are the
        successful reads in table order, of which the buffer keeps the newest and drops just what
        that leaves no room for; and lockstep tables stay in lockstep, each refreshed
        entry being the one of the client that sent the data. */
    method HandleClientData(flag: bool, ready: set<int>, input: nat -> ReadOutcome, clock: nat -> int)
      returns (visited: seq<int>, used: nat)
      requires Valid()
      modifies this, clientFds, tracker, tracker.connections, sb, sb.buffer
      ensures Valid()
      ensures flag ==> visited == [] && used == 0 && Fds() == old(Fds()) && tracker.Live() == old(tracker.Live()) && sb.Seen() == old(sb.Seen())
      ensures !flag ==> visited == old(Fds()) && used == CountReady(old(Fds()), ready)
      ensures !flag ==> Fds() == Keep(old(Fds()), Stays(old(Fds()), ready, input))
      ensures !flag ==> sb.pushed == old(sb.pushed) + Delivered(input, used)
      ensures !flag ==> sb.Contents() == Newest(old(sb.Contents()) + Delivered(input, used), sb.size)
      ensures !flag ==> sb.removed == old(sb.removed) + Overflow(old(sb.Contents()) + Delivered(input, used), sb.size)
      ensures !flag && old(Lockstep()) ==> Lockstep()
      ensures !flag && old(Lockstep()) ==> tracker.Live() == TouchedAndKept(old(tracker.Live()), old(Fds()), ready, input, clock)
    {
      if flag {
        return [], 0;
      }
      visited, used := SweepClients(ready, input, clock);
    }

    /** The loop of handle_client_data. */
    method SweepClients(ready: set<int>, input: nat -> ReadOutcome, clock: nat -> int)
      returns (visited: seq<int>, used: nat)
      requires Valid()
      modifies this, clientFds, tracker, tracker.connections, sb, sb.buffer
      ensures Valid() && visited == old(Fds())
      ensures used == CountReady(old(Fds()), ready)
      ensures Fds() == Keep(old(Fds()), Stays(old(Fds()), ready, input))
      ensures sb.Seen() == Received(old(sb.Seen()), sb.size, Delivered(input, used))
      ensures old(Lockstep()) ==> Lockstep() && tracker.Live() == TouchedAndKept(old(tracker.Live()), old(Fds()), ready, input, clock)
    {
      ghost var start := SweepStart(Fds(), tracker.Live(), sb.Seen(), sb.size, ready, input, clock);
      ProgressStarts(start);
      visited, used := SweepFrom(start, ready, input, clock);
      ProgressDone(start, Fds(), tracker.Live(), sb.Seen(), visited, used);
    }

    /** The same, told by its invariant. */
    method SweepFrom(ghost s: SweepStart, ready: set<int>, input: nat -> ReadOutcome, clock: nat -> int)
      returns (visited: seq<int>, used: nat)
      requires Valid() && Progress(s, Fds(), tracker.Live(), sb.Seen(), 0, [], 0)
      requires ready == s.ready && input == s.input && clock == s.clock && sb.size == s.size
      modifies this, clientFds, tracker, tracker.connections, sb, sb.buffer
      ensures Valid() && Progress(s, Fds(), tracker.Live(), sb.Seen(), |Fds()|, visited, used)
    {
      visited, used := [], 0;
      var i := 0;
      while i < clientCount
        invariant Valid() && i <= clientCount
        invariant Progress(s, Fds(), tracker.Live(), sb.Seen(), i, visited, used)
        decreases |s.fds| - |visited|
      {
        var client := clientFds[i];
        var removed := VisitNext(s, i, visited, ready, input(used), clock(used), used);
        visited := visited + [client];
        used := if client in ready then used + 1 else used;
        i := if removed then i else i + 1;
      }
    }

    /** cleanup_connections: which descriptors are closed, and the tracking table emptied. */
    method CleanupConnections() returns (closed: seq<int>)
      requires Valid()
      modifies tracker
      ensures Valid() && tracker.Live() == [] && Fds() == old(Fds())
      ensures closed == Keep(Fds(), Open(Fds())) && forall fd :: fd in closed <==> fd in Fds() && fd != -1
    {
      closed := [];
      var i := 0;
      while i < clientCount
        invariant 0 <= i <= clientCount && tracker.activeCount == old(tracker.activeCount)
        invariant closed == Keep(Fds()[..i], Open(Fds())[..i])
      {
        KeepSnoc(Fds(), Open(Fds()), i);
        if clientFds[i] != -1 {
          closed := closed + [clientFds[i]];
        }
        i := i + 1;
      }
      assert Fds()[..i] == Fds() && Open(Fds())[..i] == Open(Fds());
      forall fd ensures fd in closed <==> fd in Fds() && fd != -1 {
        KeepMembers(Fds(), Open(Fds()), fd);
      }
      tracker.activeCount := 0;
    }
  }

  ghost function Open(fds: seq<int>): (mask: seq<bool>)
    ensures |mask| == |fds|
  {
    seq(|fds|, j requires 0 <= j < |fds| => fds[j] != -1)
  }

  /** The state in which a client sweep starts, and what its environment will answer. */
  datatype SweepStart = SweepStart(fds: seq<int>, live: seq<Entry>, buffer: View, size: nat,
                                   ready: set<int>, input: nat -> ReadOutcome, clock: nat -> int)
  {
    ghost function Mask(): seq<bool> {
      Stays(fds, ready, input)
    }

    ghost predicate Lockstep() {
      Ids(live) == fds
    }
  }

  ghost predicate Progress(s: SweepStart, fds: seq<int>, live: seq<Entry>, buffer: View, i: nat, visited: seq<int>, used: nat) {
    var n := |visited|;
    && MidSweep(fds, i, s.fds, s.fds, s.Mask(), n)
    && visited == s.fds[..n] && used == CountReady(visited, s.ready)
    && buffer == Received(s.buffer, s.size, Delivered(s.input, used))
    && (s.Lockstep() ==> MidSweep(live, i, s.live, Touched(s.live, s.fds, s.ready, s.input, s.clock), s.Mask(), n))
  }

  lemma ProgressStarts(s: SweepStart)
    requires |s.buffer.contents| <= s.size
    ensures Progress(s, s.fds, s.live, s.buffer, 0, [], 0)
  {
    ReceivedNothing(s.buffer, s.size);
  }

  lemma ProgressMade(s: SweepStart, fds: seq<int>, live: seq<Entry>, buffer: View, i: nat, visited: seq<int>, used: nat,
                     fds': seq<int>, live': seq<Entry>, buffer': View, removed: bool)
    requires Progress(s, fds, live, buffer, i, visited, used) && i < |fds|
    requires removed == (fds[i] in s.ready && !s.input(used).Data?)
    requires fds' == if removed then RemoveAt(fds, i) else fds
    requires buffer' == VisitedBuffer(buffer, s.size, fds[i] in s.ready, s.input(used))
    requires live' == VisitedLive(live, i, fds[i] in s.ready, s.input(used).Data?, s.clock(used))
    ensures |visited| < |s.fds|
    ensures Progress(s, fds', live', buffer', if removed then i else i + 1,
                     visited + [fds[i]], if fds[i] in s.ready then used + 1 else used)
  {
    var n := |visited|;
    Unvisited(fds, i, s.fds, s.fds, s.Mask(), n);
    assert visited + [fds[i]] == s.fds[..n + 1];
    CountReadySnoc(s.fds, s.ready, n);
    BufferProgressMade(s, buffer, fds[i] in s.ready, used);
    FdsProgressMade(s, fds, i, n, used, fds');
    if s.Lockstep() {
      LiveProgressMade(s, live, i, n, used, live');
    }
  }

  lemma BufferProgressMade(s: SweepStart, buffer: View, ready: bool, used: nat)
    requires buffer == Received(s.buffer, s.size, Delivered(s.input, used))
    ensures VisitedBuffer(buffer, s.size, ready, s.input(used))
         == Received(s.buffer, s.size, Delivered(s.input, if ready then used + 1 else used))
  {
    if ready && s.input(used).Data? {
      ReceivedOneMore(s.buffer, s.size, Delivered(s.input, used), s.input(used).reading);
    }
  }

  lemma FdsProgressMade(s: SweepStart, fds: seq<int>, i: nat, n: nat, used: nat, fds': seq<int>)
    requires MidSweep(fds, i, s.fds, s.fds, s.Mask(), n) && i < |fds| && n < |s.fds| && fds[i] == s.fds[n]
    requires used == CountReady(s.fds[..n], s.ready)
    requires fds' == if fds[i] in s.ready && !s.input(used).Data? then RemoveAt(fds, i) else fds
    ensures MidSweep(fds', if s.Mask()[n] then i + 1 else i, s.fds, s.fds, s.Mask(), n + 1)
    ensures s.Mask()[n] <==> !(fds[i] in s.ready && !s.input(used).Data?)
  {
    assert fds[i := s.fds[n]] == fds;
    SweepStep(fds, fds', i, s.fds, s.fds, s.Mask(), n);
  }

  lemma LiveProgressMade(s: SweepStart, live: seq<Entry>, i: nat, n: nat, used: nat, live': seq<Entry>)
    requires s.Lockstep() && n < |s.fds| && used == CountReady(s.fds[..n], s.ready)
    requires MidSweep(live, i, s.live, Touched(s.live, s.fds, s.ready, s.input, s.clock), s.Mask(), n)
    requires live' == VisitedLive(live, i, s.fds[n] in s.ready, s.input(used).Data?, s.clock(used))
    ensures MidSweep(live', if s.Mask()[n] then i + 1 else i, s.live, Touched(s.live, s.fds, s.ready, s.input, s.clock), s.Mask(), n + 1)
  {
    var result := Touched(s.live, s.fds, s.ready, s.input, s.clock);
    Unvisited(live, i, s.live, result, s.Mask(), n);
    assert live[i := s.live[n]] == live;
    SweepStep(live, live', i, s.live, result, s.Mask(), n);
  }

  lemma ProgressDone(s: SweepStart, fds: seq<int>, live: seq<Entry>, buffer: View, visited: seq<int>, used: nat)
    requires Progress(s, fds, live, buffer, |fds|, visited, used)
    ensures visited == s.fds && used == CountReady(s.fds, s.ready) && fds == Keep(s.fds, s.Mask())
    ensures buffer == Received(s.buffer, s.size, Delivered(s.input, used))
    ensures s.Lockstep() ==> Ids(live) == fds && live == TouchedAndKept(s.live, s.fds, s.ready, s.input, s.clock)
  {
    var n := |visited|;
    SweepDone(fds, |fds|, s.fds, s.fds, s.Mask(), n);
    if s.Lockstep() {
      var result := Touched(s.live, s.fds, s.ready, s.input, s.clock);
      Unvisited(live, |fds|, s.live, result, s.Mask(), n);
      SweepDone(live, |fds|, s.live, result, s.Mask(), n);
      KeepOfIds(result, s.Mask());
      assert Ids(result) == Ids(s.live);
    }
  }

  lemma CountReadySnoc(fds: seq<int>, ready: set<int>, n: nat)
    requires n < |fds|
    ensures CountReady(fds[..n + 1], ready) == CountReady(fds[..n], ready) + (if fds[n] in ready then 1 else 0)
  {
    assert fds[..n + 1][..n] == fds[..n];
  }

  /** The survivors, client by client: with distinct descriptors a client survives exactly when it
      was in the table and did not come up ready with a failed read. */
  lemma SurvivorsExactly(fds: seq<int>, ready: set<int>, input: nat -> ReadOutcome, j: nat)
    requires Distinct(fds) && j < |fds|
    ensures var kept := Keep(fds, Stays(fds, ready, input));
      && Distinct(kept)
      && (fds[j] in kept <==> !(fds[j] in ready && !input(CountReady(fds[..j], ready)).Data?))
      && forall f :: f in kept ==> f in fds
  {
    var mask := Stays(fds, ready, input);
    KeepDistinct(fds, mask);
    KeepMembers(fds, mask, fds[j]);
    forall f | f in Keep(fds, mask) ensures f in fds {
      KeepMembers(fds, mask, f);
    }
  }

  ghost function ReadyMask(fds: seq<int>, ready: set<int>): (mask: seq<bool>)
    ensures |mask| == |fds|
  {
    seq(|fds|, k requires 0 <= k < |fds| => fds[k] in ready)
  }

  /** There is one read call per ready client, and the read whose answer decides about client j is
      the one made on client j: the k-th read is on the k-th ready client. */
  lemma {:induction false} ReadsFollowTable(fds: seq<int>, ready: set<int>, j: nat)
    requires j < |fds|
    ensures CountReady(fds, ready) == |Keep(fds, ReadyMask(fds, ready))|
    ensures var k := CountReady(fds[..j], ready);
      fds[j] in ready ==> k < CountReady(fds, ready) && Keep(fds, ReadyMask(fds, ready))[k] == fds[j]
  {
    var n := |fds| - 1;
    assert ReadyMask(fds, ready)[..n] == ReadyMask(fds[..n], ready);
    if n > 0 {
      ReadsFollowTable(fds[..n], ready, if j < n then j else n - 1);
      if j < n {
        assert fds[..n][..j] == fds[..j];
      }
    } else {
      assert fds[..n] == [] && ReadyMask(fds[..n], ready) == [];
    }
  }
}
