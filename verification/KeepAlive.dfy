/** The tracking table and the timed eviction sweep (src/keep_alive.c). Every method runs while
    conn_mutex is held. */
module KeepAlive {
  import opened Common
  import opened Sequences

  /** connection_tracking_t without the fields nothing reads. */
  datatype Entry = Entry(id: int, lastActive: int, active: int)

  predicate Stale(e: Entry, now: int) {
    e.active == 1 && now - e.lastActive > TIMEOUT_SECONDS
  }

  function Ids(es: seq<Entry>): (r: seq<int>)
    ensures |r| == |es|
  {
    seq(|es|, i requires 0 <= i < |es| => es[i].id)
  }

  /** Entry j of the table at the start of a sweep is examined j-th, when the clock reads clock(j). */
  ghost function SurvivesSweep(es: seq<Entry>, clock: nat -> int): (mask: seq<bool>)
    ensures |mask| == |es| && forall j :: 0 <= j < |es| ==> (mask[j] <==> !Stale(es[j], clock(j)))
  {
    seq(|es|, j requires 0 <= j < |es| => !Stale(es[j], clock(j)))
  }

  /** remove_connection on the live entries: an index outside the table changes nothing. */
  function Removed(live: seq<Entry>, index: int): seq<Entry> {
    if 0 <= index < |live| then RemoveAt(live, index) else live
  }

  /** connections[index].last_active = now on the live entries; beyond them it writes a dead slot. */
  function Refreshed(live: seq<Entry>, index: nat, now: int): seq<Entry> {
    if index < |live| then live[index := live[index].(lastActive := now)] else live
  }

  class Tracker {
    const connections: array<Entry>
    var activeCount: nat

    ghost predicate Valid()
      reads this
    {
      connections.Length == MAX_SENSORS && activeCount <= MAX_SENSORS
    }

    ghost function Live(): seq<Entry>
      requires Valid()
      reads this, connections
    {
      connections[..activeCount]
    }

    constructor ()
      ensures Valid() && fresh(connections) && Live() == []
    {
      connections := new Entry[MAX_SENSORS](_ => Entry(0, 0, 0));
      activeCount := 0;
    }

    /** remove_connection: an index outside the table changes nothing. */
    method RemoveConnection(index: int)
      requires Valid()
      modifies this, connections
      ensures Valid()
      ensures Live() == Removed(old(Live()), index)
    {
      if index < 0 || index >= activeCount {
        return;
      }
      ghost var was := Live();
      var i: nat := index;
      while i < activeCount - 1
        invariant index <= i <= activeCount - 1
        invariant activeCount == old(activeCount)
        invariant forall j :: 0 <= j < index ==> connections[j] == was[j]
        invariant forall j :: index <= j < i ==> connections[j] == was[j + 1]
        invariant forall j :: i <= j < activeCount ==> connections[j] == was[j]
      {
        connections[i] := connections[i + 1];
        i := i + 1;
      }
      activeCount := activeCount - 1;
      assert Live() == RemoveAt(was, index);
    }

    /** The tracking half of an insertion (connection_manager.c:85-88). The source checks only the
        other table's count here; TableProtocol shows the slot always exists. */
    method Track(fd: int, now: int)
      requires Valid() && activeCount < MAX_SENSORS
      modifies this, connections
      ensures Valid() && Live() == old(Live()) + [Entry(fd, now, 1)]
    {
      connections[activeCount] := Entry(fd, now, 1);
      activeCount := activeCount + 1;
    }

    /** connection_manager.c:161: writes the slot at `index`, which may lie beyond the live entries. */
    method Refresh(index: nat, now: int)
      requires Valid() && index < MAX_SENSORS
      modifies connections
      ensures Valid()
      ensures Live() == Refreshed(old(Live()), index, now)
    {
      connections[index] := connections[index].(lastActive := now);
    }

    /** The sweep of run_keep_alive; it deletes at i and steps back. The clock is read anew for
        every entry. */
    method Sweep(clock: nat -> int) returns (examined: nat)
      requires Valid()
      modifies this, connections
      ensures Valid()
      ensures Live() == Keep(old(Live()), SurvivesSweep(old(Live()), clock))
      ensures examined == |old(Live())|
    {
      ghost var was := Live();
      ghost var mask := SurvivesSweep(was, clock);
      var i := 0;
      examined := 0;
      while i < activeCount
        invariant Valid() && MidSweep(Live(), i, was, was, mask, examined)
        decreases |was| - examined
      {
        ghost var here := Live();
        Unvisited(here, i, was, was, mask, examined);
        assert here[i] == connections[i] == was[examined];
        if connections[i].active == 1 && clock(examined) - connections[i].lastActive > TIMEOUT_SECONDS {
          connections[i] := connections[i].(active := 0);
          RemoveConnection(i);
          assert Live() == RemoveAt(here, i);
          SweepStep(here, Live(), i, was, was, mask, examined);
          i := i - 1;
        } else {
          assert mask[examined] && Live() == here[i := was[examined]];
          SweepStep(here, Live(), i, was, was, mask, examined);
        }
        i := i + 1;
        examined := examined + 1;
      }
      SweepDone(Live(), i, was, was, mask, examined);
    }
  }

  /** What a sweep does to the table, for any clock that never runs backwards: order is kept, what
      was stale when the sweep began is gone, what is not stale when it ends is still there. */
  lemma SweepOutcome(es: seq<Entry>, clock: nat -> int, begin: int, end: int, j: nat)
    requires forall a: nat, b: nat :: a <= b ==> clock(a) <= clock(b)
    requires begin <= clock(0) && clock(|es|) <= end
    requires j < |es|
    ensures var mask := SurvivesSweep(es, clock);
      && (es[j].active == 1 && begin - es[j].lastActive > 15 ==> j !in Kept(mask))
      && (es[j].active != 1 || end - es[j].lastActive <= 15 ==> j in Kept(mask))
      && |Keep(es, mask)| == |Kept(mask)|
      && forall k :: 0 <= k < |Kept(mask)| ==> Keep(es, mask)[k] == es[Kept(mask)[k]]
  {
    var mask := SurvivesSweep(es, clock);
    KeepIsOrderedFilter(es, mask);
    assert clock(0) <= clock(j) <= clock(|es|);
    if !Stale(es[j], end) {
      KeptIsComplete(mask, j);
    }
    if j in Kept(mask) {
      var k :| 0 <= k < |Kept(mask)| && Kept(mask)[k] == j;
    }
  }

  /** `active == 1` on the whole live prefix survives a sweep, so the test of `active` never saves
      a stale entry; and every survivor was fresh when the sweep began. */
  lemma SweepKeepsActive(es: seq<Entry>, clock: nat -> int, begin: int)
    requires forall e :: e in es ==> e.active == 1
    requires forall a: nat :: begin <= clock(a)
    ensures forall e :: e in Keep(es, SurvivesSweep(es, clock)) ==> e.active == 1 && begin - e.lastActive <= TIMEOUT_SECONDS
  {
    var mask := SurvivesSweep(es, clock);
    forall e | e in Keep(es, mask)
      ensures e.active == 1 && begin - e.lastActive <= TIMEOUT_SECONDS
    {
      KeepMembers(es, mask, e);
      var j :| 0 <= j < |es| && mask[j] && es[j] == e;
      assert e in es && begin <= clock(j);
    }
  }

  /** When a sweep starts with both tables in lockstep, client i's slot is still client i's
      afterwards exactly when no entry at or before position i was evicted. */
  lemma MatchAfterSweep(fds: seq<int>, es: seq<Entry>, clock: nat -> int, i: nat)
    requires Ids(es) == fds && Distinct(fds) && i < |fds|
    ensures var swept := Keep(es, SurvivesSweep(es, clock));
      (i < |swept| && swept[i].id == fds[i]) <==> forall j :: 0 <= j <= i ==> !Stale(es[j], clock(j))
  {
    var mask := SurvivesSweep(es, clock);
    KeepOfIds(es, mask);
    KeptInPlace(fds, mask, i);
    assert (forall j :: 0 <= j <= i ==> mask[j]) <==> (forall j :: 0 <= j <= i ==> !Stale(es[j], clock(j))) by {
      if forall j :: 0 <= j <= i ==> !Stale(es[j], clock(j)) {
        forall j | 0 <= j <= i ensures mask[j] {
          assert !Stale(es[j], clock(j));
        }
      }
      if forall j :: 0 <= j <= i ==> mask[j] {
        forall j | 0 <= j <= i ensures !Stale(es[j], clock(j)) {
          assert mask[j];
        }
      }
    }
  }

  lemma {:induction false} KeepOfIds(es: seq<Entry>, mask: seq<bool>)
    requires |es| == |mask|
    ensures Ids(Keep(es, mask)) == Keep(Ids(es), mask)
  {
    if es != [] {
      var n := |es| - 1;
      KeepOfIds(es[..n], mask[..n]);
      assert Ids(es)[..n] == Ids(es[..n]);
    }
  }
}
