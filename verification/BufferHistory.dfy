/** First-in first-out accounting over every run of BufferProtocol: where each pushed reading went. */
module BufferHistory {
  import opened Common
  import opened Sequences
  import opened BufferProtocol

  function Gone(log: seq<Departure>): (r: seq<Reading>)
    ensures |r| == |log|
  {
    seq(|log|, k requires 0 <= k < |log| => log[k].reading)
  }

  /** Which departures consumer i took. */
  function TakenBy(log: seq<Departure>, i: nat): (mask: seq<bool>)
    ensures |mask| == |log|
  {
    seq(|log|, k requires 0 <= k < |log| => log[k].taker == Some(i))
  }

  ghost predicate LogInOrder(s: State) {
    && Gone(s.log) + s.queue == s.pushed
    && |s.queue| <= s.size
  }

  /** Record k was pushed k-th, so it can be dropped only by push k + size, and popped only before. */
  ghost predicate DatesConsistent(s: State) {
    forall k :: 0 <= k < |s.log| ==>
      && s.log[k].pushesBefore <= |s.pushed|
      && (s.log[k].taker.None? ==> s.log[k].pushesBefore == k + s.size < |s.pushed|)
      && (s.log[k].taker.Some? ==> k < s.log[k].pushesBefore <= k + s.size && s.log[k].taker.value < |s.cons|)
  }

  ghost predicate EachToOne(s: State) {
    forall i: nat :: i < |s.cons| ==> s.cons[i].taken == Keep(Gone(s.log), TakenBy(s.log, i))
  }

  ghost predicate Accounted(s: State) {
    LogInOrder(s) && DatesConsistent(s) && EachToOne(s)
  }

  lemma KeepAfterDeparture(log: seq<Departure>, d: Departure, i: nat)
    ensures Gone(log + [d]) == Gone(log) + [d.reading]
    ensures Keep(Gone(log + [d]), TakenBy(log + [d], i))
         == Keep(Gone(log), TakenBy(log, i)) + (if d.taker == Some(i) then [d.reading] else [])
  {
    assert Gone(log + [d])[..|log|] == Gone(log);
    assert TakenBy(log + [d], i)[..|log|] == TakenBy(log, i);
  }

  lemma AccountedAfterInsert(s: State, data: Reading)
    requires Accounted(s)
    ensures Accounted(Insert(s, data))
  {
    var s' := Insert(s, data);
    if |s.queue| == s.size {
      var d := Departure(None, s.queue[0], |s.pushed|);
      assert |s.log| + |s.queue| == |s.pushed|;
      forall i: nat | i < |s.cons|
        ensures s'.cons[i].taken == Keep(Gone(s'.log), TakenBy(s'.log, i))
      {
        KeepAfterDeparture(s.log, d, i);
      }
      KeepAfterDeparture(s.log, d, 0);
      assert s.queue == [s.queue[0]] + s.queue[1..];
      assert s'.queue == s.queue[1..] + [data];
    } else {
      assert s'.log == s.log;
    }
  }

  lemma AccountedAfterTake(s: State, i: nat, r: nat)
    requires Accounted(s) && i < |s.cons| && s.queue != []
    ensures Accounted(Take(s, i, r))
  {
    var s' := Take(s, i, r);
    var d := Departure(Some(i), s.queue[0], |s.pushed|);
    assert |s.log| + |s.queue| == |s.pushed|;
    forall j: nat | j < |s.cons|
      ensures s'.cons[j].taken == Keep(Gone(s'.log), TakenBy(s'.log, j))
    {
      KeepAfterDeparture(s.log, d, j);
    }
    KeepAfterDeparture(s.log, d, 0);
    assert s.queue == [s.queue[0]] + s.queue[1..];
  }

  /** A step that leaves queue, histories and everybody's readings alone. */
  lemma AccountedIfUntouched(s: State, s': State)
    requires Accounted(s)
    requires s'.queue == s.queue && s'.pushed == s.pushed && s'.log == s.log && s'.size == s.size
    requires |s'.cons| == |s.cons| && forall i :: 0 <= i < |s.cons| ==> s'.cons[i].taken == s.cons[i].taken
    ensures Accounted(s')
  {
  }

  lemma AccountedKept(s: State, step: Step)
    requires Enabled(s, step) && Accounted(s)
    ensures Accounted(Apply(s, step))
  {
    if step.Produce? && s.prod.Pushing? {
      AccountedAfterInsert(s, s.prod.data);
    } else if step.Own? && s.cons[step.i].pc.Taking? && s.queue != [] {
      AccountedAfterTake(s, step.i, s.cons[step.i].pc.r);
    } else {
      AccountedIfUntouched(s, Apply(s, step));
    }
  }

  lemma {:induction false} AccountedAlways(run: seq<State>, steps: seq<Step>, n: nat)
    requires IsRun(run, steps) && n < |run| && Init(run[0])
    ensures Accounted(run[n])
  {
    if n > 0 {
      AccountedAlways(run, steps, n - 1);
      AccountedKept(run[n - 1], steps[n - 1]);
    } else {
      forall i: nat | i < |run[0].cons|
        ensures run[0].cons[i].taken == Keep(Gone(run[0].log), TakenBy(run[0].log, i))
      {
        assert run[0].cons[i] in run[0].cons;
      }
    }
  }

  /** The indices of the pushes whose readings consumer i received. */
  function ReceivedBy(s: State, i: nat): seq<nat> {
    Kept(TakenBy(s.log, i))
  }

  /** The readings sbuffer_push is called with, in order. */
  function Produced(run: seq<State>, steps: seq<Step>): seq<Reading>
    requires |run| > |steps|
  {
    if steps == [] then []
    else
      var n := |steps| - 1;
      Produced(run, steps[..n]) + (if steps[n].Produce? && run[n].prod == Idle then [steps[n].data] else [])
  }

  /** The reading of a call that holds the mutex and has not inserted it yet. */
  function InFlight(s: State): seq<Reading> {
    if s.prod.Pushing? then [s.prod.data] else []
  }

  lemma {:induction false} PushesAreProduced(run: seq<State>, steps: seq<Step>, n: nat)
    requires IsRun(run, steps) && n < |run| && Init(run[0])
    ensures run[n].pushed + InFlight(run[n]) == Produced(run, steps[..n])
  {
    if n > 0 {
      PushesAreProduced(run, steps, n - 1);
      assert steps[..n][..n - 1] == steps[..n - 1];
      InFlightAfter(run[n - 1], steps[n - 1]);
    }
  }

  lemma InFlightAfter(s: State, step: Step)
    requires Enabled(s, step)
    ensures var s' := Apply(s, step);
      s'.pushed + InFlight(s') == s.pushed + InFlight(s) + (if step.Produce? && s.prod == Idle then [step.data] else [])
  {
  }

  /** In every run: departures in order, followed by the contents and the reading about to be inserted,
      are the readings produced; each consumer has received produced readings at strictly increasing
      indices; no reading reaches two consumers. */
  lemma FifoAccounting(run: seq<State>, steps: seq<Step>, n: nat, i: nat)
    requires IsRun(run, steps) && n < |run| && Init(run[0]) && i < |run[n].cons|
    ensures Gone(run[n].log) + run[n].queue == run[n].pushed && |run[n].queue| <= run[n].size
    ensures run[n].pushed + InFlight(run[n]) == Produced(run, steps[..n])
    ensures var ps, given := ReceivedBy(run[n], i), Produced(run, steps[..n]);
      && |run[n].cons[i].taken| == |ps|
      && (forall a, b :: 0 <= a < b < |ps| ==> ps[a] < ps[b])
      && (forall m :: 0 <= m < |ps| ==> ps[m] < |given| && run[n].cons[i].taken[m] == given[ps[m]])
    ensures forall j: nat, k :: j != i && k in ReceivedBy(run[n], i) ==> k !in ReceivedBy(run[n], j)
  {
    AccountedAlways(run, steps, n);
    PushesAreProduced(run, steps, n);
    var s, given := run[n], Produced(run, steps[..n]);
    KeepIsOrderedFilter(Gone(s.log), TakenBy(s.log, i));
    forall m | 0 <= m < |ReceivedBy(s, i)|
      ensures ReceivedBy(s, i)[m] < |given| && s.cons[i].taken[m] == given[ReceivedBy(s, i)[m]]
    {
      var p := ReceivedBy(s, i)[m];
      assert s.pushed[p] == Gone(s.log)[p] && given[p] == (s.pushed + InFlight(s))[p];
    }
  }

  /** Record k has been dropped exactly when push k + size has happened and nobody popped k; the
      push that dropped it is that very push, and a pop of k always came earlier. */
  lemma DroppedExactly(run: seq<State>, steps: seq<Step>, n: nat, k: nat)
    requires IsRun(run, steps) && n < |run| && Init(run[0])
    ensures var s := run[n];
      && ((k < |s.log| && s.log[k].taker.None?) <==>
          (k + s.size < |s.pushed| && !(k < |s.log| && s.log[k].taker.Some?)))
      && (k < |s.log| && s.log[k].taker.None? ==> s.log[k].pushesBefore == k + s.size)
      && (k < |s.log| && s.log[k].taker.Some? ==> s.log[k].pushesBefore <= k + s.size)
  {
    AccountedAlways(run, steps, n);
    assert |run[n].log| + |run[n].queue| == |run[n].pushed|;
  }
}
