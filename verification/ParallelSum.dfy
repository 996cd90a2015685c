/** The partitioned sum of sumArrMutex.c: workers add up slices and commit their local sums to a
    shared total under a mutex, as a load, an addition and a store. */
module ParallelSum {
  import opened Common

  const RANDOM_SEED := 1000

  /** The sum of the elements from lo up to hi. */
  function Sum(a: seq<int>, lo: nat, hi: nat): int
    requires lo <= hi <= |a|
    decreases hi
  {
    if lo == hi then 0 else Sum(a, lo, hi - 1) + a[hi - 1]
  }

  lemma {:induction false} SumSplit(a: seq<int>, lo: nat, mid: nat, hi: nat)
    requires lo <= mid <= hi <= |a|
    ensures Sum(a, lo, hi) == Sum(a, lo, mid) + Sum(a, mid, hi)
    decreases hi
  {
    if mid < hi {
      SumSplit(a, lo, mid, hi - 1);
    }
  }

  /** array_init generates values from 1 to 1000; this bounds every partial sum. */
  lemma {:induction false} SumBounds(a: seq<int>, lo: nat, hi: nat)
    requires lo <= hi <= |a| && forall i :: lo <= i < hi ==> 1 <= a[i] <= RANDOM_SEED
    ensures hi - lo <= Sum(a, lo, hi) <= RANDOM_SEED * (hi - lo)
    decreases hi
  {
    if lo < hi {
      SumBounds(a, lo, hi - 1);
    }
  }

  // ---------- the sequential code ----------

  /** checkSumResult */
  method CheckSumResult(arr: array<int>) returns (res: int)
    ensures res == Sum(arr[..], 0, arr.Length)
  {
    res := 0;
    var i := 0;
    while i < arr.Length
      invariant 0 <= i <= arr.Length && res == Sum(arr[..], 0, i)
    {
      res := res + arr[i];
      i := i + 1;
    }
  }

  /** The loop of calc_sum over one slice. */
  method LocalSum(arr: array<int>, begin: nat, slice: nat) returns (localSum: int)
    requires begin + slice <= arr.Length
    ensures localSum == Sum(arr[..], begin, begin + slice)
  {
    localSum := 0;
    var i := begin;
    while i < begin + slice
      invariant begin <= i <= begin + slice && localSum == Sum(arr[..], begin, i)
    {
      localSum := localSum + arr[i];
      i := i + 1;
    }
  }

  /** The partition in main: where each worker's slice begins. */
  method Partition(workers: nat, slice: nat) returns (firstIndex: array<nat>)
    requires workers > 0
    ensures firstIndex.Length == workers && fresh(firstIndex)
    ensures forall w :: 0 <= w < workers ==> firstIndex[w] == Begin(w, slice) == w * slice
  {
    firstIndex := new nat[workers](_ => 0);
    var i := 1;
    while i < workers
      invariant 1 <= i <= workers
      invariant forall w :: 0 <= w < i ==> firstIndex[w] == Begin(w, slice)
    {
      firstIndex[i] := firstIndex[i - 1] + slice;
      i := i + 1;
    }
    forall w | 0 <= w < workers ensures Begin(w, slice) == w * slice {
      BeginIsProduct(w, slice);
    }
  }

  // ---------- the threads ----------

  datatype Worker =
    | Adding(i: nat, local: int)     // in the loop
    | Locking(local: int)            // before pthread_mutex_lock
    | Loading(local: int)            // holds the mutex
    | Storing(local: int, tmp: int)  // holds the mutex, has read the total
    | Unlocking                      // holds the mutex, has written the total
    | Joined

  datatype State = State(arr: seq<int>, slice: nat, total: int, holder: Option<nat>, workers: seq<Worker>)

  function Begin(w: nat, slice: nat): nat {
    if w == 0 then 0 else Begin(w - 1, slice) + slice
  }

  lemma {:induction false} BeginIsProduct(w: nat, slice: nat)
    ensures Begin(w, slice) == w * slice
  {
    if w > 0 {
      BeginIsProduct(w - 1, slice);
      assert (w - 1) * slice + slice == w * slice;
    }
  }

  lemma {:induction false} BeginMonotone(v: nat, w: nat, slice: nat)
    requires v <= w
    ensures Begin(v, slice) <= Begin(w, slice)
  {
    if v < w {
      BeginMonotone(v, w - 1, slice);
    }
  }

  ghost predicate Init(s: State) {
    && s.total == 0 && s.holder == None && Begin(|s.workers|, s.slice) <= |s.arr|
    && forall w :: 0 <= w < |s.workers| ==> s.workers[w] == Adding(Begin(w, s.slice), 0)
  }

  predicate Enabled(s: State, w: nat) {
    w < |s.workers|
    && (s.workers[w].Locking? ==> s.holder == None)
    && (s.workers[w].Adding? && s.workers[w].i < Begin(w, s.slice) + s.slice ==> s.workers[w].i < |s.arr|)
    && !s.workers[w].Joined?
  }

  function Apply(s: State, w: nat): State
    requires Enabled(s, w)
  {
    match s.workers[w]
    case Adding(i, local) =>
      s.(workers := s.workers[w := if i < Begin(w, s.slice) + s.slice then Adding(i + 1, local + s.arr[i]) else Locking(local)])
    case Locking(local) => s.(workers := s.workers[w := Loading(local)], holder := Some(w))
    case Loading(local) => s.(workers := s.workers[w := Storing(local, s.total)])
    case Storing(local, tmp) => s.(workers := s.workers[w := Unlocking], total := tmp + local)
    case Unlocking => s.(workers := s.workers[w := Joined], holder := None)
    case Joined => s
  }

  predicate Committed(x: Worker) {
    x.Unlocking? || x.Joined?
  }

  /** What worker w has to contribute. */
  function Share(s: State, w: nat): int
    requires Begin(w, s.slice) + s.slice <= |s.arr|
  {
    Sum(s.arr, Begin(w, s.slice), Begin(w, s.slice) + s.slice)
  }

  /** The shares committed by the first n workers. */
  function CommittedSum(s: State, n: nat): int
    requires n <= |s.workers| && Begin(n, s.slice) <= |s.arr|
  {
    if n == 0 then 0
    else CommittedSum(s, n - 1) + (if Committed(s.workers[n - 1]) then Share(s, n - 1) else 0)
  }

  ghost predicate WorkerOk(s: State, w: nat)
    requires w < |s.workers| && Begin(w, s.slice) + s.slice <= |s.arr|
  {
    var begin := Begin(w, s.slice);
    && (match s.workers[w]
        case Adding(i, local) => begin <= i <= begin + s.slice && local == Sum(s.arr, begin, i)
        case Locking(local) => local == Share(s, w)
        case Loading(local) => local == Share(s, w)
        case Storing(local, tmp) => local == Share(s, w) && tmp == s.total
        case _ => true)
    && (s.holder == Some(w) <==> s.workers[w].Loading? || s.workers[w].Storing? || s.workers[w].Unlocking?)
  }

  ghost predicate Inv(s: State) {
    && Begin(|s.workers|, s.slice) <= |s.arr|
    && (forall w :: 0 <= w < |s.workers| ==> Begin(w, s.slice) + s.slice <= |s.arr| && WorkerOk(s, w))
    && (s.holder.Some? ==> s.holder.value < |s.workers|)
    && s.total == CommittedSum(s, |s.workers|)
  }

  lemma {:induction false} CommittedSumAfter(s: State, s': State, w: nat, n: nat)
    requires n <= |s.workers| == |s'.workers| && w < |s.workers| && s'.arr == s.arr && s'.slice == s.slice
    requires Begin(n, s.slice) <= |s.arr| && Begin(w, s.slice) + s.slice <= |s.arr|
    requires forall v :: 0 <= v < |s.workers| && v != w ==> s'.workers[v] == s.workers[v]
    ensures CommittedSum(s', n) == CommittedSum(s, n) +
      (if w >= n || Committed(s.workers[w]) == Committed(s'.workers[w]) then 0
       else if Committed(s'.workers[w]) then Share(s, w) else -Share(s, w))
  {
    if n > 0 {
      CommittedSumAfter(s, s', w, n - 1);
    }
  }

  lemma InvKept(s: State, w: nat)
    requires Inv(s) && Enabled(s, w)
    ensures Inv(Apply(s, w))
  {
    var s' := Apply(s, w);
    assert WorkerOk(s, w);
    CommittedSumAfter(s, s', w, |s.workers|);
    forall v | 0 <= v < |s.workers|
      ensures WorkerOk(s', v)
    {
      WorkerKept(s, w, v);
    }
  }

  lemma WorkerKept(s: State, w: nat, v: nat)
    requires Enabled(s, w) && v < |s.workers|
    requires Begin(w, s.slice) + s.slice <= |s.arr| && Begin(v, s.slice) + s.slice <= |s.arr|
    requires WorkerOk(s, w) && WorkerOk(s, v)
    ensures WorkerOk(Apply(s, w), v)
  {
  }

  /** No worker is ever stuck: as long as one has not joined, some worker has an enabled step. */
  lemma NeverStuck(s: State, w: nat) returns (v: nat)
    requires Inv(s) && w < |s.workers| && s.workers[w] != Joined
    ensures Enabled(s, v)
  {
    assert WorkerOk(s, w);
    v := if s.workers[w].Locking? && s.holder.Some? then s.holder.value else w;
    if v != w {
      assert v < |s.workers| ==> WorkerOk(s, v);
    }
  }

  ghost predicate IsRun(run: seq<State>, steps: seq<nat>) {
    && |run| == |steps| + 1
    && forall k :: 0 <= k < |steps| ==> Enabled(run[k], steps[k]) && run[k + 1] == Apply(run[k], steps[k])
  }

  lemma {:induction false} InvInitially(s: State, n: nat)
    requires Init(s) && n <= |s.workers|
    ensures Begin(n, s.slice) <= |s.arr| && CommittedSum(s, n) == 0
    ensures forall w :: 0 <= w < n ==> Begin(w, s.slice) + s.slice <= |s.arr| && WorkerOk(s, w)
  {
    BeginMonotone(n, |s.workers|, s.slice);
    if n > 0 {
      InvInitially(s, n - 1);
    }
  }

  lemma {:induction false} InvAlways(run: seq<State>, steps: seq<nat>, n: nat)
    requires IsRun(run, steps) && n < |run| && Init(run[0])
    ensures Inv(run[n])
    ensures run[n].arr == run[0].arr && run[n].slice == run[0].slice && |run[n].workers| == |run[0].workers|
  {
    if n == 0 {
      InvInitially(run[0], |run[0].workers|);
    } else {
      InvAlways(run, steps, n - 1);
      InvKept(run[n - 1], steps[n - 1]);
    }
  }

  // ---------- every run ends ----------

  /** How many steps worker w still has to make. */
  function Left(s: State, w: nat): nat
    requires w < |s.workers|
  {
    match s.workers[w]
    case Adding(i, _) => (if i < Begin(w, s.slice) + s.slice then Begin(w, s.slice) + s.slice - i else 0) + 5
    case Locking(_) => 4
    case Loading(_) => 3
    case Storing(_, _) => 2
    case Unlocking => 1
    case Joined => 0
  }

  /** The first n workers together. */
  function LeftAll(s: State, n: nat): nat
    requires n <= |s.workers|
  {
    if n == 0 then 0 else LeftAll(s, n - 1) + Left(s, n - 1)
  }

  lemma {:induction false} LeftAllAfter(s: State, w: nat, n: nat)
    requires Enabled(s, w) && n <= |s.workers|
    ensures |Apply(s, w).workers| == |s.workers|
    ensures LeftAll(Apply(s, w), n) == LeftAll(s, n) - (if w < n then 1 else 0)
  {
    if n > 0 {
      LeftAllAfter(s, w, n - 1);
    }
  }

  lemma {:induction false} LeftInitially(s: State, n: nat)
    requires Init(s) && n <= |s.workers|
    ensures LeftAll(s, n) == n * (s.slice + 5)
  {
    if n > 0 {
      LeftInitially(s, n - 1);
      assert n * (s.slice + 5) == (n - 1) * (s.slice + 5) + (s.slice + 5);
    }
  }

  lemma {:induction false} NothingLeft(s: State, n: nat)
    requires n <= |s.workers|
    ensures LeftAll(s, n) == 0 <==> forall w :: 0 <= w < n ==> s.workers[w] == Joined
  {
    if n > 0 {
      NothingLeft(s, n - 1);
    }
  }

  lemma {:induction false} WorkDone(run: seq<State>, steps: seq<nat>, n: nat)
    requires IsRun(run, steps) && n < |run| && Init(run[0])
    ensures |run[n].workers| == |run[0].workers|
    ensures LeftAll(run[n], |run[n].workers|) + n == |run[0].workers| * (run[0].slice + 5)
  {
    if n == 0 {
      LeftInitially(run[0], |run[0].workers|);
    } else {
      WorkDone(run, steps, n - 1);
      LeftAllAfter(run[n - 1], steps[n - 1], |run[0].workers|);
    }
  }

  /** No run is longer than slice + 5 steps for each worker, and it cannot be continued exactly when it
      has that many, which is when all workers have joined. */
  lemma EveryRunEnds(run: seq<State>, steps: seq<nat>)
    requires IsRun(run, steps) && Init(run[0])
    ensures |steps| <= |run[0].workers| * (run[0].slice + 5)
    ensures var s := run[|steps|];
      && ((forall w :: !Enabled(s, w)) <==> |steps| == |run[0].workers| * (run[0].slice + 5))
      && ((forall w :: !Enabled(s, w)) <==> forall w :: 0 <= w < |s.workers| ==> s.workers[w] == Joined)
  {
    var s := run[|steps|];
    WorkDone(run, steps, |steps|);
    NothingLeft(s, |s.workers|);
    InvAlways(run, steps, |steps|);
    if w: nat :| w < |s.workers| && s.workers[w] != Joined {
      var v := NeverStuck(s, w);
      assert Enabled(s, v);
    }
  }

  lemma {:induction false} AllCommitted(s: State, n: nat)
    requires n <= |s.workers| && Begin(n, s.slice) <= |s.arr|
    requires forall w :: 0 <= w < n ==> Committed(s.workers[w])
    ensures CommittedSum(s, n) == Sum(s.arr, 0, Begin(n, s.slice))
  {
    if n > 0 {
      AllCommitted(s, n - 1);
      SumSplit(s.arr, 0, Begin(n - 1, s.slice), Begin(n, s.slice));
    }
  }

  lemma EvenSplit(n: nat, k: nat)
    requires k > 0
    ensures k * (n / k) == n <==> n % k == 0
  {
    assert n == k * (n / k) + n % k;
  }

  /** The state main starts the workers in, with its slices of length N / K, is an initial state,
      whatever the array. */
  lemma MainStarts(arr: seq<int>, k: nat) returns (s: State)
    requires k > 0
    ensures s.arr == arr && s.slice == |arr| / k && |s.workers| == k && s.total == 0 && Init(s)
  {
    var slice := |arr| / k;
    s := State(arr, slice, 0, None, seq(k, w requires 0 <= w < k => Adding(Begin(w, slice), 0)));
    BeginIsProduct(k, slice);
    assert |arr| == k * slice + |arr| % k;
  }

  /** For any array, any number of workers and any interleaving, once all workers have joined the total
      is the sum of the part of the array that the slices cover. So it is the sequential sum exactly
      when the uncovered rest sums to 0, which it does when there is no rest: with slices of length
      N / K, as in main, when K divides N. For generated values that is the only way, and the total
      is at most 1000 times the length of the array. */
  lemma ParallelEqualsSequential(run: seq<State>, steps: seq<nat>)
    requires IsRun(run, steps) && Init(run[0])
    requires forall w :: 0 <= w < |run[|steps|].workers| ==> run[|steps|].workers[w] == Joined
    ensures var total, arr, k, slice := run[|steps|].total, run[0].arr, |run[0].workers|, run[0].slice;
      && k * slice <= |arr| && total == Sum(arr, 0, k * slice)
      && (total == Sum(arr, 0, |arr|) <==> Sum(arr, k * slice, |arr|) == 0)
      && (k * slice == |arr| ==> total == Sum(arr, 0, |arr|))
      && (k > 0 && slice == |arr| / k && |arr| % k == 0 ==> total == Sum(arr, 0, |arr|))
    ensures var total, arr, k, slice := run[|steps|].total, run[0].arr, |run[0].workers|, run[0].slice;
      (forall i :: 0 <= i < |arr| ==> 1 <= arr[i] <= 1000) ==>
        && (total == Sum(arr, 0, |arr|) <==> k * slice == |arr|)
        && (k > 0 && slice == |arr| / k ==> (total == Sum(arr, 0, |arr|) <==> |arr| % k == 0))
        && 0 <= total <= 1000 * |arr|
  {
    var s := run[|steps|];
    InvAlways(run, steps, |steps|);
    AllCommitted(s, |s.workers|);
    BeginIsProduct(|s.workers|, s.slice);
    var covered := Begin(|s.workers|, s.slice);
    SumSplit(s.arr, 0, covered, |s.arr|);
    if |s.workers| > 0 {
      EvenSplit(|s.arr|, |s.workers|);
    }
    if forall i :: 0 <= i < |s.arr| ==> 1 <= s.arr[i] <= 1000 {
      SumBounds(s.arr, covered, |s.arr|);
      SumBounds(s.arr, 0, covered);
    }
  }
}
