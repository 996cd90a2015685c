/** Windowed averages and throttled alerts (src/data_manager.c). Temperatures are reals. */
module DataManager {
  import opened Common
  import opened Sequences

  const TOO_HOT: real := 40.0
  const TOO_COLD: real := 18.0
  const RESET_THRESHOLD_SECONDS := 3600
  const MIN_AVG_COUNT := 5
  const ALERT_COOLDOWN := 60

  /** A popped reading and the clock when it was handled. */
  datatype Sample = Sample(reading: Reading, now: int)

  datatype Alert = NoAlert | TooCold(average: real) | TooHot(average: real)

  predicate ValidId(id: int) {
    0 < id < MAX_SENSORS
  }

  // ---------- the specification: a window per sensor ----------

  /** The samples of one sensor, in order. */
  ghost function Own(h: seq<Sample>, id: int): seq<Sample> {
    if h == [] then []
    else Own(h[..|h| - 1], id) + (if h[|h| - 1].reading.sensorId == id then [h[|h| - 1]] else [])
  }

  /** They are exactly the samples with that id. */
  lemma {:induction false} OwnIsFilter(h: seq<Sample>, id: int)
    ensures Own(h, id) == Keep(h, OfSensor(h, id))
  {
    if h != [] {
      var n := |h| - 1;
      OwnIsFilter(h[..n], id);
      assert OfSensor(h, id)[..n] == OfSensor(h[..n], id);
    }
  }

  ghost function OfSensor(h: seq<Sample>, id: int): (mask: seq<bool>)
    ensures |mask| == |h| && forall k :: 0 <= k < |h| ==> (mask[k] <==> h[k].reading.sensorId == id)
  {
    seq(|h|, k requires 0 <= k < |h| => h[k].reading.sensorId == id)
  }

  /** A reset gap: handled more than an hour after the time stamp of the previous reading. */
  predicate Gap(previous: Sample, next: Sample) {
    next.now - previous.reading.timestamp > RESET_THRESHOLD_SECONDS
  }

  /** Where the window of a sensor's samples starts. */
  ghost function WindowStart(own: seq<Sample>): (k: nat)
    ensures k <= |own| && (own != [] ==> k < |own|)
  {
    var n := |own|;
    if n <= 1 then 0
    else if Gap(own[n - 2], own[n - 1]) then n - 1
    else WindowStart(own[..n - 1])
  }

  ghost function Window(own: seq<Sample>): seq<Sample> {
    own[WindowStart(own)..]
  }

  /** The window is the longest suffix in which each reading was handled at most 3600 s after the time
      stamp of the one before. */
  lemma {:induction false} WindowIsLongestGapless(own: seq<Sample>, k: nat)
    requires k <= |own|
    ensures Window(own) == own[WindowStart(own)..]
    ensures k >= WindowStart(own) <==> forall j :: k < j < |own| ==> own[j].now - own[j - 1].reading.timestamp <= 3600
    decreases |own|
  {
    var n := |own|;
    if n > 1 && k < n - 1 {
      var front := own[..n - 1];
      WindowIsLongestGapless(front, k);
      assert forall j :: 0 <= j < n - 1 ==> front[j] == own[j];
      assert Gap(own[n - 2], own[n - 1]) <==> own[n - 1].now - own[n - 2].reading.timestamp > 3600;
    }
  }

  ghost function Total(w: seq<Sample>): real {
    if w == [] then 0.0 else Total(w[..|w| - 1]) + w[|w| - 1].reading.temperature
  }

  /** One more sample of the same sensor: the window starts over or grows by it. */
  lemma WindowGrows(own: seq<Sample>, x: Sample)
    ensures own == [] || Gap(own[|own| - 1], x) ==> Window(own + [x]) == [x]
    ensures own != [] && !Gap(own[|own| - 1], x) ==> Window(own + [x]) == Window(own) + [x]
  {
    assert (own + [x])[..|own|] == own;
  }

  lemma {:induction false} TotalAtLeast(w: seq<Sample>, low: real)
    requires forall x :: x in w ==> low <= x.reading.temperature
    ensures low * |w| as real <= Total(w)
  {
    if w != [] {
      var n := |w| - 1;
      TotalAtLeast(w[..n], low);
      assert w[n] in w && |w| as real == n as real + 1.0;
      assert low * |w| as real == low * n as real + low;
    }
  }

  lemma {:induction false} TotalAtMost(w: seq<Sample>, high: real)
    requires forall x :: x in w ==> x.reading.temperature <= high
    ensures Total(w) <= high * |w| as real
  {
    if w != [] {
      var n := |w| - 1;
      TotalAtMost(w[..n], high);
      assert w[n] in w && |w| as real == n as real + 1.0;
      assert high * |w| as real == high * n as real + high;
    }
  }

  ghost function Average(w: seq<Sample>): real
    requires w != []
  {
    Total(w) / |w| as real
  }

  /** The window average lies between any bounds on the window's readings. */
  lemma AverageBetween(w: seq<Sample>, low: real, high: real)
    requires w != []
    ensures (forall x :: x in w ==> low <= x.reading.temperature) ==> low <= Average(w)
    ensures (forall x :: x in w ==> x.reading.temperature <= high) ==> Average(w) <= high
  {
    if forall x :: x in w ==> low <= x.reading.temperature {
      TotalAtLeast(w, low);
      QuotientBounds(Total(w), |w| as real, low);
    }
    if forall x :: x in w ==> x.reading.temperature <= high {
      TotalAtMost(w, high);
      QuotientBounds(Total(w), |w| as real, high);
    }
  }

  lemma QuotientBounds(total: real, n: real, bound: real)
    requires n > 0.0
    ensures bound * n <= total ==> bound <= total / n
    ensures total <= bound * n ==> total / n <= bound
  {
    assert total == (total / n) * n;
  }

  // ---------- the specification: alerts ----------

  datatype Event = Event(id: int, time: int, hot: bool)

  /** When sensor id last raised an alert; the source starts from time 0. */
  function LastAlert(es: seq<Event>, id: int): int {
    if es == [] then 0
    else if es[|es| - 1].id == id then es[|es| - 1].time
    else LastAlert(es[..|es| - 1], id)
  }

  ghost predicate OutOfRange(w: seq<Sample>) {
    |w| >= MIN_AVG_COUNT && (Average(w) < TOO_COLD || Average(w) > TOO_HOT)
  }

  /** The last sample raises an alert: a full enough window, an average outside the range, and the
      cooldown over. */
  ghost predicate Fires(h: seq<Sample>)
    requires h != []
    decreases |h|, 0
  {
    var x := h[|h| - 1];
    var id := x.reading.sensorId;
    && ValidId(id)
    && OutOfRange(Window(Own(h, id)))
    && x.now - LastAlert(Alerts(h[..|h| - 1]), id) >= ALERT_COOLDOWN
  }

  /** With the ids and limits of the source written out. */
  lemma FiresExactly(h: seq<Sample>, x: Sample)
    ensures var id, w := x.reading.sensorId, Window(Own(h + [x], x.reading.sensorId));
      Fires(h + [x]) <==>
        && 0 < id < 50
        && |w| >= 5 && (Average(w) < 18.0 || Average(w) > 40.0)
        && x.now - LastAlert(Alerts(h), id) >= 60
  {
    assert (h + [x])[..|h|] == h;
  }

  /** All alerts of a run that handled the samples `h`. */
  ghost function Alerts(h: seq<Sample>): seq<Event>
    decreases |h|, 1
  {
    if h == [] then []
    else
      var x := h[|h| - 1];
      var w := Window(Own(h, x.reading.sensorId));
      Alerts(h[..|h| - 1]) +
      if Fires(h) then [Event(x.reading.sensorId, x.now, Average(w) > TOO_HOT)] else []
  }

  function Times(es: seq<Event>, id: int): seq<int> {
    if es == [] then []
    else Times(es[..|es| - 1], id) + (if es[|es| - 1].id == id then [es[|es| - 1].time] else [])
  }

  ghost predicate Spaced(ts: seq<int>) {
    forall i :: 0 < i < |ts| ==> ts[i] - ts[i - 1] >= 60
  }

  lemma {:induction false} LastAlertIsLastTime(es: seq<Event>, id: int)
    ensures LastAlert(es, id) == if Times(es, id) == [] then 0 else Times(es, id)[|Times(es, id)| - 1]
  {
    if es != [] {
      LastAlertIsLastTime(es[..|es| - 1], id);
    }
  }

  /** In every run, whatever the clock does, one sensor's alerts are at least 60 s apart. */
  lemma {:induction false} AlertsAreSpaced(h: seq<Sample>, id: int)
    ensures var ts := Times(Alerts(h), id); forall i :: 0 < i < |ts| ==> ts[i] - ts[i - 1] >= 60
    ensures Spaced(Times(Alerts(h), id))
  {
    if h != [] {
      var front, x := h[..|h| - 1], h[|h| - 1];
      assert h == front + [x];
      AlertsAreSpaced(front, id);
      LastAlertIsLastTime(Alerts(front), id);
      AlertsStep(front, x, id);
    }
  }

  /** What one more sample adds to the alerts of sensor id. */
  lemma AlertsStep(front: seq<Sample>, x: Sample, id: int)
    ensures var raised := Fires(front + [x]) && x.reading.sensorId == id;
      && Times(Alerts(front + [x]), id) == Times(Alerts(front), id) + (if raised then [x.now] else [])
      && LastAlert(Alerts(front + [x]), id) == (if raised then x.now else LastAlert(Alerts(front), id))
  {
    var h := front + [x];
    assert h[..|h| - 1] == front;
    var es := Alerts(h);
    if Fires(h) {
      assert es[..|es| - 1] == Alerts(front);
    } else {
      assert es == Alerts(front);
    }
  }

  lemma OwnStep(front: seq<Sample>, x: Sample, id: int)
    ensures Own(front + [x], id) == Own(front, id) + (if x.reading.sensorId == id then [x] else [])
  {
    assert (front + [x])[..|front|] == front;
  }

  /** Which of the times lie within `span` seconds from `start` on. */
  ghost function InSpan(ts: seq<int>, start: int, span: nat): set<nat> {
    set k: nat | k < |ts| && start <= ts[k] <= start + span
  }

  lemma {:induction false} SpacedApart(ts: seq<int>, a: nat, b: nat)
    requires Spaced(ts) && a <= b < |ts|
    ensures ts[b] - ts[a] >= 60 * (b - a)
    decreases b
  {
    if a < b {
      SpacedApart(ts, a, b - 1);
    }
  }

  /** Numbers no more than `width` apart. */
  lemma {:induction false} SetWithinWidth(ks: set<nat>, low: nat, width: nat)
    requires forall k :: k in ks ==> low <= k <= low + width
    ensures |ks| <= width + 1
  {
    if width == 0 {
      assert ks <= {low};
      SubsetSize(ks, {low});
    } else {
      SetWithinWidth(ks - {low + width}, low, width - 1);
    }
  }

  lemma SubsetSize(a: set<nat>, b: set<nat>)
    requires a <= b
    ensures |a| <= |b|
  {
    assert b == a + (b - a);
  }

  lemma {:induction false} LeastOf(ks: set<nat>, candidate: nat) returns (low: nat)
    requires candidate in ks
    ensures low in ks && forall k :: k in ks ==> low <= k
    decreases candidate
  {
    low := candidate;
    if k :| k in ks && k < candidate {
      low := LeastOf(ks, k);
    }
  }

  /** Any span of T seconds holds at most T / 60 + 1 alerts of one sensor, over every run. */
  lemma AlertRateBounded(h: seq<Sample>, id: int, start: int, span: nat)
    ensures var ts := Times(Alerts(h), id);
      |set k: nat | k < |ts| && start <= ts[k] <= start + span| <= span / 60 + 1
  {
    var ts := Times(Alerts(h), id);
    var ks := InSpan(ts, start, span);
    assert ks == set k: nat | k < |ts| && start <= ts[k] <= start + span;
    AlertsAreSpaced(h, id);
    if ks != {} {
      var any :| any in ks;
      var low := LeastOf(ks, any);
      forall k | k in ks ensures low <= k <= low + span / 60 {
        SpacedApart(ts, low, k);
      }
      SetWithinWidth(ks, low, span / 60);
    }
  }

  /** A window wholly inside the range never alerts; a cold (hot) alert has a cold (hot) reading in
      the window that raised it. */
  lemma AlertHasWitness(h: seq<Sample>)
    requires h != [] && Fires(h)
    ensures var es, w := Alerts(h), Window(Own(h, h[|h| - 1].reading.sensorId));
      && es != [] && es[|es| - 1].time == h[|h| - 1].now
      && (if es[|es| - 1].hot then exists x :: x in w && x.reading.temperature > TOO_HOT
          else exists x :: x in w && x.reading.temperature < TOO_COLD)
  {
    AverageBetween(Window(Own(h, h[|h| - 1].reading.sensorId)), TOO_COLD, TOO_HOT);
  }

  // ---------- the code ----------

  /** The fields of one sensor after the samples h: total and size of its window, time stamp of its
      last reading, time of its last alert. */
  ghost predicate Fits(h: seq<Sample>, id: int, sum: real, count: int, lastUpdate: int, lastAlert: int) {
    var own := Own(h, id);
    && sum == Total(Window(own))
    && count == |Window(own)|
    && lastUpdate == (if own == [] then 0 else own[|own| - 1].reading.timestamp)
    && lastAlert == LastAlert(Alerts(h), id)
  }

  /** Sensors do not affect each other, and invalid ids affect nobody. */
  lemma FitsOthers(h: seq<Sample>, x: Sample, id: int, sum: real, count: int, lastUpdate: int, lastAlert: int)
    requires Fits(h, id, sum, count, lastUpdate, lastAlert) && x.reading.sensorId != id
    ensures Fits(h + [x], id, sum, count, lastUpdate, lastAlert)
  {
    OwnStep(h, x, id);
    assert Own(h + [x], id) == Own(h, id);
    AlertsStep(h, x, id);
  }

  /** The source's update of sum, count and last_update keeps the fields those of the window. */
  lemma FitsAccumulated(h: seq<Sample>, x: Sample, sum: real, count: int, lastUpdate: int, lastAlert: int)
    requires Fits(h, x.reading.sensorId, sum, count, lastUpdate, lastAlert)
    ensures var w, reset := Window(Own(h + [x], x.reading.sensorId)), x.now - lastUpdate > RESET_THRESHOLD_SECONDS;
      && w != []
      && Total(w) == (if reset then x.reading.temperature else sum + x.reading.temperature)
      && |w| == (if reset then 1 else count + 1)
      && Own(h + [x], x.reading.sensorId) == Own(h, x.reading.sensorId) + [x]
  {
    var own := Own(h, x.reading.sensorId);
    OwnStep(h, x, x.reading.sensorId);
    WindowGrows(own, x);
    TotalGrows([], x);
    TotalGrows(Window(own), x);
  }

  lemma TotalGrows(w: seq<Sample>, x: Sample)
    ensures Total(w + [x]) == Total(w) + x.reading.temperature
  {
    assert (w + [x])[..|w|] == w;
  }

  /** The contents of the four arrays. */
  datatype Fields = Fields(sum: seq<real>, count: seq<int>, lastUpdate: seq<int>, lastAlert: seq<int>)
  {
    predicate Full() {
      |sum| == |count| == |lastUpdate| == |lastAlert| == MAX_SENSORS
    }
  }

  ghost predicate FitsAll(h: seq<Sample>, f: Fields) {
    && f.Full()
    && forall id :: ValidId(id) ==> Fits(h, id, f.sum[id], f.count[id], f.lastUpdate[id], f.lastAlert[id])
  }

  lemma FitsAllInvalid(h: seq<Sample>, x: Sample, f: Fields)
    requires FitsAll(h, f) && !ValidId(x.reading.sensorId)
    ensures FitsAll(h + [x], f)
  {
    OthersStillFit(h, x, f, f);
  }

  /** What lines 79-96 do to the arrays. */
  function Accumulated(f: Fields, r: Reading, now: int): Fields
    requires f.Full() && ValidId(r.sensorId)
  {
    var id := r.sensorId;
    var reset := now - f.lastUpdate[id] > RESET_THRESHOLD_SECONDS;
    Fields(f.sum[id := if reset then r.temperature else f.sum[id] + r.temperature],
           f.count[id := if reset then 1 else f.count[id] + 1],
           f.lastUpdate[id := r.timestamp],
           f.lastAlert)
  }

  /** For the sensor the sample belongs to: the decision made from its updated fields is the one its
      window calls for, and the fields fit again once a raised alert has been dated. */
  lemma FitsOwn(h: seq<Sample>, x: Sample, sum: real, count: int, lastUpdate: int, lastAlert: int)
    requires Fits(h, x.reading.sensorId, sum, count, lastUpdate, lastAlert) && ValidId(x.reading.sensorId)
    ensures var reset := x.now - lastUpdate > RESET_THRESHOLD_SECONDS;
      var sum', count' := (if reset then x.reading.temperature else sum + x.reading.temperature), (if reset then 1 else count + 1);
      && count' > 0
      && Decision(sum', count', x.now, lastAlert) == Expected(h + [x])
      && Fits(h + [x], x.reading.sensorId, sum', count', x.reading.timestamp,
              if Expected(h + [x]) == NoAlert then lastAlert else x.now)
  {
    FitsAccumulated(h, x, sum, count, lastUpdate, lastAlert);
    AlertsStep(h, x, x.reading.sensorId);
    assert (h + [x])[..|h + [x]| - 1] == h;
  }

  /** Accumulating and then deciding keeps every sensor's fields those of its window, and decides
      what the window calls for. */
  lemma FitsAllValid(h: seq<Sample>, x: Sample, f: Fields)
    requires FitsAll(h, f) && ValidId(x.reading.sensorId)
    ensures var id, f' := x.reading.sensorId, Accumulated(f, x.reading, x.now);
      && f'.count[id] > 0
      && Decision(f'.sum[id], f'.count[id], x.now, f'.lastAlert[id]) == Expected(h + [x])
      && FitsAll(h + [x], if Expected(h + [x]) == NoAlert then f' else f'.(lastAlert := f'.lastAlert[id := x.now]))
  {
    var id, f' := x.reading.sensorId, Accumulated(f, x.reading, x.now);
    var f'' := if Expected(h + [x]) == NoAlert then f' else f'.(lastAlert := f'.lastAlert[id := x.now]);
    FitsOwn(h, x, f.sum[id], f.count[id], f.lastUpdate[id], f.lastAlert[id]);
    OthersStillFit(h, x, f, f'');
    forall i | ValidId(i)
      ensures Fits(h + [x], i, f''.sum[i], f''.count[i], f''.lastUpdate[i], f''.lastAlert[i])
    {
    }
  }

  lemma OthersStillFit(h: seq<Sample>, x: Sample, f: Fields, f': Fields)
    requires FitsAll(h, f) && f'.Full()
    requires forall i :: 0 <= i < MAX_SENSORS && i != x.reading.sensorId ==>
      f'.sum[i] == f.sum[i] && f'.count[i] == f.count[i] && f'.lastUpdate[i] == f.lastUpdate[i] && f'.lastAlert[i] == f.lastAlert[i]
    ensures forall i :: ValidId(i) && i != x.reading.sensorId ==>
      Fits(h + [x], i, f'.sum[i], f'.count[i], f'.lastUpdate[i], f'.lastAlert[i])
  {
    forall i | ValidId(i) && i != x.reading.sensorId
      ensures Fits(h + [x], i, f'.sum[i], f'.count[i], f'.lastUpdate[i], f'.lastAlert[i])
    {
      FitsOthers(h, x, i, f.sum[i], f.count[i], f.lastUpdate[i], f.lastAlert[i]);
    }
  }

  class Averages {
    const sum: array<real>
    const count: array<int>
    const lastUpdate: array<int>
    const lastAlert: array<int>
    ghost var history: seq<Sample>

    ghost predicate Shape() {
      && sum.Length == count.Length == lastUpdate.Length == lastAlert.Length == MAX_SENSORS
      && count != lastUpdate && count != lastAlert && lastUpdate != lastAlert
    }

    ghost predicate Valid()
      reads this, sum, count, lastUpdate, lastAlert
    {
      && Shape()
      && FitsAll(history, Fields(sum[..], count[..], lastUpdate[..], lastAlert[..]))
    }

    constructor ()
      ensures Valid() && history == []
      ensures fresh(sum) && fresh(count) && fresh(lastUpdate) && fresh(lastAlert)
    {
      sum := new real[MAX_SENSORS](_ => 0.0);
      count := new int[MAX_SENSORS](_ => 0);
      lastUpdate := new int[MAX_SENSORS](_ => 0);
      lastAlert := new int[MAX_SENSORS](_ => 0);
      history := [];
    }

    /** data_manager.c:79-96: start over after a gap, otherwise accumulate. */
    method Accumulate(r: Reading, now: int)
      requires Shape() && ValidId(r.sensorId)
      modifies sum, count, lastUpdate
      ensures Fields(sum[..], count[..], lastUpdate[..], lastAlert[..])
           == Accumulated(old(Fields(sum[..], count[..], lastUpdate[..], lastAlert[..])), r, now)
    {
      var id := r.sensorId;
      if now - lastUpdate[id] > RESET_THRESHOLD_SECONDS {
        sum[id] := r.temperature;
        count[id] := 1;
      } else {
        sum[id] := sum[id] + r.temperature;
        count[id] := count[id] + 1;
      }
      lastUpdate[id] := r.timestamp;
    }

    /** data_manager.c:99-152: the decision, from the sensor's own fields. */
    method Decide(id: int, now: int) returns (alert: Alert)
      requires Shape() && ValidId(id) && count[id] > 0
      modifies lastAlert
      ensures alert == Decision(sum[id], count[id], now, old(lastAlert[id]))
      ensures lastAlert[..] == if alert == NoAlert then old(lastAlert[..]) else old(lastAlert[..])[id := now]
    {
      alert := NoAlert;
      if count[id] >= MIN_AVG_COUNT {
        var average := sum[id] / count[id] as real;
        if now - lastAlert[id] >= ALERT_COOLDOWN {
          if average < TOO_COLD {
            alert := TooCold(average);
            lastAlert[id] := now;
          } else if average > TOO_HOT {
            alert := TooHot(average);
            lastAlert[id] := now;
          }
        }
      }
    }

    /** One popped reading. An invalid sensor id changes nothing; otherwise the sensor's fields stay
        those of its window and an alert is raised exactly when the specification says so. */
    method Process(r: Reading, now: int) returns (alert: Alert)
      requires Valid()
      modifies this, sum, count, lastUpdate, lastAlert
      ensures Valid() && history == old(history) + [Sample(r, now)]
      ensures alert == Expected(history)
      ensures var w := Window(Own(history, r.sensorId));
        var due := 0 < r.sensorId < 50 && |w| >= 5 && now - LastAlert(Alerts(old(history)), r.sensorId) >= 60;
        && (alert.TooCold? <==> due && Average(w) < 18.0) && (alert.TooCold? ==> alert.average == Average(w))
        && (alert.TooHot? <==> due && Average(w) > 40.0) && (alert.TooHot? ==> alert.average == Average(w))
      ensures Alerts(history) == Alerts(old(history)) + (if alert == NoAlert then [] else [Event(r.sensorId, now, alert.TooHot?)])
      ensures r.sensorId <= 0 || r.sensorId >= 50 ==> alert == NoAlert && unchanged(sum, count, lastUpdate, lastAlert)
      ensures forall id :: 0 < id < 50 ==> Fits(history, id, sum[id], count[id], lastUpdate[id], lastAlert[id])
    {
      ghost var h, x := history, Sample(r, now);
      assert (h + [x])[..|h|] == h;
      EventOfAlert(h, x);
      if r.sensorId <= 0 || r.sensorId >= MAX_SENSORS {
        alert := NoAlert;
        history := h + [x];
        FitsAllInvalid(h, x, Fields(sum[..], count[..], lastUpdate[..], lastAlert[..]));
        return;
      }
      alert := ProcessValid(r, now);
    }

    /** One iteration, reporting what it adds to the alerts of the whole run. */
    method Handle(x: Sample) returns (events: seq<Event>)
      requires Valid()
      modifies this, sum, count, lastUpdate, lastAlert
      ensures Valid() && history == old(history) + [x]
      ensures Alerts(history) == Alerts(old(history)) + events
    {
      var alert := Process(x.reading, x.now);
      events := EventsFor(x, alert);
    }

    /** The consumer's loop over everything it pops: the alerts it raises are those the specification
        gives for all samples handled so far. */
    method Run(samples: seq<Sample>) returns (raised: seq<Event>)
      requires Valid()
      modifies this, sum, count, lastUpdate, lastAlert
      ensures Valid() && history == old(history) + samples
      ensures Alerts(history) == Alerts(old(history)) + raised
      ensures forall id :: 0 < id < 50 ==> Fits(history, id, sum[id], count[id], lastUpdate[id], lastAlert[id])
    {
      raised := [];
      ghost var handled, alerted := history, Alerts(history);
      var i := 0;
      while i < |samples|
        invariant 0 <= i <= |samples| && Valid()
        invariant history == handled + samples[..i]
        invariant Alerts(history) == alerted + raised
      {
        ghost var before := raised;
        var events := Handle(samples[i]);
        raised := raised + events;
        Associative(alerted, before, events);
        AppendNext(handled, samples, i);
        i := i + 1;
      }
      assert samples[..i] == samples;
    }

    /** The rest of the loop body, for a valid sensor id. */
    method ProcessValid(r: Reading, now: int) returns (alert: Alert)
      requires Valid() && ValidId(r.sensorId)
      modifies this, sum, count, lastUpdate, lastAlert
      ensures Valid() && history == old(history) + [Sample(r, now)]
      ensures alert == Expected(history)
    {
      FitsAllValid(history, Sample(r, now), Fields(sum[..], count[..], lastUpdate[..], lastAlert[..]));
      Accumulate(r, now);
      alert := Decide(r.sensorId, now);
      history := history + [Sample(r, now)];
    }
  }

  /** The alert that sum, count, clock and last alert time call for. */
  function Decision(sum: real, count: int, now: int, lastAlert: int): Alert
    requires count > 0
  {
    if count >= MIN_AVG_COUNT && now - lastAlert >= ALERT_COOLDOWN then
      var average := sum / count as real;
      if average < TOO_COLD then TooCold(average)
      else if average > TOO_HOT then TooHot(average)
      else NoAlert
    else NoAlert
  }

  /** The alert the last sample of h calls for. */
  ghost function Expected(h: seq<Sample>): Alert
    requires h != []
  {
    var w := Window(Own(h, h[|h| - 1].reading.sensorId));
    if !Fires(h) then NoAlert
    else if Average(w) < TOO_COLD then TooCold(Average(w))
    else TooHot(Average(w))
  }

  function EventsFor(x: Sample, alert: Alert): seq<Event> {
    if alert == NoAlert then [] else [Event(x.reading.sensorId, x.now, alert.TooHot?)]
  }

  lemma EventOfAlert(h: seq<Sample>, x: Sample)
    ensures Alerts(h + [x]) == Alerts(h) + EventsFor(x, Expected(h + [x]))
  {
    assert (h + [x])[..|h + [x]| - 1] == h;
  }
}
