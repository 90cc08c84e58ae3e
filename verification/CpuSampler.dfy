/** The container CPU sampler: an accumulator over cumulative counters of containers that appear,
    vanish and come back. Times and counters are exact numbers here, not floating point. */
module CpuSampler {
  import opened Prelude

  /** One successful sample: the cumulative CPU seconds of each container listed. */
  type Snapshot = map<string, real>

  // ---------------------------------------------------------------------------------------
  // Sums over finite sets
  // ---------------------------------------------------------------------------------------

  ghost function Sum(s: set<string>, f: string -> real): real {
    if s == {} then 0.0 else var x :| x in s; f(x) + Sum(s - {x}, f)
  }

  lemma {:induction false} SumExtract(s: set<string>, f: string -> real, y: string)
    requires y in s
    ensures Sum(s, f) == f(y) + Sum(s - {y}, f)
  {
    var x :| x in s && Sum(s, f) == f(x) + Sum(s - {x}, f);
    if x != y {
      SumExtract(s - {x}, f, y);
      SumExtract(s - {y}, f, x);
      assert s - {x} - {y} == s - {y} - {x};
    }
  }

  /** f and g + h agree on the set. */
  ghost predicate Splits(s: set<string>, f: string -> real, g: string -> real, h: string -> real) {
    forall x :: x in s ==> f(x) == g(x) + h(x)
  }

  lemma {:induction false} SumSplits(s: set<string>, f: string -> real, g: string -> real, h: string -> real)
    requires Splits(s, f, g, h)
    ensures Sum(s, f) == Sum(s, g) + Sum(s, h)
  {
    if s != {} {
      var x :| x in s;
      SumExtract(s, f, x);
      SumExtract(s, g, x);
      SumExtract(s, h, x);
      SumSplits(s - {x}, f, g, h);
    }
  }

  /** Elements where the function is zero do not matter. */
  lemma {:induction false} SumSupport(s: set<string>, t: set<string>, f: string -> real)
    requires t <= s && forall x :: x in s && x !in t ==> f(x) == 0.0
    ensures Sum(s, f) == Sum(t, f)
    decreases |s|
  {
    if s != t {
      var x :| x in s && x !in t;
      SumExtract(s, f, x);
      SumSupport(s - {x}, t, f);
    }
  }

  lemma {:induction false} SumIsZero(s: set<string>, f: string -> real)
    requires forall x :: x in s ==> f(x) >= 0.0
    ensures Sum(s, f) >= 0.0
    ensures Sum(s, f) == 0.0 <==> forall x :: x in s ==> f(x) == 0.0
  {
    if s != {} {
      var x :| x in s;
      SumExtract(s, f, x);
      SumIsZero(s - {x}, f);
    }
  }

  // ---------------------------------------------------------------------------------------
  // What a history of samples says
  // ---------------------------------------------------------------------------------------

  ghost function Seen(h: seq<Snapshot>): set<string> {
    if h == [] then {} else Seen(h[..|h| - 1]) + h[|h| - 1].Keys
  }

  function Counter(s: Snapshot, id: string): real {
    if id in s then s[id] else 0.0
  }

  /** The last value a container was seen with. */
  ghost function Latest(h: seq<Snapshot>, id: string): real {
    if h == [] then 0.0
    else if id in h[|h| - 1] then h[|h| - 1][id]
    else Latest(h[..|h| - 1], id)
  }

  /** The value in the first sample, zero for a container that is not in it. */
  ghost function Baseline(h: seq<Snapshot>, id: string): real {
    if h == [] then 0.0 else Counter(h[0], id)
  }

  ghost function Growth(h: seq<Snapshot>): string -> real {
    id => Latest(h, id) - Baseline(h, id)
  }

  function Positive(x: real): real {
    if x > 0.0 then x else 0.0
  }

  ghost function Rise(h: seq<Snapshot>, now: Snapshot): string -> real {
    id => Positive(Counter(now, id) - Latest(h, id))
  }

  ghost function Fall(h: seq<Snapshot>, now: Snapshot): string -> real {
    id => Positive(Latest(h, id) - Counter(now, id))
  }

  /** How far counters went backwards, over the whole history. */
  ghost function Drops(h: seq<Snapshot>): real {
    if |h| <= 1 then 0.0
    else Drops(h[..|h| - 1]) + Sum(h[|h| - 1].Keys, Fall(h[..|h| - 1], h[|h| - 1]))
  }

  /** What the sampler adds up: the rises after the first sample. */
  ghost function Observed(h: seq<Snapshot>): real {
    if |h| <= 1 then 0.0
    else Observed(h[..|h| - 1]) + Sum(h[|h| - 1].Keys, Rise(h[..|h| - 1], h[|h| - 1]))
  }

  ghost predicate NoFall(h: seq<Snapshot>, now: Snapshot) {
    forall id :: id in now ==> Latest(h, id) <= now[id]
  }

  /** No container is ever seen with a smaller counter than before. */
  ghost predicate Monotone(h: seq<Snapshot>) {
    |h| <= 1 || (Monotone(h[..|h| - 1]) && NoFall(h[..|h| - 1], h[|h| - 1]))
  }

  ghost function Used(h: seq<Snapshot>): real {
    Sum(Seen(h), Growth(h))
  }

  lemma {:induction false} UnseenIsZero(h: seq<Snapshot>, id: string)
    requires id !in Seen(h)
    ensures Latest(h, id) == 0.0 && Baseline(h, id) == 0.0
  {
    if h != [] {
      UnseenIsZero(h[..|h| - 1], id);
    }
  }

  ghost function Change(h: seq<Snapshot>, now: Snapshot): string -> real {
    id => if id in now then now[id] - Latest(h, id) else 0.0
  }

  /** One more sample adds each listed container's change to the total growth. */
  lemma {:induction false} GrowthStep(h: seq<Snapshot>, now: Snapshot)
    requires h != []
    ensures Used(h + [now]) == Used(h) + Sum(now.Keys, Change(h, now))
  {
    var next := h + [now];
    assert next[..|next| - 1] == h;
    var all := Seen(h) + now.Keys;
    SumSplits(all, Growth(next), Growth(h), Change(h, now));
    forall id | id in all && id !in Seen(h) ensures Growth(h)(id) == 0.0 {
      UnseenIsZero(h, id);
    }
    SumSupport(all, Seen(h), Growth(h));
    SumSupport(all, now.Keys, Change(h, now));
  }

  lemma ChangeIsRiseLessFall(h: seq<Snapshot>, now: Snapshot)
    ensures Sum(now.Keys, Rise(h, now)) == Sum(now.Keys, Change(h, now)) + Sum(now.Keys, Fall(h, now))
  {
    SumSplits(now.Keys, Rise(h, now), Change(h, now), Fall(h, now));
  }

  lemma {:induction false} FirstSampleIsBaseline(h: seq<Snapshot>)
    requires |h| <= 1
    ensures Used(h) == 0.0
  {
    if |h| == 1 {
      assert h[..|h| - 1] == [] && Seen(h[..|h| - 1]) == {};
      forall id | id in Seen(h) ensures Growth(h)(id) == 0.0 {
        assert id in h[0];
      }
      SumIsZero(Seen(h), Growth(h));
    }
  }

  /** Whatever containers vanish, return or restart, the seconds observed are the growth of every
      container ever seen over its first-sample value, plus what counters lost by going backwards. */
  lemma {:induction false} ObservedIsGrowthPlusDrops(h: seq<Snapshot>)
    ensures Observed(h) == Used(h) + Drops(h)
  {
    if |h| <= 1 {
      FirstSampleIsBaseline(h);
    } else {
      var front, now := h[..|h| - 1], h[|h| - 1];
      assert h == front + [now];
      ObservedIsGrowthPlusDrops(front);
      GrowthStep(front, now);
      ChangeIsRiseLessFall(front, now);
    }
  }

  lemma {:induction false} NoDropsMeansMonotone(h: seq<Snapshot>)
    ensures Drops(h) >= 0.0
    ensures Drops(h) == 0.0 <==> Monotone(h)
  {
    if |h| > 1 {
      var front, now := h[..|h| - 1], h[|h| - 1];
      NoDropsMeansMonotone(front);
      SumIsZero(now.Keys, Fall(front, now));
      if Sum(now.Keys, Fall(front, now)) == 0.0 {
        forall id | id in now ensures Latest(front, id) <= now[id] {
          assert Fall(front, now)(id) == 0.0;
        }
      }
    }
  }

  /** The observed seconds are exactly the growth of all containers when, and only when, no counter
      goes backwards. */
  lemma {:induction false} ObservedIsGrowthIffMonotone(h: seq<Snapshot>)
    ensures Observed(h) >= Used(h)
    ensures Observed(h) == Used(h) <==> Monotone(h)
  {
    ObservedIsGrowthPlusDrops(h);
    NoDropsMeansMonotone(h);
  }

  // ---------------------------------------------------------------------------------------
  // The sampler
  // ---------------------------------------------------------------------------------------

  datatype Row = Row(id: string, cpuSeconds: real)

  /** What Docker and the clock answer: a listing with its statistics, or an error on the way. */
  datatype Reading = Rows(rows: seq<Row>, at: real) | Unavailable(message: string)

  datatype Sample = Sample(cores: Option<real>, observed: real)

  datatype Failure = Collection(message: string) | ZeroDivision

  /** A later row for the same container replaces an earlier one. */
  function SnapshotOf(rows: seq<Row>): Snapshot {
    if rows == [] then map[]
    else SnapshotOf(rows[..|rows| - 1])[rows[|rows| - 1].id := rows[|rows| - 1].cpuSeconds]
  }

  method Current(rows: seq<Row>) returns (current: Snapshot)
    ensures current == SnapshotOf(rows)
  {
    current := map[];
    for i := 0 to |rows|
      invariant current == SnapshotOf(rows[..i])
    {
      assert rows[..i + 1][..i] == rows[..i];
      current := current[rows[i].id := rows[i].cpuSeconds];
    }
    assert rows[..|rows|] == rows;
  }

  /** The rises are added up in whatever order the dictionary yields its items. */
  method Delta(ghost h: seq<Snapshot>, previous: Snapshot, current: Snapshot) returns (delta: real)
    requires Keeps(h, previous)
    ensures delta == Sum(current.Keys, Rise(h, current))
  {
    delta := 0.0;
    var left := current.Keys;
    while left != {}
      invariant left <= current.Keys
      invariant delta + Sum(left, Rise(h, current)) == Sum(current.Keys, Rise(h, current))
    {
      var id :| id in left;
      SumExtract(left, Rise(h, current), id);
      KeepsLatest(h, previous, id);
      delta := delta + Positive(current[id] - Counter(previous, id));
      left := left - {id};
    }
  }

  /** The retained counters are the latest value of every container ever seen. */
  ghost predicate Keeps(h: seq<Snapshot>, previous: Snapshot) {
    previous.Keys == Seen(h) && forall id :: id in previous ==> previous[id] == Latest(h, id)
  }

  lemma KeepsLatest(h: seq<Snapshot>, previous: Snapshot, id: string)
    requires Keeps(h, previous)
    ensures Counter(previous, id) == Latest(h, id)
  {
    if id !in previous {
      UnseenIsZero(h, id);
    }
  }

  lemma UpdateKeeps(h: seq<Snapshot>, previous: Snapshot, current: Snapshot)
    requires Keeps(h, previous)
    ensures Keeps(h + [current], previous + current)
  {
    var next := h + [current];
    assert next[..|next| - 1] == h;
  }

  class DockerSampler {
    var previousCpu: Snapshot
    var previousTime: Option<real>
    var observed: real
    ghost var history: seq<Snapshot>

    ghost predicate Valid() reads this {
      && Keeps(history, previousCpu)
      && observed == Observed(history)
      && (previousTime.None? <==> history == [])
    }

    constructor ()
      ensures Valid() && history == []
    {
      previousCpu, previousTime, observed, history := map[], None, 0.0, [];
    }

    /** The part of a sample after the statistics are in. Two samples at the same instant divide
        by zero, after the rises were added and before the counters are retained. */
    method Charge(current: Snapshot, delta: real, at: real) returns (r: Result<Sample, Failure>)
      requires Valid() && delta == Sum(current.Keys, Rise(history, current))
      modifies this
      ensures r.Err? <==> old(previousTime) == Some(at)
      ensures r.Err? ==> r.error.ZeroDivision? && SameCounters(old(history), old(previousCpu), old(previousTime))
      ensures r.Ok? ==> Valid() && history == old(history) + [current] && previousTime == Some(at)
      ensures r.Ok? ==> r.value == Sample(RateSince(old(previousTime), at, observed - old(observed)), observed)
    {
      ghost var next := history + [current];
      assert next[..|next| - 1] == history;
      UpdateKeeps(history, previousCpu, current);
      var cores: Option<real> := None;
      if previousTime.Some? {
        observed := observed + delta;
        if at == previousTime.value {
          return Err(ZeroDivision);
        }
        cores := Some(delta / (at - previousTime.value));
      }
      previousCpu, previousTime, history := previousCpu + current, Some(at), next;
      r := Ok(Sample(cores, observed));
    }

    ghost predicate SameCounters(h: seq<Snapshot>, cpu: Snapshot, time: Option<real>) reads this {
      history == h && previousCpu == cpu && previousTime == time
    }

    /** A failed collection changes nothing. A sample extends the history by what was listed, and
        reports the seconds observed so far and the rate since the previous sample. */
    method TakeSample(reading: Reading) returns (r: Result<Sample, Failure>)
      requires Valid()
      modifies this
      ensures reading.Unavailable? ==> r == Err(Collection(reading.message)) && Valid()
      ensures reading.Unavailable? ==> SameCounters(old(history), old(previousCpu), old(previousTime))
      ensures reading.Unavailable? ==> observed == old(observed)
      ensures reading.Rows? && old(previousTime) == Some(reading.at) ==> r == Err(ZeroDivision)
      ensures reading.Rows? && old(previousTime) != Some(reading.at) ==>
        && Valid() && history == old(history) + [SnapshotOf(reading.rows)] && previousTime == Some(reading.at)
        && r == Ok(Sample(RateSince(old(previousTime), reading.at, observed - old(observed)), observed))
    {
      if reading.Unavailable? {
        return Err(Collection(reading.message));
      }
      var current := Current(reading.rows);
      var delta := Delta(history, previousCpu, current);
      r := Charge(current, delta, reading.at);
    }
  }

  /** Cores in use on average since the previous sample: unknown at the first one. */
  function RateSince(before: Option<real>, at: real, seconds: real): (r: Option<real>)
    requires before != Some(at)
    ensures before.Some? ==> r.Some? && r.value * (at - before.value) == seconds
    ensures before.None? ==> r.None?
  {
    if before.None? then None else Some(seconds / (at - before.value))
  }

  /** The snapshots of those of the first n readings that can be sampled, in order. */
  function Snapshots(readings: seq<Reading>, n: nat): seq<Snapshot>
    requires n <= |readings|
  {
    if n == 0 then []
    else if readings[n - 1].Rows? then Snapshots(readings, n - 1) + [SnapshotOf(readings[n - 1].rows)]
    else Snapshots(readings, n - 1)
  }

  /** One turn of the sampling loop: every error but a division by zero is caught and recorded. */
  method Poll(sampler: DockerSampler, reading: Reading, samples: seq<Sample>, errors: seq<string>)
    returns (samples': seq<Sample>, errors': seq<string>, died: bool)
    requires sampler.Valid()
    modifies sampler
    ensures died <==> reading.Rows? && old(sampler.previousTime) == Some(reading.at)
    ensures !died ==> sampler.Valid()
    ensures reading.Unavailable? ==>
      && sampler.SameCounters(old(sampler.history), old(sampler.previousCpu), old(sampler.previousTime))
      && sampler.observed == old(sampler.observed) && samples' == samples && errors' == errors + [reading.message]
    ensures reading.Rows? && !died ==>
      && sampler.history == old(sampler.history) + [SnapshotOf(reading.rows)]
      && sampler.previousTime == Some(reading.at) && errors' == errors
      && |samples'| == |samples| + 1 && samples <= samples' && samples'[|samples|].observed == sampler.observed
  {
    samples', errors', died := samples, errors, false;
    var r := sampler.TakeSample(reading);
    match r
    case Ok(sample) => samples' := samples + [sample];
    case Err(Collection(message)) => errors' := errors + [message];
    case Err(ZeroDivision) => died := true;
  }

  /** The sampling loop, up to the end of the command or an error that is not caught. */
  method Collect(sampler: DockerSampler, readings: seq<Reading>)
    returns (samples: seq<Sample>, errors: seq<string>, died: bool)
    requires sampler.Valid() && sampler.history == [] && sampler.previousTime.None?
    modifies sampler
    ensures died <==> Stalls(readings, |readings|)
    ensures !died ==> sampler.Valid() && sampler.history == Snapshots(readings, |readings|)
    ensures !died ==> |samples| == |sampler.history| && |samples| + |errors| == |readings|
    ensures !died && samples != [] ==> samples[|samples| - 1].observed == sampler.observed
  {
    samples, errors, died := [], [], false;
    for i := 0 to |readings|
      invariant sampler.Valid() && sampler.history == Snapshots(readings, i)
      invariant |samples| == |sampler.history| && |samples| + |errors| == i
      invariant samples != [] ==> samples[|samples| - 1].observed == sampler.observed
      invariant sampler.previousTime == LastTime(readings, i) && !Stalls(readings, i)
    {
      samples, errors, died := Poll(sampler, readings[i], samples, errors);
      if died {
        StallsLater(readings, i + 1, |readings|);
        return;
      }
    }
  }

  /** Errors leave gaps and nothing else: the seconds in the last sample are the growth of every
      container listed by any successful reading, plus the backward jumps, and exactly the growth
      when no counter goes backwards. A division by zero is not caught and ends the run. */
  method RunCommand(readings: seq<Reading>) returns (samples: seq<Sample>, errors: seq<string>, died: bool)
    ensures died <==> Stalls(readings, |readings|)
    ensures !died ==> |samples| == |Snapshots(readings, |readings|)| && |samples| + |errors| == |readings|
    ensures !died && samples != [] ==> FinalCount(Snapshots(readings, |readings|), samples[|samples| - 1].observed)
  {
    var sampler := new DockerSampler();
    samples, errors, died := Collect(sampler, readings);
    ObservedIsGrowthPlusDrops(Snapshots(readings, |readings|));
    ObservedIsGrowthIffMonotone(Snapshots(readings, |readings|));
  }

  ghost predicate FinalCount(h: seq<Snapshot>, observed: real) {
    observed == Used(h) + Drops(h) && (observed == Used(h) <==> Monotone(h))
  }

  /** The clock at the last of the first n readings that succeeded. */
  function LastTime(readings: seq<Reading>, n: nat): Option<real>
    requires n <= |readings|
  {
    if n == 0 then None
    else if readings[n - 1].Rows? then Some(readings[n - 1].at)
    else LastTime(readings, n - 1)
  }

  /** Two successive successful readings carry the same clock value. */
  predicate Stalls(readings: seq<Reading>, n: nat)
    requires n <= |readings|
  {
    n > 0 &&
    (Stalls(readings, n - 1) || (readings[n - 1].Rows? && LastTime(readings, n - 1) == Some(readings[n - 1].at)))
  }

  lemma {:induction false} StallsLater(readings: seq<Reading>, k: nat, n: nat)
    requires k <= n <= |readings| && Stalls(readings, k)
    ensures Stalls(readings, n)
  {
    if k < n {
      StallsLater(readings, k, n - 1);
    }
  }
}
