/** Execution time statistics of ThreadsCommon.c, kept incrementally; the C double is
    an exact real here. */
module ExecutionStatistics {
  import opened UInt

  datatype ThreadInfo = ThreadInfo(executionTime: uint64, minimum: uint64, maximum: uint64, mean: real, counter: uint64)

  function Update(info: ThreadInfo, t: uint64): ThreadInfo {
    info.(minimum := if t < info.minimum then t else info.minimum,
          maximum := if t > info.maximum then t else info.maximum,
          mean := info.mean + (t as real - info.mean) / (info.counter as real + 1.0),
          counter := Wrap64(info.counter + 1))
  }

  function UpdateAll(info: ThreadInfo, ts: seq<uint64>): ThreadInfo {
    if ts == [] then info else Update(UpdateAll(info, ts[..|ts| - 1]), ts[|ts| - 1])
  }

  function Sum(ts: seq<uint64>): nat {
    if ts == [] then 0 else Sum(ts[..|ts| - 1]) + ts[|ts| - 1]
  }

  /** m is the least of an initial value and the samples. */
  ghost predicate IsMinimum(m: uint64, initial: uint64, ts: seq<uint64>) {
    m <= initial && (forall t :: t in ts ==> m <= t) && (m == initial || m in ts)
  }

  ghost predicate IsMaximum(m: uint64, initial: uint64, ts: seq<uint64>) {
    m >= initial && (forall t :: t in ts ==> m >= t) && (m == initial || m in ts)
  }

  lemma {:induction false} CounterCounts(info: ThreadInfo, ts: seq<uint64>)
    requires info.counter == 0 && |ts| < TWO_64
    ensures UpdateAll(info, ts).counter == |ts|
  {
    if ts != [] { CounterCounts(info, ts[..|ts| - 1]); }
  }

  lemma StepMean(mean: real, n: real, t: real)
    requires n >= 0.0
    ensures (mean + (t - mean) / (n + 1.0)) * (n + 1.0) == mean * n + t
  {
    var d := (t - mean) / (n + 1.0);
    assert d * (n + 1.0) == t - mean;
    assert (mean + d) * (n + 1.0) == mean * n + mean + d * (n + 1.0);
  }

  function Total(info: ThreadInfo): real {
    info.mean * (info.counter as real)
  }

  /** The mean field times the counter is the sum; before the first sample the mean
      field may hold anything. */
  ghost predicate SumsTo(info: ThreadInfo, sum: nat) {
    info.counter > 0 ==> Total(info) == sum as real
  }

  lemma StepTotal(mean: real, n: nat, t: nat)
    ensures (mean + (t as real - mean) / (n as real + 1.0)) * ((n + 1) as real) == mean * (n as real) + t as real
    ensures n == 0 ==> mean * (n as real) == 0.0
  {
    StepMean(mean, n as real, t as real);
    assert (n + 1) as real == n as real + 1.0;
  }

  lemma UpdateSumsTo(info: ThreadInfo, sum: nat, t: uint64)
    requires SumsTo(info, sum) && (info.counter == 0 ==> sum == 0) && info.counter + 1 < TWO_64
    ensures SumsTo(Update(info, t), sum + t)
  {
    StepTotal(info.mean, info.counter, t);
  }

  lemma {:induction false} AllSumTo(info: ThreadInfo, ts: seq<uint64>)
    requires info.counter == 0 && |ts| < TWO_64
    ensures SumsTo(UpdateAll(info, ts), Sum(ts))
  {
    if ts != [] {
      var p := ts[..|ts| - 1];
      AllSumTo(info, p);
      CounterCounts(info, p);
      UpdateSumsTo(UpdateAll(info, p), Sum(p), ts[|ts| - 1]);
    }
  }

  /** The incremental mean times the count is the sum of the samples, whatever the
      mean field held before the first one. */
  lemma {:induction false} MeanIsExact(info: ThreadInfo, ts: seq<uint64>)
    requires info.counter == 0 && ts != [] && |ts| < TWO_64
    ensures UpdateAll(info, ts).counter == |ts|
    ensures Total(UpdateAll(info, ts)) == Sum(ts) as real
  {
    CounterCounts(info, ts);
    AllSumTo(info, ts);
  }

  lemma ExtremesStep(info: ThreadInfo, initial: ThreadInfo, ts: seq<uint64>, t: uint64)
    requires IsMinimum(info.minimum, initial.minimum, ts) && IsMaximum(info.maximum, initial.maximum, ts)
    ensures IsMinimum(Update(info, t).minimum, initial.minimum, ts + [t])
    ensures IsMaximum(Update(info, t).maximum, initial.maximum, ts + [t])
  {
  }

  /** Minimum and maximum are those of the samples and of the values they started from. */
  lemma {:induction false} ExtremesAreExact(info: ThreadInfo, ts: seq<uint64>)
    ensures IsMinimum(UpdateAll(info, ts).minimum, info.minimum, ts)
    ensures IsMaximum(UpdateAll(info, ts).maximum, info.maximum, ts)
  {
    if ts != [] {
      var p, t := ts[..|ts| - 1], ts[|ts| - 1];
      ExtremesAreExact(info, p);
      ExtremesStep(UpdateAll(info, p), info, p, t);
      assert ts == p + [t];
    }
  }

  /** The reported minimum is a sample's exactly when it did not start below them all:
      a field that starts at zero hides every nonzero minimum. */
  lemma MinimumIsASample(info: ThreadInfo, ts: seq<uint64>)
    ensures UpdateAll(info, ts).minimum in ts <==> exists t :: t in ts && t <= info.minimum
  {
    ExtremesAreExact(info, ts);
    var m := UpdateAll(info, ts).minimum;
    if t :| t in ts && t <= info.minimum {
      assert m == info.minimum ==> t == m;
    }
  }

  lemma BetweenStep(mean: real, n: real, t: real)
    requires n >= 0.0
    ensures t <= mean ==> t <= mean + (t - mean) / (n + 1.0) <= mean
    ensures mean <= t ==> mean <= mean + (t - mean) / (n + 1.0) <= t
  {
    var d := (t - mean) / (n + 1.0);
    assert d * (n + 1.0) == t - mean;
    if t <= mean {
      assert d <= 0.0;
      assert d * n <= 0.0;
    } else {
      assert d >= 0.0;
      assert d * n >= 0.0;
    }
  }

  /** From the first sample on, the mean lies between minimum and maximum. */
  lemma {:induction false} MeanIsBetween(info: ThreadInfo, ts: seq<uint64>)
    requires info.counter == 0 && ts != [] && |ts| < TWO_64
    ensures var r := UpdateAll(info, ts); r.minimum as real <= r.mean <= r.maximum as real
  {
    var p, t := ts[..|ts| - 1], ts[|ts| - 1];
    var before := UpdateAll(info, p);
    CounterCounts(info, p);
    BetweenStep(before.mean, |p| as real, t as real);
    if p != [] {
      MeanIsBetween(info, p);
    } else {
      assert (t as real - info.mean) / (0.0 + 1.0) == t as real - info.mean;
    }
  }

  class ThreadsInfo {
    const threads: array<ThreadInfo>

    constructor (initial: seq<ThreadInfo>)
      ensures fresh(threads) && threads[..] == initial
    {
      threads := new ThreadInfo[|initial|](i requires 0 <= i < |initial| => initial[i]);
    }

    method UpdateExecutionTimeData(threadId: nat, t: uint64)
      requires threadId < threads.Length
      modifies threads
      ensures threads[..] == old(threads[..])[threadId := Update(old(threads[threadId]), t)]
    {
      if t < threads[threadId].minimum {
        threads[threadId] := threads[threadId].(minimum := t);
      }
      if t > threads[threadId].maximum {
        threads[threadId] := threads[threadId].(maximum := t);
      }
      var mean := threads[threadId].mean;
      threads[threadId] :=
        threads[threadId].(mean := mean + (t as real - mean) / (threads[threadId].counter as real + 1.0));
      threads[threadId] := threads[threadId].(counter := Wrap64(threads[threadId].counter + 1));
    }
  }
}
