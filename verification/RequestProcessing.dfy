/** ThreadsCommon_ProcessRequest: a request is carried out between two entries of the
    activation log, and the time it took goes into its thread's statistics. */
module RequestProcessing {
  import opened UInt
  import A = ActivationLog
  import S = ExecutionStatistics

  /** Clock readings around the user's function. */
  datatype Execution = Execution(before: uint64, after: uint64)

  function TimeTaken(e: Execution): uint64 {
    Wrap64(e.after - e.before)
  }

  function Process(info: S.ThreadInfo, e: Execution): S.ThreadInfo {
    S.Update(info.(executionTime := TimeTaken(e)), TimeTaken(e))
  }

  function ProcessAll(info: S.ThreadInfo, es: seq<Execution>): S.ThreadInfo {
    if es == [] then info else Process(ProcessAll(info, es[..|es| - 1]), es[|es| - 1])
  }

  function Times(es: seq<Execution>): (ts: seq<uint64>)
    ensures |ts| == |es|
  {
    seq(|es|, i requires 0 <= i < |es| => TimeTaken(es[i]))
  }

  /** The time recorded last, and handed to the statistics, is what takes the first reading to
      the second on the 64-bit clock; with no wrap in between, their difference. */
  lemma RecordsTimeTaken(info: S.ThreadInfo, e: Execution)
    ensures var t := Process(info, e).executionTime;
            && Wrap64(e.before + t) == e.after
            && (e.before <= e.after ==> t == e.after - e.before)
            && Process(info, e) == S.Update(info.(executionTime := t), t)
  {
  }

  /** Apart from the latest time, processing leaves the statistics of the times taken. */
  lemma {:induction false} ProcessingIsUpdating(info: S.ThreadInfo, es: seq<Execution>)
    ensures ProcessAll(info, es).(executionTime := info.executionTime) == S.UpdateAll(info, Times(es))
  {
    if es != [] {
      var p := es[..|es| - 1];
      ProcessingIsUpdating(info, p);
      assert Times(es)[..|es| - 1] == Times(p);
    }
  }

  /** The thread does one request after the other and the clock does not run backwards. */
  ghost predicate InOrder(es: seq<Execution>) {
    && (forall i :: 0 <= i < |es| ==> es[i].before <= es[i].after)
    && (forall i, j :: 0 <= i < j < |es| ==> es[i].after <= es[j].before)
  }

  /** The time between one request's end and the next one's start, over all of them. */
  function IdleTime(es: seq<Execution>): int {
    if |es| < 2 then 0 else IdleTime(es[..|es| - 1]) + (es[|es| - 1].before - es[|es| - 2].after)
  }

  /** Busy and idle time together are the time from the first start to the last end. */
  lemma {:induction false} BusyAndIdle(es: seq<Execution>)
    requires es != [] && InOrder(es)
    ensures S.Sum(Times(es)) + IdleTime(es) == es[|es| - 1].after - es[0].before
    ensures IdleTime(es) >= 0
  {
    var p := es[..|es| - 1];
    assert Times(es)[..|es| - 1] == Times(p);
    if p != [] {
      BusyAndIdle(p);
      assert p[|p| - 1].after <= es[|es| - 1].before;
    } else {
      assert S.Sum(Times(p)) == 0;
    }
  }

  lemma BusyTimeFits(es: seq<Execution>)
    requires es != [] && InOrder(es)
    ensures S.Sum(Times(es)) <= es[|es| - 1].after - es[0].before
  {
    BusyAndIdle(es);
  }

  /** The mean times the number of requests, which ProcessingIsUpdating shows to be what
      processing reports, never exceeds the time from the first start to the last end. */
  lemma {:induction false} MeanLoadFits(info: S.ThreadInfo, es: seq<Execution>)
    requires info.counter == 0 && es != [] && |es| < TWO_64 && InOrder(es)
    ensures S.Total(S.UpdateAll(info, Times(es))) <= (es[|es| - 1].after - es[0].before) as real
  {
    BusyTimeFits(es);
    S.MeanIsExact(info, Times(es));
  }

  class RequestProcessor {
    const log: A.ActivationEntryLog
    const infos: S.ThreadsInfo

    constructor (entryLog: A.ActivationEntryLog, threadsInfo: S.ThreadsInfo)
      ensures log == entryLog && infos == threadsInfo
    {
      log, infos := entryLog, threadsInfo;
    }

    /** The user's function is run between the readings of e; activated and deactivated
        are the readings that the log takes. */
    method ProcessRequest(threadId: nat, e: Execution, activated: uint64, deactivated: uint64) returns (ok: bool)
      requires log.Valid() && |log.history| + 2 < TWO_64 && threadId < infos.threads.Length
      modifies log`counter, log`history, log.buffer, infos.threads
      ensures ok && log.Valid()
      ensures log.history == old(log.history)
              + if log.isFrozen then []
                else [A.Entry(threadId, A.Activation, activated), A.Entry(threadId, A.Deactivation, deactivated)]
      ensures infos.threads[..] == old(infos.threads[..])[threadId := Process(old(infos.threads[threadId]), e)]
    {
      var _ := log.HandleActivationLogCyclicBuffer(threadId, A.Activation, activated);
      var _ := log.HandleActivationLogCyclicBuffer(threadId, A.Deactivation, deactivated);
      infos.threads[threadId] := infos.threads[threadId].(executionTime := TimeTaken(e));
      infos.UpdateExecutionTimeData(threadId, infos.threads[threadId].executionTime);
      ok := true;
    }
  }
}
