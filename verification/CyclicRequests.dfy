/** Periodic requests of ThreadsCommon.c: 32-bit wake-up arithmetic that re-arms a
    one-shot timer from its own callback. */
module CyclicRequests {
  import opened Options
  import opened UInt

  const NANOSECONDS_IN_MILLISECOND: nat := 1_000_000
  const MICROSECONDS_PER_TICK: nat := 1000

  /** sizeof(struct CyclicInterfaceEmptyRequestData): two words, padding, eight bytes
      aligned to sixteen. */
  const EMPTY_REQUEST_SIZE: nat := 32

  /** RTEMS_MILLISECONDS_TO_TICKS, stored into a 32-bit rtems_interval. */
  function ToTicks(nanoseconds: uint64): uint32 {
    Wrap32(nanoseconds / NANOSECONDS_IN_MILLISECOND * 1000 / MICROSECONDS_PER_TICK)
  }

  /** A time is counted in whole milliseconds, one a tick, modulo 2^32; parts of one are lost. */
  lemma TicksAreMilliseconds(milliseconds: nat, rest: nat)
    requires rest < 1_000_000 && milliseconds * 1_000_000 + rest < TWO_64
    ensures ToTicks(milliseconds * 1_000_000 + rest) == milliseconds % 0x1_0000_0000
  {
    assert (milliseconds * 1_000_000 + rest) / 1_000_000 == milliseconds;
  }

  /** One entry of cyclic_request_data with its RTEMS timer: the true tick count it is
      armed for, and how many requests its callback has sent. */
  datatype Request = Request(nextWakeup: uint32, interval: uint32, queueId: uint32, requestSize: uint32,
                             armed: Option<nat>, sent: nat)

  /** The interval handed to the timer; rtems_timer_fire_after refuses an interval of
      zero and then leaves the timer unarmed. */
  function Delta(nextWakeup: uint32, now: nat): uint32 {
    Wrap32(nextWakeup - Wrap32(now))
  }

  function Schedule(d: Request, now: nat): Request {
    var next := Wrap32(d.nextWakeup + d.interval);
    var delta := Delta(next, now);
    d.(nextWakeup := next, armed := if delta == 0 then None else Some(now + delta))
  }

  function Create(offset: uint32, interval: uint32, queueId: uint32, requestSize: uint32, now: nat): Request {
    Schedule(Request(offset, interval, queueId, requestSize, None, 0), now)
  }

  function Callback(d: Request, now: nat): Request {
    Schedule(d.(armed := None, sent := d.sent + 1), now)
  }

  // ---- one deadline after another ---------------------------------------------

  lemma WrapSum(a: nat, b: nat)
    ensures Wrap32(Wrap32(a) + b) == Wrap32(a + b)
  {
  }

  lemma WrapDifference(target: nat, now: nat)
    ensures Delta(Wrap32(target), now) == Wrap32(target - now)
  {
  }

  lemma CreateArms(offset: uint32, interval: uint32, queueId: uint32, requestSize: uint32, now: nat)
    ensures var delta := Wrap32(offset + interval - now);
            Create(offset, interval, queueId, requestSize, now).armed == if delta == 0 then None else Some(now + delta)
  {
    WrapDifference(offset + interval, now);
  }

  lemma WrapIsItself(x: int)
    ensures Wrap32(x) == x && x != 0 <==> 0 < x < TWO_32
  {
  }

  /** The first deadline is offset + interval exactly when the request is created
      before it and less than 2^32 ticks ahead of it. */
  lemma FirstDeadline(offset: uint32, interval: uint32, queueId: uint32, requestSize: uint32, now: nat)
    ensures Create(offset, interval, queueId, requestSize, now).armed == Some(offset + interval)
        <==> 0 < offset + interval - now < TWO_32
  {
    CreateArms(offset, interval, queueId, requestSize, now);
    WrapIsItself(offset + interval - now);
  }

  lemma WholeMilliseconds(ms: uint32)
    ensures ms * 1_000_000 < TWO_64 && ToTicks(ms * 1_000_000) == ms
  {
    TicksAreMilliseconds(ms, 0);
  }

  /** The same in the nanoseconds a caller gives: whole milliseconds that fit 32 bits. */
  lemma FirstDeadlineInTime(offsetMs: uint32, intervalMs: uint32, queueId: uint32, requestSize: uint32, now: nat)
    ensures offsetMs * 1_000_000 < TWO_64 && intervalMs * 1_000_000 < TWO_64
    ensures Create(ToTicks(offsetMs * 1_000_000), ToTicks(intervalMs * 1_000_000), queueId, requestSize, now).armed
            == Some(offsetMs + intervalMs)
        <==> now < offsetMs + intervalMs < now + TWO_32
  {
    WholeMilliseconds(offsetMs);
    WholeMilliseconds(intervalMs);
    FirstDeadline(offsetMs, intervalMs, queueId, requestSize, now);
  }

  /** A callback for one deadline arms the timer for the deadline one interval later,
      however late it runs, exactly when it runs less than one interval late. */
  lemma NextDeadline(d: Request, deadline: nat, now: nat)
    requires d.nextWakeup == Wrap32(deadline) && deadline <= now
    ensures Callback(d, now).armed == Some(deadline + d.interval) <==> now < deadline + d.interval
    ensures now < deadline + d.interval ==> 1 <= Delta(Callback(d, now).nextWakeup, now) <= d.interval
    ensures Callback(d, now).nextWakeup == Wrap32(deadline + d.interval)
  {
    WrapSum(deadline, d.interval);
    WrapDifference(deadline + d.interval, now);
  }

  /** One interval late the timer is never armed again; a little later still, it is
      armed almost 2^32 ticks too far ahead. */
  lemma LateCallback(d: Request, deadline: nat, now: nat)
    requires d.nextWakeup == Wrap32(deadline) && deadline + d.interval <= now < deadline + d.interval + TWO_32
    ensures Callback(d, now).armed
         == if now == deadline + d.interval then None else Some(deadline + d.interval + TWO_32)
  {
    WrapSum(deadline, d.interval);
    WrapDifference(deadline + d.interval, now);
  }

  // ---- whole runs --------------------------------------------------------------

  datatype Clock = Clock(request: Request, now: nat)

  datatype Event = Advance(ticks: nat) | Fire

  /** The callback does not run before its deadline, and time does not reach the next
      deadline before it has run. */
  predicate Enabled(c: Clock, e: Event) {
    && c.request.armed.Some?
    && match e
       case Fire => c.request.armed.value <= c.now
       case Advance(ticks) => c.now + ticks < c.request.armed.value + c.request.interval
  }

  function Next(c: Clock, e: Event): Clock {
    match e
    case Fire => Clock(Callback(c.request, c.now), c.now)
    case Advance(ticks) => c.(now := c.now + ticks)
  }

  predicate IsRun(c: Clock, run: seq<Event>)
    decreases |run|
  {
    run == [] || (Enabled(c, run[0]) && IsRun(Next(c, run[0]), run[1..]))
  }

  function After(c: Clock, run: seq<Event>): Clock
    requires IsRun(c, run)
    decreases |run|
  {
    if run == [] then c else After(Next(c, run[0]), run[1..])
  }

  /** The k-th deadline: k intervals after the offset. */
  function Deadline(offset: nat, interval: nat, k: nat): nat {
    if k == 0 then offset else Deadline(offset, interval, k - 1) + interval
  }

  lemma {:induction false} DeadlineProduct(offset: nat, interval: nat, k: nat)
    ensures Deadline(offset, interval, k) == offset + k * interval
  {
    if k > 0 {
      DeadlineProduct(offset, interval, k - 1);
      assert k * interval == (k - 1) * interval + interval;
    }
  }

  predicate OnSchedule(c: Clock, offset: nat, interval: nat) {
    var d := c.request;
    var due := Deadline(offset, interval, d.sent + 1);
    && d.interval == interval
    && d.nextWakeup == Wrap32(due)
    && d.armed == Some(due)
    && c.now < due + interval
    && (d.sent > 0 ==> Deadline(offset, interval, d.sent) <= c.now)
  }

  lemma NextKeepsSchedule(c: Clock, e: Event, offset: nat, interval: nat)
    requires OnSchedule(c, offset, interval) && Enabled(c, e)
    ensures OnSchedule(Next(c, e), offset, interval)
  {
    if e.Fire? {
      NextDeadline(c.request, Deadline(offset, interval, c.request.sent + 1), c.now);
    }
  }

  lemma {:induction false} RunKeepsSchedule(c: Clock, run: seq<Event>, offset: nat, interval: nat)
    requires OnSchedule(c, offset, interval) && IsRun(c, run)
    ensures OnSchedule(After(c, run), offset, interval)
    decreases |run|
  {
    if run != [] {
      NextKeepsSchedule(c, run[0], offset, interval);
      RunKeepsSchedule(Next(c, run[0]), run[1..], offset, interval);
    }
  }

  /** Created before its first deadline and never a whole interval late, a request is
      released without drift: after k callbacks the timer is armed for
      offset + (k + 1) * interval, whatever the single delays were. */
  lemma NoDrift(offset: uint32, interval: uint32, queueId: uint32, requestSize: uint32, now: nat, run: seq<Event>)
    requires 0 < offset + interval - now < TWO_32
    requires IsRun(Clock(Create(offset, interval, queueId, requestSize, now), now), run)
    ensures var c := After(Clock(Create(offset, interval, queueId, requestSize, now), now), run);
            && c.request.armed == Some(offset + (c.request.sent + 1) * interval)
            && c.request.nextWakeup == Wrap32(offset + (c.request.sent + 1) * interval)
  {
    StartsOnSchedule(offset, interval, queueId, requestSize, now, run);
    var c := After(Clock(Create(offset, interval, queueId, requestSize, now), now), run);
    DeadlineProduct(offset, interval, c.request.sent + 1);
  }

  lemma StartsOnSchedule(offset: uint32, interval: uint32, queueId: uint32, requestSize: uint32, now: nat, run: seq<Event>)
    requires 0 < offset + interval - now < TWO_32
    requires IsRun(Clock(Create(offset, interval, queueId, requestSize, now), now), run)
    ensures OnSchedule(After(Clock(Create(offset, interval, queueId, requestSize, now), now), run), offset, interval)
  {
    var c := Clock(Create(offset, interval, queueId, requestSize, now), now);
    FirstDeadline(offset, interval, queueId, requestSize, now);
    WrapSum(offset, interval);
    assert Deadline(offset, interval, 1) == Deadline(offset, interval, 0) + interval;
    RunKeepsSchedule(c, run, offset, interval);
  }

  /** Exactly one request is sent per period: at any time the number sent is the
      number of deadlines passed, or one less while the last callback is pending. */
  lemma OneRequestPerPeriod(offset: uint32, interval: uint32, queueId: uint32, requestSize: uint32, now: nat, run: seq<Event>)
    requires interval > 0 && 0 < offset + interval - now < TWO_32
    requires IsRun(Clock(Create(offset, interval, queueId, requestSize, now), now), run)
    ensures var c := After(Clock(Create(offset, interval, queueId, requestSize, now), now), run);
            if c.now < offset + interval then c.request.sent == 0
            else c.request.sent <= (c.now - offset) / interval <= c.request.sent + 1
  {
    StartsOnSchedule(offset, interval, queueId, requestSize, now, run);
    Periods(After(Clock(Create(offset, interval, queueId, requestSize, now), now), run), offset, interval);
  }

  lemma Periods(c: Clock, offset: nat, interval: nat)
    requires interval > 0 && OnSchedule(c, offset, interval)
    ensures if c.now < offset + interval then c.request.sent == 0
            else c.request.sent <= (c.now - offset) / interval <= c.request.sent + 1
  {
    var k := c.request.sent;
    DeadlineProduct(offset, interval, k);
    DeadlineProduct(offset, interval, k + 1);
    if c.now >= offset + interval {
      if k > 0 { assert k * interval <= c.now - offset; }
      assert c.now - offset < (k + 1) * interval + interval;
      Quotient(c.now - offset, interval, k);
    } else if k > 0 {
      Multiple(interval, k);
    }
  }

  lemma Multiple(interval: nat, k: nat)
    requires k > 0
    ensures k * interval >= interval
  {
  }

  lemma Quotient(x: nat, interval: nat, k: nat)
    requires interval > 0 && k * interval <= x < (k + 1) * interval + interval
    ensures k <= x / interval <= k + 1
  {
    var q := x / interval;
    assert q * interval <= x < q * interval + interval;
    if q < k { Product(q + 1, k, interval); }
    if q > k + 1 { Product(k + 2, q, interval); }
  }

  lemma Product(a: nat, b: nat, interval: nat)
    requires a <= b
    ensures a * interval <= b * interval
  {
  }

  // ---- the table of requests --------------------------------------------------

  class CyclicDispatcher {
    const requests: array<Request>
    var count: nat
    /** Ticks since boot; RTEMS reports the low 32 bits. */
    var now: nat

    ghost predicate Valid()
      reads this
    {
      count <= requests.Length
    }

    method ScheduleNextTick(index: nat)
      requires index < requests.Length
      modifies requests
      ensures requests[index] == Schedule(old(requests[index]), now)
      ensures forall i :: 0 <= i < requests.Length && i != index ==> requests[i] == old(requests[i])
    {
      var d := requests[index];
      var next := Wrap32(d.nextWakeup + d.interval);
      requests[index] := d.(nextWakeup := next);
      var delta := Wrap32(next - Wrap32(now));
      requests[index] := requests[index].(armed := if delta == 0 then None else Some(now + delta));
    }

    /** Fails when the table is full or RTEMS has no timer left; an accepted request
        is armed at once and the others are untouched. */
    method CreateCyclicRequest(intervalNs: uint64, offsetNs: uint64, queueId: uint32, requestSize: uint32, timerCreated: bool)
      returns (ok: bool)
      requires Valid() && requestSize <= EMPTY_REQUEST_SIZE
      modifies this`count, requests
      ensures Valid() && ok == (old(count) < requests.Length && timerCreated)
      ensures ok ==> count == old(count) + 1
      ensures ok ==> requests[old(count)] == Create(ToTicks(offsetNs), ToTicks(intervalNs), queueId, requestSize, now)
      ensures !ok ==> count == old(count)
      ensures forall i :: 0 <= i < requests.Length && (ok ==> i != old(count)) ==> requests[i] == old(requests[i])
    {
      if count >= requests.Length || !timerCreated {
        return false;
      }
      requests[count] := Request(ToTicks(offsetNs), ToTicks(intervalNs), queueId, requestSize, None, 0);
      ScheduleNextTick(count);
      count := count + 1;
      ok := true;
    }

    /** The timer may fire before its request is counted. */
    method TimerCallback(index: nat)
      requires index < requests.Length
      modifies requests
      ensures requests[index] == Callback(old(requests[index]), now)
      ensures forall i :: 0 <= i < requests.Length && i != index ==> requests[i] == old(requests[i])
    {
      requests[index] := requests[index].(armed := None, sent := requests[index].sent + 1);
      ScheduleNextTick(index);
    }
  }
}
