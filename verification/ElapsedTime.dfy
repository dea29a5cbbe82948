/** Elapsed time of Hal.c: a free-running 16-bit counter, an overflow interrupt that
    counts reloads and raises a flag, and readers that retry while the flag rises. */
module ElapsedTime {
  import opened UInt

  /** The counter wraps after this many ticks... */
  const COUNTER_PERIOD: nat := 65536

  /** ...but a reload is counted as this many. */
  const TICKS_PER_RELOAD: nat := 65535

  function Overflows(now: nat): nat {
    now / COUNTER_PERIOD
  }

  function CounterValue(now: nat): nat {
    now % COUNTER_PERIOD
  }

  // ---- the total ----------------------------------------------------------

  /** The product is a 32-bit one; only the sum is widened. */
  function TotalTicks(reloads: uint32, ticks: nat): nat {
    Wrap32(reloads * TICKS_PER_RELOAD) + ticks
  }

  /** What a reader reports that sampled everything at one instant. */
  function Reported(now: nat): nat {
    TotalTicks(Wrap32(Overflows(now)), CounterValue(now))
  }

  /** The report lags the true tick count by one tick a reload, exactly as long as
      there were at most 65537 reloads. */
  lemma LagIsTheReloadCount(now: nat)
    ensures Reported(now) == now - Overflows(now) <==> Overflows(now) <= 65537
  {
    var q, r := Overflows(now), CounterValue(now);
    assert now == COUNTER_PERIOD * q + r;
    if q <= 65537 {
      assert q * TICKS_PER_RELOAD < TWO_32;
    } else if q < TWO_32 {
      assert q * TICKS_PER_RELOAD >= TWO_32;
    }
  }

  /** Within that range the report never decreases, not even across a reload. */
  lemma ReportNeverDecreases(earlier: nat, later: nat)
    requires earlier <= later && Overflows(later) <= 65537
    ensures Reported(earlier) <= Reported(later)
  {
    LagIsTheReloadCount(earlier);
    LagIsTheReloadCount(later);
    var p, q := Overflows(earlier), Overflows(later);
    assert earlier - p == TICKS_PER_RELOAD * p + CounterValue(earlier);
    assert later - q == TICKS_PER_RELOAD * q + CounterValue(later);
  }

  /** Just past that range it falls back. */
  lemma ReportFallsBack(now: nat)
    requires now == 65538 * COUNTER_PERIOD
    ensures Reported(now) < Reported(now - 1)
  {
    assert Overflows(now - 1) == 65537 && CounterValue(now - 1) == 65535;
    assert Overflows(now) == 65538 && CounterValue(now) == 0;
  }

  // ---- readers racing the interrupt ------------------------------------------

  /** Where a reader stands in its loop: after which of its four actions. */
  datatype Pc = Idle | FlagReset | ReloadsLoaded | CounterRead

  /** A finished call: the pair that left the loop, and the true tick count at its
      counter read.  disturbed tells whether another reader reset the shared flag
      during the last pass. */
  datatype Result = Result(reloads: uint32, ticks: nat, instant: nat, disturbed: bool)

  /** Besides the two locals: how many interrupts had run at the flag reset and at
      the load, and the true tick count at the counter read. */
  datatype Reader = Reader(pc: Pc, reloads: uint32, ticks: nat,
                           resetAt: nat, loadedAt: nat, instant: nat, disturbed: bool,
                           results: seq<Result>)

  datatype State = State(now: nat, serviced: nat, reloadsCounter: uint32, flag: bool, readers: map<nat, Reader>)

  datatype Action =
    | Tick
    | Interrupt
    | ResetFlag(r: nat)
    | LoadReloads(r: nat)
    | ReadCounter(r: nat)
    | CheckFlag(r: nat)

  /** An interrupt is taken before the counter wraps again, and an overflow that
      precedes a reader's counter read is serviced before that reader's flag check. */
  predicate Enabled(s: State, a: Action) {
    match a
    case Tick => Overflows(s.now + 1) > Overflows(s.now) ==> s.serviced == Overflows(s.now)
    case Interrupt => s.serviced < Overflows(s.now)
    case ResetFlag(r) => r in s.readers && s.readers[r].pc == Idle
    case LoadReloads(r) => r in s.readers && s.readers[r].pc == FlagReset
    case ReadCounter(r) => r in s.readers && s.readers[r].pc == ReloadsLoaded
    case CheckFlag(r) =>
      r in s.readers && s.readers[r].pc == CounterRead && Overflows(s.readers[r].instant) <= s.serviced
  }

  function Disturb(reader: Reader): Reader {
    reader.(disturbed := true)
  }

  function Next(s: State, a: Action): State
    requires Enabled(s, a)
  {
    match a
    case Tick => s.(now := s.now + 1)
    case Interrupt => s.(serviced := s.serviced + 1, reloadsCounter := Wrap32(s.reloadsCounter + 1), flag := true)
    case ResetFlag(r) =>
      var others := map k | k in s.readers :: Disturb(s.readers[k]);
      s.(flag := false,
         readers := others[r := s.readers[r].(pc := FlagReset, resetAt := s.serviced, disturbed := false)])
    case LoadReloads(r) =>
      s.(readers := s.readers[r := s.readers[r].(pc := ReloadsLoaded, reloads := s.reloadsCounter, loadedAt := s.serviced)])
    case ReadCounter(r) =>
      s.(readers := s.readers[r := s.readers[r].(pc := CounterRead, ticks := CounterValue(s.now), instant := s.now)])
    case CheckFlag(r) =>
      var d := s.readers[r];
      var done := if s.flag then [] else [Result(d.reloads, d.ticks, d.instant, d.disturbed)];
      s.(readers := s.readers[r := d.(pc := Idle, results := d.results + done)])
  }

  predicate Initial(s: State) {
    && s.serviced == Overflows(s.now)
    && s.reloadsCounter == Wrap32(s.serviced)
    && forall r :: r in s.readers ==> s.readers[r].pc == Idle && s.readers[r].results == [] && s.readers[r].instant <= s.now
  }

  predicate IsRun(s: State, run: seq<Action>)
    decreases |run|
  {
    run == [] || (Enabled(s, run[0]) && IsRun(Next(s, run[0]), run[1..]))
  }

  function After(s: State, run: seq<Action>): State
    requires IsRun(s, run)
    decreases |run|
  {
    if run == [] then s else After(Next(s, run[0]), run[1..])
  }

  // ---- what every action keeps -------------------------------------------------

  /** The pair is what the hardware held at the instant of the counter read. */
  predicate Consistent(x: Result) {
    x.reloads == Wrap32(Overflows(x.instant)) && x.ticks == CounterValue(x.instant)
  }

  predicate PassInv(s: State, d: Reader) {
    && d.instant <= s.now
    && (d.pc != Idle ==> d.resetAt <= s.serviced)
    && (d.pc != Idle && !d.disturbed && !s.flag ==> d.resetAt == s.serviced)
    && (d.pc == ReloadsLoaded || d.pc == CounterRead ==>
          d.resetAt <= d.loadedAt <= s.serviced && d.reloads == Wrap32(d.loadedAt))
    && (d.pc == CounterRead ==> d.loadedAt <= Overflows(d.instant) && d.ticks == CounterValue(d.instant))
  }

  predicate ResultsInv(d: Reader) {
    && (forall i :: 0 <= i < |d.results| ==> d.results[i].instant <= d.instant)
    && (forall i, j :: 0 <= i < j < |d.results| ==> d.results[i].instant <= d.results[j].instant)
    && (forall i :: 0 <= i < |d.results| && !d.results[i].disturbed ==> Consistent(d.results[i]))
  }

  predicate ReaderInv(s: State, d: Reader) {
    PassInv(s, d) && ResultsInv(d)
  }

  ghost predicate Inv(s: State) {
    && s.serviced <= Overflows(s.now) <= s.serviced + 1
    && s.reloadsCounter == Wrap32(s.serviced)
    && forall r :: r in s.readers ==> ReaderInv(s, s.readers[r])
  }

  lemma WrapNext(n: nat)
    ensures Wrap32(Wrap32(n) + 1) == Wrap32(n + 1)
  {
  }

  lemma OverflowsNext(now: nat)
    ensures Overflows(now) <= Overflows(now + 1) <= Overflows(now) + 1
  {
  }

  lemma PassKept(s: State, a: Action, r: nat)
    requires Inv(s) && Enabled(s, a) && r in s.readers
    ensures PassInv(Next(s, a), Next(s, a).readers[r])
  {
    assert PassInv(s, s.readers[r]);
    match a
    case Tick => OverflowsNext(s.now);
    case Interrupt => WrapNext(s.serviced);
    case ResetFlag(k) =>
    case LoadReloads(k) =>
    case ReadCounter(k) =>
    case CheckFlag(k) =>
  }

  /** With the flag still down, no interrupt ran since the reset: the overflow count at
      the counter read is the one that was loaded. */
  lemma ResultsKept(s: State, a: Action, r: nat)
    requires Inv(s) && Enabled(s, a) && r in s.readers
    ensures ResultsInv(Next(s, a).readers[r])
  {
    var d, d' := s.readers[r], Next(s, a).readers[r];
    assert PassInv(s, d) && ResultsInv(d);
    if a == CheckFlag(r) && !s.flag {
      var x := Result(d.reloads, d.ticks, d.instant, d.disturbed);
      assert d'.results == d.results + [x];
      assert d.disturbed || Consistent(x);
    } else {
      assert d'.results == d.results && d.instant <= d'.instant;
    }
  }

  lemma NextKeepsInv(s: State, a: Action)
    requires Inv(s) && Enabled(s, a)
    ensures Inv(Next(s, a))
  {
    WrapNext(s.serviced);
    OverflowsNext(s.now);
    forall r | r in s.readers ensures ReaderInv(Next(s, a), Next(s, a).readers[r]) {
      PassKept(s, a, r);
      ResultsKept(s, a, r);
    }
  }

  lemma {:induction false} RunKeepsInv(s: State, run: seq<Action>)
    requires Inv(s) && IsRun(s, run)
    ensures Inv(After(s, run))
    decreases |run|
  {
    if run != [] {
      NextKeepsInv(s, run[0]);
      RunKeepsInv(Next(s, run[0]), run[1..]);
    }
  }

  /** In every interleaving, a pair that leaves the loop without another reader's
      reset in its last pass was held at one instant, that of the counter read. */
  lemma SnapshotConsistent(s: State, run: seq<Action>, r: nat, i: nat)
    requires Initial(s) && IsRun(s, run)
    requires r in After(s, run).readers && i < |After(s, run).readers[r].results|
    requires !After(s, run).readers[r].results[i].disturbed
    ensures Consistent(After(s, run).readers[r].results[i])
  {
    RunKeepsInv(s, run);
    assert ReaderInv(After(s, run), After(s, run).readers[r]);
  }

  /** One reader's successive reports never decrease while at most 65537 reloads
      have happened, and each lags the true tick count by the number of reloads. */
  lemma SuccessiveReportsNeverDecrease(s: State, run: seq<Action>, r: nat, i: nat, j: nat)
    requires Initial(s) && IsRun(s, run) && r in After(s, run).readers
    requires i < j < |After(s, run).readers[r].results|
    requires var xs := After(s, run).readers[r].results; !xs[i].disturbed && !xs[j].disturbed
    requires Overflows(After(s, run).now) <= 65537
    ensures var x, y := After(s, run).readers[r].results[i], After(s, run).readers[r].results[j];
            && TotalTicks(x.reloads, x.ticks) <= TotalTicks(y.reloads, y.ticks)
            && TotalTicks(y.reloads, y.ticks) == y.instant - Overflows(y.instant)
  {
    var t := After(s, run);
    RunKeepsInv(s, run);
    assert ReaderInv(t, t.readers[r]);
    var x, y := t.readers[r].results[i], t.readers[r].results[j];
    OverflowsMonotonic(y.instant, t.now);
    ReportNeverDecreases(x.instant, y.instant);
    LagIsTheReloadCount(y.instant);
  }

  lemma OverflowsMonotonic(a: nat, b: nat)
    requires a <= b
    ensures Overflows(a) <= Overflows(b)
  {
  }

  // ---- a single reader is never disturbed ------------------------------------

  predicate Alone(s: State, r: nat) {
    && s.readers.Keys == {r}
    && (s.readers[r].pc != Idle ==> !s.readers[r].disturbed)
    && forall i :: 0 <= i < |s.readers[r].results| ==> !s.readers[r].results[i].disturbed
  }

  lemma {:induction false} AloneStaysAlone(s: State, run: seq<Action>, r: nat)
    requires Alone(s, r) && IsRun(s, run)
    ensures Alone(After(s, run), r)
    decreases |run|
  {
    if run != [] {
      assert Next(s, run[0]).readers.Keys == {r};
      AloneStaysAlone(Next(s, run[0]), run[1..], r);
    }
  }

  /** With one reader, every report is a consistent snapshot. */
  lemma OneReaderAlwaysConsistent(s: State, run: seq<Action>, r: nat)
    requires Initial(s) && Alone(s, r) && IsRun(s, run)
    ensures r in After(s, run).readers
    ensures forall i :: 0 <= i < |After(s, run).readers[r].results| ==> Consistent(After(s, run).readers[r].results[i])
  {
    AloneStaysAlone(s, run, r);
    RunKeepsInv(s, run);
    var t := After(s, run);
    assert ReaderInv(t, t.readers[r]);
  }

  // ---- exactly one reader -----------------------------------------------------

  /** Every report of every run is a snapshot of one instant. */
  ghost predicate AlwaysConsistent(s: State) {
    forall run, r, i ::
      IsRun(s, run) && r in After(s, run).readers && 0 <= i < |After(s, run).readers[r].results|
      ==> Consistent(After(s, run).readers[r].results[i])
  }

  lemma {:induction false} SameReaders(s: State, run: seq<Action>)
    requires IsRun(s, run)
    ensures After(s, run).readers.Keys == s.readers.Keys
    decreases |run|
  {
    if run != [] { SameReaders(Next(s, run[0]), run[1..]); }
  }

  lemma IsRunCons(s: State, a: Action, run: seq<Action>)
    requires Enabled(s, a) && IsRun(Next(s, a), run)
    ensures IsRun(s, [a] + run) && After(s, [a] + run) == After(Next(s, a), run)
  {
    assert ([a] + run)[1..] == run;
  }

  lemma {:induction false} RunThenRun(s: State, first: seq<Action>, second: seq<Action>)
    requires IsRun(s, first) && IsRun(After(s, first), second)
    ensures IsRun(s, first + second) && After(s, first + second) == After(After(s, first), second)
    decreases |first|
  {
    if first == [] {
      assert first + second == second;
    } else {
      assert (first + second)[1..] == first[1..] + second;
      RunThenRun(Next(s, first[0]), first[1..], second);
    }
  }

  function Ticks(n: nat): seq<Action> {
    if n == 0 then [] else [Tick] + Ticks(n - 1)
  }

  /** Time passes up to the last tick before the counter wraps. */
  lemma {:induction false} TickOn(s: State, n: nat)
    requires CounterValue(s.now) + n < COUNTER_PERIOD
    ensures IsRun(s, Ticks(n)) && After(s, Ticks(n)) == s.(now := s.now + n)
    decreases n
  {
    if n > 0 {
      var t := s.(now := s.now + 1);
      assert Overflows(t.now) == Overflows(s.now) && CounterValue(t.now) == CounterValue(s.now) + 1;
      TickOn(t, n - 1);
      IsRunCons(s, Tick, Ticks(n - 1));
    }
  }

  lemma LastTick(s: State) returns (ticks: seq<Action>, t: State)
    ensures IsRun(s, ticks) && After(s, ticks) == t
    ensures t == s.(now := t.now) && CounterValue(t.now) == 65535 && Overflows(t.now) == Overflows(s.now) && s.now <= t.now
  {
    var n := 65535 - CounterValue(s.now);
    TickOn(s, n);
    ticks, t := Ticks(n), s.(now := s.now + n);
  }

  lemma WrapsNext(now: nat)
    requires CounterValue(now) == 65535
    ensures Overflows(now + 1) == Overflows(now) + 1 && CounterValue(now + 1) == 0
  {
  }

  lemma DifferentCounts(n: nat)
    ensures Wrap32(n) != Wrap32(n + 1)
  {
  }

  /** Reader a loads the reload count at the last tick before the counter wraps. */
  lemma LoadAtLastTick(s: State, a: nat) returns (t: State)
    requires a in s.readers && s.readers[a].pc == Idle && s.readers[a].results == [] && CounterValue(s.now) == 65535
    requires s.reloadsCounter == Wrap32(s.serviced)
    ensures var run := [ResetFlag(a), LoadReloads(a)]; IsRun(s, run) && After(s, run) == t
    ensures t.now == s.now && t.serviced == s.serviced && t.reloadsCounter == s.reloadsCounter && !t.flag
    ensures t.readers.Keys == s.readers.Keys
    ensures forall r :: r in s.readers && r != a ==> t.readers[r].pc == s.readers[r].pc
    ensures t.readers[a].pc == ReloadsLoaded && t.readers[a].reloads == s.reloadsCounter && t.readers[a].results == []
  {
    var s1 := Next(s, ResetFlag(a));
    t := Next(s1, LoadReloads(a));
    IsRunCons(s1, LoadReloads(a), []);
    assert [LoadReloads(a)] + [] == [LoadReloads(a)];
    IsRunCons(s, ResetFlag(a), [LoadReloads(a)]);
    assert [ResetFlag(a)] + [LoadReloads(a)] == [ResetFlag(a), LoadReloads(a)];
  }

  /** The counter wraps, the reload is counted, and another reader b resets the flag. */
  lemma ReloadHidden(s: State, a: nat, b: nat) returns (t: State)
    requires a != b && a in s.readers && b in s.readers && s.readers[b].pc == Idle && CounterValue(s.now) == 65535
    requires s.serviced == Overflows(s.now)
    ensures var run := [Tick, Interrupt, ResetFlag(b)]; IsRun(s, run) && After(s, run) == t
    ensures t.now == s.now + 1 && t.serviced == s.serviced + 1 && !t.flag && a in t.readers
    ensures t.readers[a] == Disturb(s.readers[a])
  {
    WrapsNext(s.now);
    var s1 := s.(now := s.now + 1);
    var s2 := Next(s1, Interrupt);
    t := Next(s2, ResetFlag(b));
    IsRunCons(s2, ResetFlag(b), []);
    assert [ResetFlag(b)] + [] == [ResetFlag(b)];
    IsRunCons(s1, Interrupt, [ResetFlag(b)]);
    assert [Interrupt] + [ResetFlag(b)] == [Interrupt, ResetFlag(b)];
    IsRunCons(s, Tick, [Interrupt, ResetFlag(b)]);
    assert [Tick] + [Interrupt, ResetFlag(b)] == [Tick, Interrupt, ResetFlag(b)];
  }

  /** Reader a finishes its pass and reports. */
  lemma ReportPair(s: State, a: nat) returns (t: State)
    requires a in s.readers && s.readers[a].pc == ReloadsLoaded && s.readers[a].results == [] && !s.flag
    requires Overflows(s.now) <= s.serviced
    ensures var run := [ReadCounter(a), CheckFlag(a)]; IsRun(s, run) && After(s, run) == t
    ensures a in t.readers
    ensures t.readers[a].results == [Result(s.readers[a].reloads, CounterValue(s.now), s.now, s.readers[a].disturbed)]
  {
    var s1 := Next(s, ReadCounter(a));
    t := Next(s1, CheckFlag(a));
    IsRunCons(s1, CheckFlag(a), []);
    assert [CheckFlag(a)] + [] == [CheckFlag(a)];
    IsRunCons(s, ReadCounter(a), [CheckFlag(a)]);
    assert [ReadCounter(a)] + [CheckFlag(a)] == [ReadCounter(a), CheckFlag(a)];
  }

  /** From any start with two readers, the second one's reset can hide a reload from the
      first, which then reports a pair that never was. */
  lemma SecondReaderHidesReload(s: State, a: nat, b: nat) returns (run: seq<Action>)
    requires Initial(s) && a != b && a in s.readers && b in s.readers
    ensures IsRun(s, run) && a in After(s, run).readers && |After(s, run).readers[a].results| == 1
    ensures !Consistent(After(s, run).readers[a].results[0])
  {
    var ticks, t0 := LastTick(s);
    var t1 := LoadAtLastTick(t0, a);
    RunThenRun(s, ticks, [ResetFlag(a), LoadReloads(a)]);
    var first := ticks + [ResetFlag(a), LoadReloads(a)];
    var t2 := ReloadHidden(t1, a, b);
    RunThenRun(s, first, [Tick, Interrupt, ResetFlag(b)]);
    var second := first + [Tick, Interrupt, ResetFlag(b)];
    WrapsNext(t1.now);
    var t3 := ReportPair(t2, a);
    RunThenRun(s, second, [ReadCounter(a), CheckFlag(a)]);
    run := second + [ReadCounter(a), CheckFlag(a)];
    DifferentCounts(s.serviced);
  }

  /** Every report of every run is consistent exactly when there is at most one reader. */
  lemma AlwaysConsistentIffOneReader(s: State)
    requires Initial(s)
    ensures AlwaysConsistent(s) <==> |s.readers.Keys| <= 1
  {
    if |s.readers.Keys| <= 1 {
      forall run, r, i | IsRun(s, run) && r in After(s, run).readers && 0 <= i < |After(s, run).readers[r].results|
        ensures Consistent(After(s, run).readers[r].results[i])
      {
        SameReaders(s, run);
        OnlyElement(s.readers.Keys, r);
        OneReaderAlwaysConsistent(s, run, r);
      }
    } else {
      var a, b := TwoElements(s.readers.Keys);
      var run := SecondReaderHidesReload(s, a, b);
      assert !Consistent(After(s, run).readers[a].results[0]);
    }
  }

  lemma OnlyElement(keys: set<nat>, r: nat)
    requires |keys| <= 1 && r in keys
    ensures keys == {r}
  {
    assert keys == (keys - {r}) + {r};
    assert |keys - {r}| == 0;
  }

  lemma TwoElements(keys: set<nat>) returns (a: nat, b: nat)
    requires |keys| >= 2
    ensures a in keys && b in keys && a != b
  {
    a :| a in keys;
    assert |keys - {a}| >= 1;
    b :| b in keys - {a};
  }

  // ---- servicing in time ---------------------------------------------------------

  /** What reader r would report if it looked at the flag now. */
  function Pending(d: Reader): Result {
    Result(d.reloads, d.ticks, d.instant, d.disturbed)
  }

  /** With the flag down and the pass undisturbed, the pair about to leave the loop is a
      snapshot exactly when every overflow before its counter read has been serviced. */
  lemma FlagIsReliableIffServiced(s: State, run: seq<Action>, r: nat)
    requires Initial(s) && IsRun(s, run) && r in After(s, run).readers
    requires After(s, run).readers[r].pc == CounterRead && !After(s, run).readers[r].disturbed && !After(s, run).flag
    ensures Consistent(Pending(After(s, run).readers[r]))
        <==> Overflows(After(s, run).readers[r].instant) <= After(s, run).serviced
  {
    var t := After(s, run);
    RunKeepsInv(s, run);
    var d := t.readers[r];
    assert ReaderInv(t, d);
    OverflowsMonotonic(d.instant, t.now);
    DifferentCounts(t.serviced);
  }

  /** And from any start with a reader there is a run to such a moment at which it is not. */
  lemma LateInterruptTearsThePair(s: State, r: nat) returns (run: seq<Action>)
    requires Initial(s) && r in s.readers
    ensures IsRun(s, run) && r in After(s, run).readers
    ensures After(s, run).readers[r].pc == CounterRead && !After(s, run).readers[r].disturbed && !After(s, run).flag
    ensures !Consistent(Pending(After(s, run).readers[r]))
  {
    var ticks, t0 := LastTick(s);
    var t1 := Next(t0, ResetFlag(r));
    var t2 := Next(t1, LoadReloads(r));
    var t3 := t2.(now := t2.now + 1);
    var rest := [ResetFlag(r)] + ([LoadReloads(r)] + ([Tick] + ([ReadCounter(r)] + [])));
    WrapsNext(t2.now);
    assert Overflows(t2.now) == t2.serviced;
    IsRunCons(t3, ReadCounter(r), []);
    IsRunCons(t2, Tick, [ReadCounter(r)] + []);
    IsRunCons(t1, LoadReloads(r), [Tick] + ([ReadCounter(r)] + []));
    IsRunCons(t0, ResetFlag(r), [LoadReloads(r)] + ([Tick] + ([ReadCounter(r)] + [])));
    RunThenRun(s, ticks, rest);
    run := ticks + rest;
    DifferentCounts(s.serviced);
  }

  // ---- the reader's loop ----------------------------------------------------------

  /** Clock ticks that pass between two of the reader's actions, one entry for each of
      the three gaps in a pass. */
  datatype Interference = Interference(beforeLoad: nat, beforeRead: nat, beforeCheck: nat)

  class ElapsedTimer {
    var reloadsCounter: uint32
    var reloadsModifiedFlag: bool
    /** True ticks since the timer was triggered; the register shows the low 16 bits. */
    var now: nat

    ghost predicate Valid()
      reads this
    {
      reloadsCounter == Wrap32(Overflows(now))
    }

    constructor ()
      ensures Valid() && now == 0
    {
      reloadsCounter := 0;
      reloadsModifiedFlag := false;
      now := 0;
    }

    method TimerIrqHandler()
      modifies this`reloadsCounter, this`reloadsModifiedFlag
      ensures reloadsCounter == Wrap32(old(reloadsCounter) + 1) && reloadsModifiedFlag
    {
      reloadsCounter := Wrap32(reloadsCounter + 1);
      reloadsModifiedFlag := true;
    }

    /** The clock runs on; every overflow is serviced as it happens. */
    method Pass(ticks: nat)
      requires Valid()
      modifies this
      ensures Valid() && now == old(now) + ticks
      ensures reloadsModifiedFlag == (old(reloadsModifiedFlag) || Overflows(now) > Overflows(old(now)))
    {
      var start := now;
      for i := 0 to ticks
        invariant Valid() && now == start + i && Overflows(start) <= Overflows(now)
        invariant reloadsModifiedFlag == (old(reloadsModifiedFlag) || Overflows(now) > Overflows(start))
      {
        OverflowsNext(now);
        WrapNext(Overflows(now));
        var wraps := (now + 1) % COUNTER_PERIOD == 0;
        now := now + 1;
        if wraps {
          TimerIrqHandler();
        }
      }
    }

    /** Retries until no reload happened between the flag reset and the flag check;
        the pair then belongs to an instant within the call. */
    method GetTotalTicks(interference: seq<Interference>) returns (total: nat, ghost instant: nat)
      requires Valid()
      modifies this
      ensures Valid() && old(now) <= instant <= now && total == Reported(instant)
    {
      var reloads: uint32, ticks := 0, 0;
      var i := 0;
      while true
        invariant Valid() && old(now) <= now
        decreases |interference| - i
      {
        var gaps := if i < |interference| then interference[i] else Interference(0, 0, 0);
        reloadsModifiedFlag := false;
        ghost var start := now;
        Pass(gaps.beforeLoad);
        reloads := reloadsCounter;
        Pass(gaps.beforeRead);
        ticks := now % COUNTER_PERIOD;
        instant := now;
        Pass(gaps.beforeCheck);
        OverflowsMonotonic(start, instant);
        OverflowsMonotonic(instant, now);
        if !reloadsModifiedFlag {
          break;
        }
        i := i + 1;
      }
      total := TotalTicks(reloads, ticks);
    }
  }
}
