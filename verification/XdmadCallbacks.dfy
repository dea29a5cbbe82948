/** Callback and argument are set by two writes. Which pairs the handler calls with, over every
    run of single accesses. */
module XdmadCallbacks {
  import opened UInt
  import opened XdmacModel
  import opened XdmadModel
  import opened XdmadHandler
  import opened XdmadSteps
  import opened XdmadOwnership
  import opened XdmadRuns

  type Pair = (nat, nat)

  function Table(d: Driver, c: nat): Pair
    requires c < |d.channels|
  {
    (d.channels[c].callback, d.channels[c].arg)
  }

  /** The handler calls with what the table holds. */
  lemma CallsCarryTable(d: Driver, x: Call)
    requires Valid(d) && x in Handler(d).1
    ensures x.channel < CHANNEL_NUM && (x.callback, x.arg) == Table(d, x.channel)
  {
    HandlerCallsAreExact(d);
    CallMembers(d, d.regs.gis, d.regs.gs, 0, x);
  }

  /** The handler calls for a channel that completes and has a callback. */
  lemma CompletionCalls(d: Driver, c: nat)
    requires Valid(d) && BecomesDone(d, d.regs.gis, d.regs.gs, 0, c) && d.channels[c].callback != NULL
    ensures Call(c, d.channels[c].callback, d.channels[c].arg) in Handler(d).1
  {
    var x := Call(c, d.channels[c].callback, d.channels[c].arg);
    HandlerCallsAreExact(d);
    CallMembers(d, d.regs.gis, d.regs.gs, 0, x);
    assert x in CallsFor(d, d.regs.gis, d.regs.gs, 0, false, c);
  }

  /** Between the two writes a completion calls the new callback with the old argument. */
  lemma CallbackTears(w: World, t: Table, p: nat, c: nat, callback: nat, arg: nat)
    requires Shape(w) && t.last < |t.entries| && p < |w.pc|
    requires w.pc[p] == Calling([WriteCallback(c, callback), WriteArgument(c, arg)]) && callback != NULL
    requires BecomesDone(w.d, w.d.regs.gis, w.d.regs.gs, 0, c)
    ensures Shape(Do(w, Exec(p), t))
    ensures Call(c, callback, w.d.channels[c].arg) in Handler(Do(w, Exec(p), t).d).1
  {
    DoKeepsShape(w, Exec(p), t);
    var d := Do(w, Exec(p), t).d;
    assert forall j :: 0 <= j < CHANNEL_NUM ==> d.channels[j].state == w.d.channels[j].state;
    assert BecomesDone(d, d.regs.gis, d.regs.gs, 0, c);
    CompletionCalls(d, c);
  }

  // ---- one writer a channel ---------------------------------------------------------------

  /** Clients set callbacks only on channels they hold; stops, frees and starts follow the
      rule as before. */
  ghost predicate SetsOwn(w: World, s: Step)
    requires Shape(w)
  {
    Follows(w, s) && (s.Enter? && s.op.Callback? ==> MayUse(w, s.p, s.op.dw))
  }

  ghost predicate AllSetOwn(w: World, ss: seq<Step>, t: Table)
    requires Shape(w) && t.last < |t.entries| && IsRun(w, ss, t)
    decreases |ss|
  {
    ss == [] || (SetsOwn(w, ss[0]) && (DoKeepsShape(w, ss[0], t); AllSetOwn(Do(w, ss[0], t), ss[1..], t)))
  }

  /** A call sets this pair for channel c. */
  predicate SetsPair(s: Step, c: nat, pair: Pair) {
    s.Enter? && s.op.Callback? && Names(s.op, c) && pair == (s.op.callback, s.op.arg)
  }

  /** The pair a call to come sets for channel c. */
  predicate IsSetting(todo: seq<Access>, c: nat) {
    exists k :: 0 <= k < |todo| && OnCallback(todo[k], c)
  }

  predicate OnCallback(a: Access, c: nat) {
    || (IsTest(a) && a.op.Callback? && Names(a.op, c))
    || (a.WriteCallback? && a.c == c)
    || (a.WriteArgument? && a.c == c)
  }

  /** What is left of a call that sets the pair: a test, both writes, or the second one. */
  predicate SettingShape(todo: seq<Access>, c: nat) {
    || (|todo| == 1 && IsTest(todo[0]) && todo[0].op.Callback? && Names(todo[0].op, c))
    || (|todo| == 2 && todo[0].WriteCallback? && todo[0].c == c && todo[1].WriteArgument? && todo[1].c == c)
    || (|todo| == 1 && todo[0].WriteArgument? && todo[0].c == c)
  }

  predicate BetweenWrites(pc: Pc, c: nat) {
    pc.Calling? && |pc.todo| == 1 && pc.todo[0].WriteArgument? && pc.todo[0].c == c
  }

  /** The pair the call is about, given the table. */
  function Pending(todo: seq<Access>, c: nat, callback: nat): Pair
    requires SettingShape(todo, c)
  {
    if IsTest(todo[0]) then (todo[0].op.callback, todo[0].op.arg)
    else if todo[0].WriteCallback? then (todo[0].callback, todo[1].arg)
    else (callback, todo[0].arg)
  }

  ghost predicate SettingPc(w: World, q: nat, c: nat, known: set<Pair>)
    requires Shape(w) && q < |w.pc| && c < w.d.numChannels
  {
    w.pc[q].Calling? && IsSetting(w.pc[q].todo, c) ==>
      && Holds(w, q, c)
      && SettingShape(w.pc[q].todo, c)
      && Pending(w.pc[q].todo, c, w.d.channels[c].callback) in known
  }

  /** settled is the pair of the last call that finished its writes; the table holds it, or,
      while a call is between its writes, its argument with the new callback. */
  ghost predicate Accounted(w: World, c: nat, settled: Pair, known: set<Pair>) {
    && Inv(w) && c < w.d.numChannels && settled in known
    && (forall q: nat :: q < |w.pc| ==> SettingPc(w, q, c, known))
    && w.d.channels[c].arg == settled.1
    && ((forall q :: 0 <= q < |w.pc| ==> !BetweenWrites(w.pc[q], c)) ==> Table(w.d, c) == settled)
  }

  function SettledBy(w: World, s: Step, c: nat, settled: Pair): Pair
    requires c < |w.d.channels|
  {
    if Executes(w, s) && Performed(w, s).WriteArgument? && Performed(w, s).c == c
    then (w.d.channels[c].callback, Performed(w, s).arg) else settled
  }

  function KnownBy(s: Step, c: nat, known: set<Pair>): set<Pair> {
    if s.Enter? && s.op.Callback? && Names(s.op, c) then known + {(s.op.callback, s.op.arg)} else known
  }

  // ---- each step ------------------------------------------------------------------------------

  lemma TableStep(w: World, s: Step, t: Table, c: nat)
    requires Shape(w) && Enabled(w, s) && t.last < |t.entries| && c < w.d.numChannels
    ensures Shape(Do(w, s, t))
    ensures Table(Do(w, s, t).d, c)
         == if Executes(w, s) && Performed(w, s).WriteCallback? && Performed(w, s).c == c
            then (Performed(w, s).callback, w.d.channels[c].arg)
            else if Executes(w, s) && Performed(w, s).WriteArgument? && Performed(w, s).c == c
            then (w.d.channels[c].callback, Performed(w, s).arg)
            else Table(w.d, c)
  {
    DoKeepsShape(w, s, t);
    if s.Interrupt? { HandlerIsExact(w.d); }
    if s.Exec? { assert WellFormed(w.d.numChannels, w.pc[s.p].todo[0]); }
  }

  lemma SettingWork(a: Access, s: ChannelState, c: nat)
    requires IsTest(a)
    ensures var todo := AfterTest(a, s, false);
            IsSetting(todo, c) ==>
              a.op.Callback? && Names(a.op, c) && SettingShape(todo, c)
              && forall callback :: Pending(todo, c, callback) == (a.op.callback, a.op.arg)
  {
    var todo := AfterTest(a, s, false);
    if IsSetting(todo, c) {
      var k :| 0 <= k < |todo| && OnCallback(todo[k], c);
      OnlyCallbackSets(a.op, c);
    }
  }

  lemma OnlyCallbackSets(op: Op, c: nat)
    ensures forall k :: 0 <= k < |Work(op, false)| && OnCallback(Work(op, false)[k], c) ==> op.Callback? && Names(op, c)
  {
    WorkKinds(op, c);
  }

  lemma OwnTest(w: World, q: nat, t: Table, c: nat, known: set<Pair>)
    requires Inv(w) && Enabled(w, Exec(q)) && t.last < |t.entries| && c < w.d.numChannels
    requires SettingPc(w, q, c, known) && IsTest(w.pc[q].todo[0])
    ensures Shape(Do(w, Exec(q), t)) && q < |Do(w, Exec(q), t).pc| && c < Do(w, Exec(q), t).d.numChannels
    ensures SettingPc(Do(w, Exec(q), t), q, c, known)
  {
    DoKeepsShape(w, Exec(q), t);
    var a := w.pc[q].todo[0];
    SettingWork(a, w.d.channels[Index(a.op.dw)].state, c);
    if a.op.Callback? && Names(a.op, c) { assert OnCallback(w.pc[q].todo[0], c); }
  }

  lemma OwnWrite(w: World, q: nat, t: Table, c: nat, known: set<Pair>)
    requires Inv(w) && Enabled(w, Exec(q)) && t.last < |t.entries| && c < w.d.numChannels
    requires SettingPc(w, q, c, known) && !IsTest(w.pc[q].todo[0])
    ensures Shape(Do(w, Exec(q), t)) && q < |Do(w, Exec(q), t).pc| && c < Do(w, Exec(q), t).d.numChannels
    ensures SettingPc(Do(w, Exec(q), t), q, c, known)
  {
    DoKeepsShape(w, Exec(q), t);
    TableStep(w, Exec(q), t, c);
    var todo, v := w.pc[q].todo, Do(w, Exec(q), t);
    var rest := todo[1..];
    if v.pc[q].Calling? && IsSetting(rest, c) {
      var k :| 0 <= k < |rest| && OnCallback(rest[k], c);
      assert OnCallback(todo[k + 1], c);
      assert SettingShape(todo, c) && rest == [todo[1]];
    }
  }

  lemma OwnEntry(w: World, s: Step, t: Table, c: nat, known: set<Pair>)
    requires Inv(w) && Enabled(w, s) && s.Enter? && SetsOwn(w, s) && t.last < |t.entries| && c < w.d.numChannels
    requires SettingPc(w, s.p, c, known)
    ensures Shape(Do(w, s, t)) && s.p < |Do(w, s, t).pc| && c < Do(w, s, t).d.numChannels
    ensures SettingPc(Do(w, s, t), s.p, c, KnownBy(s, c, known))
  {
    DoKeepsShape(w, s, t);
    TableStep(w, s, t, c);
    if IsSetting(Entry(s.op), c) { assert Entry(s.op) == [FirstTest(s.op)] && s.op.Callback? && Names(s.op, c); }
  }

  lemma OneSetter(w: World, p: nat, q: nat, c: nat, known: set<Pair>)
    requires Inv(w) && p < |w.pc| && q < |w.pc| && c < w.d.numChannels
    requires SettingPc(w, p, c, known) && w.pc[p].Calling? && IsSetting(w.pc[p].todo, c)
    requires SettingPc(w, q, c, known) && w.pc[q].Calling? && IsSetting(w.pc[q].todo, c)
    ensures p == q
  {
  }

  /** Another client's part stays: nobody else sets the pair of a channel it holds. */
  lemma OtherSetting(w: World, s: Step, t: Table, c: nat, settled: Pair, known: set<Pair>, q: nat)
    requires Accounted(w, c, settled, known) && Enabled(w, s) && SetsOwn(w, s) && t.last < |t.entries| && q < |w.pc|
    requires s.Interrupt? || s.Hardware? || s.p != q
    ensures Shape(Do(w, s, t)) && q < |Do(w, s, t).pc| && c < Do(w, s, t).d.numChannels
    ensures SettingPc(Do(w, s, t), q, c, KnownBy(s, c, known))
  {
    DoKeepsShape(w, s, t);
    TableStep(w, s, t, c);
    assert SettingPc(w, q, c, known);
    if w.pc[q].Calling? && IsSetting(w.pc[q].todo, c) && Executes(w, s) && OnCallback(Performed(w, s), c) {
      assert OnCallback(w.pc[s.p].todo[0], c);
      OneSetter(w, s.p, q, c, known);
    }
  }

  lemma MovingSetting(w: World, s: Step, t: Table, c: nat, settled: Pair, known: set<Pair>)
    requires Accounted(w, c, settled, known) && Enabled(w, s) && t.last < |t.entries|
    requires s.Obtain? || s.Test? || s.Take? || s.Fill? || s.Unlock?
    ensures Shape(Do(w, s, t)) && s.p < |Do(w, s, t).pc| && c < Do(w, s, t).d.numChannels
    ensures SettingPc(Do(w, s, t), s.p, c, KnownBy(s, c, known))
  {
    DoKeepsShape(w, s, t);
  }

  lemma TableAccounted(w: World, s: Step, t: Table, c: nat, settled: Pair, known: set<Pair>)
    requires Accounted(w, c, settled, known) && Enabled(w, s) && SetsOwn(w, s) && t.last < |t.entries|
    ensures Shape(Do(w, s, t))
    ensures var v, next := Do(w, s, t), SettledBy(w, s, c, settled);
            && next in KnownBy(s, c, known)
            && v.d.channels[c].arg == next.1
            && ((forall q :: 0 <= q < |v.pc| ==> !BetweenWrites(v.pc[q], c)) ==> Table(v.d, c) == next)
  {
    DoKeepsShape(w, s, t);
    TableStep(w, s, t, c);
    var v := Do(w, s, t);
    if Executes(w, s) && OnCallback(Performed(w, s), c) {
      assert OnCallback(w.pc[s.p].todo[0], c) && SettingPc(w, s.p, c, known);
      if Performed(w, s).WriteCallback? {
        assert w.pc[s.p].todo[1..] == [w.pc[s.p].todo[1]];
        assert BetweenWrites(v.pc[s.p], c);
      }
    } else {
      BetweenKept(w, s, t, c);
    }
  }

  lemma BetweenKept(w: World, s: Step, t: Table, c: nat)
    requires Shape(w) && Enabled(w, s) && t.last < |t.entries| && !(Executes(w, s) && OnCallback(Performed(w, s), c))
    ensures |Do(w, s, t).pc| == |w.pc|
    ensures forall q :: 0 <= q < |w.pc| && BetweenWrites(w.pc[q], c) ==> BetweenWrites(Do(w, s, t).pc[q], c)
  {
    DoKeepsShape(w, s, t);
  }

  lemma AccountedStep(w: World, s: Step, t: Table, c: nat, settled: Pair, known: set<Pair>)
    requires Accounted(w, c, settled, known) && Enabled(w, s) && SetsOwn(w, s) && t.last < |t.entries|
    ensures Accounted(Do(w, s, t), c, SettledBy(w, s, c, settled), KnownBy(s, c, known))
  {
    DoKeepsInv(w, s, t);
    DoKeepsShape(w, s, t);
    TableAccounted(w, s, t, c, settled, known);
    forall q: nat | q < |w.pc| ensures SettingPc(Do(w, s, t), q, c, KnownBy(s, c, known)) {
      if s.Interrupt? || s.Hardware? || s.p != q { OtherSetting(w, s, t, c, settled, known, q); }
      else if s.Enter? { OwnEntry(w, s, t, c, known); }
      else if s.Exec? {
        if IsTest(w.pc[q].todo[0]) { OwnTest(w, q, t, c, known); } else { OwnWrite(w, q, t, c, known); }
      }
      else { MovingSetting(w, s, t, c, settled, known); }
    }
  }

  // ---- every run --------------------------------------------------------------------------------

  /** The pair of the last call that finished both writes for channel c. */
  ghost function Settled(w: World, ss: seq<Step>, t: Table, c: nat, settled: Pair): Pair
    requires Shape(w) && t.last < |t.entries| && IsRun(w, ss, t) && c < w.d.numChannels
    decreases |ss|
  {
    if ss == [] then settled
    else
      DoKeepsShape(w, ss[0], t);
      Settled(Do(w, ss[0], t), ss[1..], t, c, SettledBy(w, ss[0], c, settled))
  }

  /** The pairs calls of the run set for channel c, and those known before. */
  function Known(ss: seq<Step>, c: nat, known: set<Pair>): set<Pair>
    decreases |ss|
  {
    if ss == [] then known else Known(ss[1..], c, KnownBy(ss[0], c, known))
  }

  lemma {:induction false} KnownMeans(ss: seq<Step>, c: nat, known: set<Pair>, pair: Pair)
    ensures pair in Known(ss, c, known) <==> pair in known || exists k :: 0 <= k < |ss| && SetsPair(ss[k], c, pair)
    decreases |ss|
  {
    if ss != [] {
      KnownMeans(ss[1..], c, KnownBy(ss[0], c, known), pair);
      assert forall k :: 0 <= k < |ss[1..]| ==> ss[1..][k] == ss[k + 1];
      if k :| 0 <= k < |ss| && SetsPair(ss[k], c, pair) {
        if k > 0 { assert SetsPair(ss[1..][k - 1], c, pair); }
      }
      if pair in KnownBy(ss[0], c, known) && pair !in known { assert SetsPair(ss[0], c, pair); }
    }
  }

  lemma {:induction false} AccountedRun(w: World, ss: seq<Step>, t: Table, c: nat, settled: Pair, known: set<Pair>)
    requires Accounted(w, c, settled, known) && t.last < |t.entries| && IsRun(w, ss, t) && AllSetOwn(w, ss, t)
    ensures Accounted(AfterRun(w, ss, t), c, Settled(w, ss, t, c, settled), Known(ss, c, known))
    decreases |ss|
  {
    if ss != [] {
      DoKeepsShape(w, ss[0], t);
      AccountedStep(w, ss[0], t, c, settled, known);
      AccountedRun(Do(w, ss[0], t), ss[1..], t, c, SettledBy(w, ss[0], c, settled), KnownBy(ss[0], c, known));
    }
  }

  /** Some SetCallback of the run, or the initial table, has this pair for channel c. */
  ghost predicate OfOneCall(w: World, ss: seq<Step>, c: nat, pair: Pair)
    requires Shape(w) && c < w.d.numChannels
  {
    pair == Table(w.d, c) || exists k :: 0 <= k < |ss| && SetsPair(ss[k], c, pair)
  }

  /** A client between its two writes has a new callback and still owes a new argument. */
  ghost predicate Torn(v: World, c: nat, settled: Pair)
    requires Shape(v) && c < v.d.numChannels
  {
    exists q :: 0 <= q < |v.pc| && BetweenWrites(v.pc[q], c)
                && v.pc[q].todo[0].arg != settled.1 && v.d.channels[c].callback != settled.0
  }

  /** The pair is that of the last finished call, or that of the call being made. */
  ghost predicate Whole(v: World, c: nat, settled: Pair, pair: Pair)
    requires Shape(v)
  {
    || pair == settled
    || exists q :: 0 <= q < |v.pc| && BetweenWrites(v.pc[q], c) && pair.1 == v.pc[q].todo[0].arg
  }

  /** Over every run of clients that set callbacks only on channels they hold: a handler call
      carries the pair of one SetCallback, the last finished one or the one being made,
      exactly when no client is between its two writes with both halves new; and then it
      carries the new callback with the argument of the last finished call. */
  lemma CallIsWholeIff(w: World, ss: seq<Step>, t: Table, x: Call)
    requires Initial(w) && t.last < |t.entries| && IsRun(w, ss, t) && AllSetOwn(w, ss, t)
    requires x in Handler(AfterRun(w, ss, t).d).1 && x.channel < w.d.numChannels
    ensures var v, c, pair := AfterRun(w, ss, t), x.channel, (x.callback, x.arg);
            var settled := Settled(w, ss, t, c, Table(w.d, c));
            && OfOneCall(w, ss, c, settled)
            && (Whole(v, c, settled, pair) <==> !Torn(v, c, settled))
            && (Whole(v, c, settled, pair) ==> OfOneCall(w, ss, c, pair))
            && (!Whole(v, c, settled, pair) ==> pair.1 == settled.1 && pair.0 != settled.0)
            && forall q :: 0 <= q < |v.pc| && BetweenWrites(v.pc[q], c) ==> OfOneCall(w, ss, c, (pair.0, v.pc[q].todo[0].arg))
  {
    var v, c, pair := AfterRun(w, ss, t), x.channel, (x.callback, x.arg);
    var first := Table(w.d, c);
    InitialInv(w);
    AccountedRun(w, ss, t, c, first, {first});
    CallsCarryTable(v.d, x);
    var settled, known := Settled(w, ss, t, c, first), Known(ss, c, {first});
    KnownMeans(ss, c, {first}, settled);
    forall q | 0 <= q < |v.pc| && BetweenWrites(v.pc[q], c)
      ensures (pair.0, v.pc[q].todo[0].arg) in known && OfOneCall(w, ss, c, (pair.0, v.pc[q].todo[0].arg))
    {
      assert OnCallback(v.pc[q].todo[0], c) && SettingPc(v, q, c, known);
      KnownMeans(ss, c, {first}, (pair.0, v.pc[q].todo[0].arg));
    }
    OneBetween(v, c, settled, known);
  }

  lemma OneBetween(v: World, c: nat, settled: Pair, known: set<Pair>)
    requires Accounted(v, c, settled, known)
    ensures forall p, q :: 0 <= p < |v.pc| && 0 <= q < |v.pc| && BetweenWrites(v.pc[p], c) && BetweenWrites(v.pc[q], c) ==> p == q
  {
    forall p: nat | p < |v.pc| && BetweenWrites(v.pc[p], c) ensures Holds(v, p, c) {
      assert OnCallback(v.pc[p].todo[0], c) && SettingPc(v, p, c, known);
    }
  }

  // ---- without the rule -------------------------------------------------------------------------

  /** No call that sets the pair of channel c is under way. */
  ghost predicate NoneSetting(w: World, c: nat) {
    forall q :: 0 <= q < |w.pc| && w.pc[q].Calling? ==> !IsSetting(w.pc[q].todo, c)
  }

  lemma NoneSettingStep(w: World, s: Step, t: Table, c: nat)
    requires Shape(w) && Enabled(w, s) && t.last < |t.entries| && c < w.d.numChannels && NoneSetting(w, c)
    requires !(s.Enter? && s.op.Callback? && Names(s.op, c))
    ensures Shape(Do(w, s, t)) && NoneSetting(Do(w, s, t), c)
  {
    DoKeepsShape(w, s, t);
    if s.Exec? {
      var todo := w.pc[s.p].todo;
      var rest := todo[1..];
      assert !OnCallback(todo[0], c);
      if IsTest(todo[0]) { SettingWork(todo[0], w.d.channels[Index(todo[0].op.dw)].state, c); }
      else { assert forall k :: 0 <= k < |rest| ==> rest[k] == todo[k + 1] && !OnCallback(todo[k + 1], c); }
    }
  }

  /** A pair stays in the table until the next call for the channel. */
  lemma {:induction false} PairStays(w: World, ss: seq<Step>, t: Table, c: nat)
    requires Shape(w) && t.last < |t.entries| && IsRun(w, ss, t) && c < w.d.numChannels && NoneSetting(w, c)
    requires forall k :: 0 <= k < |ss| ==> !(ss[k].Enter? && ss[k].op.Callback? && Names(ss[k].op, c))
    ensures Table(AfterRun(w, ss, t).d, c) == Table(w.d, c)
    decreases |ss|
  {
    if ss != [] {
      DoKeepsShape(w, ss[0], t);
      NoneSettingStep(w, ss[0], t, c);
      TableStep(w, ss[0], t, c);
      if Executes(w, ss[0]) { assert !OnCallback(w.pc[ss[0].p].todo[0], c); }
      assert forall k :: 0 <= k < |ss[1..]| ==> ss[1..][k] == ss[k + 1];
      PairStays(Do(w, ss[0], t), ss[1..], t, c);
    }
  }

  lemma FirstThreeWrites(w: World, p: nat, q: nat, c: nat, t: Table, first: Pair, second: Pair)
    requires Shape(w) && t.last < |t.entries| && p < |w.pc| && q < |w.pc| && p != q && c < w.d.numChannels
    requires w.pc[p] == Calling([WriteCallback(c, first.0), WriteArgument(c, first.1)])
    requires w.pc[q] == Calling([WriteCallback(c, second.0), WriteArgument(c, second.1)])
    ensures var ss := [Exec(p), Exec(q), Exec(q)];
            IsRun(w, ss, t)
            && Table(AfterRun(w, ss, t).d, c) == second
            && AfterRun(w, ss, t).pc == w.pc[p := Calling([WriteArgument(c, first.1)])][q := Idle]
  {
    DoKeepsShape(w, Exec(p), t);
    var w1 := Do(w, Exec(p), t);
    TableStep(w, Exec(p), t, c);
    assert w1.pc == w.pc[p := Calling([WriteArgument(c, first.1)])];
    DoKeepsShape(w1, Exec(q), t);
    var w2 := Do(w1, Exec(q), t);
    TableStep(w1, Exec(q), t, c);
    assert w2.pc == w1.pc[q := Calling([WriteArgument(c, second.1)])];
    TableStep(w2, Exec(q), t, c);
    assert [WriteArgument(c, second.1)][1..] == [];
    ThreeSteps(w, Exec(p), Exec(q), Exec(q), t);
  }

  lemma LastWrite(w: World, p: nat, c: nat, t: Table, arg: nat)
    requires Shape(w) && t.last < |t.entries| && p < |w.pc| && c < w.d.numChannels
    requires w.pc[p] == Calling([WriteArgument(c, arg)])
    ensures IsRun(w, [Exec(p)], t) && Table(AfterRun(w, [Exec(p)], t).d, c) == (w.d.channels[c].callback, arg)
    ensures AfterRun(w, [Exec(p)], t).pc == w.pc[p := Idle]
  {
    assert [WriteArgument(c, arg)][1..] == [];
    DoKeepsShape(w, Exec(p), t);
    TableStep(w, Exec(p), t, c);
    OneMore(w, Exec(p), [], t);
    assert [Exec(p)] + [] == [Exec(p)];
  }

  lemma WritesInterleave(w: World, p: nat, q: nat, c: nat, t: Table, first: Pair, second: Pair)
    requires Shape(w) && t.last < |t.entries| && p < |w.pc| && q < |w.pc| && p != q && c < w.d.numChannels
    requires w.pc[p] == Calling([WriteCallback(c, first.0), WriteArgument(c, first.1)])
    requires w.pc[q] == Calling([WriteCallback(c, second.0), WriteArgument(c, second.1)])
    ensures var ss := [Exec(p), Exec(q), Exec(q)] + [Exec(p)];
            IsRun(w, ss, t)
            && Table(AfterRun(w, ss, t).d, c) == (second.0, first.1)
            && AfterRun(w, ss, t).pc == w.pc[p := Idle][q := Idle]
  {
    FirstThreeWrites(w, p, q, c, t, first, second);
    LastWrite(AfterRun(w, [Exec(p), Exec(q), Exec(q)], t), p, c, t, first.1);
    RunConcat(w, [Exec(p), Exec(q), Exec(q)], [Exec(p)], t);
  }

  /** Two clients setting the callback of one channel can leave the second one's callback
      with the first one's argument, both calls over; PairStays keeps it there. */
  lemma UnruledCallersMix(w: World, p: nat, q: nat, dw: uint32, t: Table, first: Pair, second: Pair) returns (ss: seq<Step>)
    requires Shape(w) && t.last < |t.entries| && p < |w.pc| && q < |w.pc| && p != q && w.pc[p] == Idle && w.pc[q] == Idle
    requires Index(dw) < w.d.numChannels && w.d.channels[Index(dw)].state in {Allocated, Done, Halted}
    requires NoneSetting(w, Index(dw))
    ensures IsRun(w, ss, t) && Table(AfterRun(w, ss, t).d, Index(dw)) == (second.0, first.1)
    ensures AfterRun(w, ss, t).pc == w.pc && NoneSetting(AfterRun(w, ss, t), Index(dw))
  {
    var f, g := Callback(dw, first.0, first.1), Callback(dw, second.0, second.1);
    var a, b := [Enter(p, f), Exec(p), Exec(p)], [Enter(q, g), Exec(q), Exec(q)];
    var c := [Exec(p), Exec(q), Exec(q)] + [Exec(p)];
    CallTested(w, p, f, t);
    var w1 := AfterRun(w, a, t);
    CallTested(w1, q, g, t);
    RunConcat(w, a, b, t);
    var w2 := AfterRun(w1, b, t);
    WritesInterleave(w2, p, q, Index(dw), t, first, second);
    RunConcat(w, a + b, c, t);
    ss := a + b + c;
    assert AfterRun(w2, c, t).pc == w.pc;
  }
}
