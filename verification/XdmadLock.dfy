/** A started channel is locked: no access of another call changes it. This holds over every
    run of clients that call only for channels they hold, and, at any one moment, exactly when
    no call is past its tests on the channel. */
module XdmadLock {
  import opened UInt
  import opened XdmacModel
  import opened XdmadModel
  import opened XdmadHandler
  import opened XdmadSteps
  import opened XdmadOwnership
  import opened XdmadRuns
  import C = XdmadConfigure

  // ---- the order of a call's accesses -----------------------------------------------------

  /** An access that changes what a transfer of channel c works with: its registers, mask,
      global interrupt, enabling, or callback. */
  predicate Touches(a: Access, c: nat) {
    IsTouch(a) && a.c == c
  }

  predicate IsTouch(a: Access) {
    a.Write? || a.WriteCallback? || a.WriteArgument? || a.EnableInterrupts? || a.DisableInterrupts?
    || a.DisableGlobal? || a.DisableTransfer?
  }

  predicate HasTest(todo: seq<Access>) {
    exists k :: 0 <= k < |todo| && IsTest(todo[k])
  }

  /** A state write comes first, and only that of a stop has touching accesses behind it, to
      the same channel; a call with a test to come has none. */
  ghost predicate Orderly(todo: seq<Access>) {
    && (forall k :: 0 < k < |todo| ==> !todo[k].WriteState?)
    && (forall k :: 0 <= k < |todo| && IsTouch(todo[k]) ==>
          !HasTest(todo) && (todo[0].WriteState? ==> todo[0] == WriteState(todo[k].c, Halted)))
  }

  ghost predicate InOrder(w: World) {
    Shape(w) && forall q :: 0 <= q < |w.pc| && w.pc[q].Calling? ==> Orderly(w.pc[q].todo)
  }

  lemma OrderlyRest(todo: seq<Access>)
    requires Orderly(todo) && todo != []
    ensures Orderly(todo[1..])
  {
    var rest := todo[1..];
    assert forall k :: 0 <= k < |rest| ==> rest[k] == todo[k + 1];
    forall k | 0 <= k < |rest| && IsTouch(rest[k]) ensures !HasTest(rest) && !rest[0].WriteState? {
      assert IsTouch(todo[k + 1]);
      assert !HasTest(todo);
    }
  }

  lemma WorkOrder(op: Op)
    ensures forall k :: 0 <= k < |Work(op, false)| ==>
              var a := Work(op, false)[k];
              && !IsTest(a) && (a.WriteState? ==> k == 0 && op.Begin?)
              && (IsTouch(a) ==> !op.Begin? && a.c == Index(op.dw))
  {
    WorkKinds(op, 0);
  }

  lemma OrderlyAfterTest(a: Access, s: ChannelState)
    requires IsTest(a)
    ensures Orderly(AfterTest(a, s, false))
  {
    WorkOrder(a.op);
    var todo := AfterTest(a, s, false);
    forall k | 0 <= k < |todo| && IsTouch(todo[k]) ensures !HasTest(todo) && !todo[0].WriteState? {
      assert todo == Work(a.op, false);
      assert !a.op.Begin?;
    }
  }

  lemma OrderlyEntry(op: Op)
    ensures Orderly(Entry(op))
  {
    var todo := Entry(op);
    forall k | 0 <= k < |todo| && IsTouch(todo[k]) ensures !HasTest(todo) && todo[0] == WriteState(todo[k].c, Halted) {
      assert op.Stop? && todo == StopPlan(Index(op.dw));
    }
  }

  lemma InOrderStep(w: World, s: Step, t: Table)
    requires InOrder(w) && Enabled(w, s) && t.last < |t.entries|
    ensures InOrder(Do(w, s, t))
  {
    DoKeepsShape(w, s, t);
    if s.Exec? {
      var todo := w.pc[s.p].todo;
      OrderlyRest(todo);
      if IsTest(todo[0]) { OrderlyAfterTest(todo[0], w.d.channels[Index(todo[0].op.dw)].state); }
    } else if s.Enter? {
      OrderlyEntry(s.op);
    }
  }

  // ---- what a step can do to a started channel --------------------------------------------

  /** Client q is past its tests on channel c, and its next state write, if it has one, is not
      that of a stop. */
  predicate PastTests(pc: Pc, c: nat) {
    pc.Calling? && pc.todo != [] && pc.todo[0] != WriteState(c, Halted)
    && exists k :: 0 <= k < |pc.todo| && Touches(pc.todo[k], c)
  }

  ghost predicate Untroubled(w: World, c: nat) {
    forall q :: 0 <= q < |w.pc| ==> !PastTests(w.pc[q], c)
  }

  predicate TouchStep(w: World, s: Step, c: nat) {
    Executes(w, s) && Touches(Performed(w, s), c)
  }

  lemma PastTestsStep(w: World, s: Step, t: Table, c: nat, q: nat)
    requires InOrder(w) && Enabled(w, s) && t.last < |t.entries| && c < w.d.numChannels && q < |w.pc|
    requires w.d.channels[c].state == Start && Do(w, s, t).d.channels[c].state == Start
    requires !PastTests(w.pc[q], c)
    ensures |Do(w, s, t).pc| == |w.pc| && !PastTests(Do(w, s, t).pc[q], c)
  {
    DoKeepsShape(w, s, t);
    if s.Exec? && s.p == q {
      var todo := w.pc[q].todo;
      var a, rest := todo[0], todo[1..];
      assert WellFormed(w.d.numChannels, a);
      if IsTest(a) {
        WorkOrder(a.op);
      } else {
        assert forall k :: 0 <= k < |rest| ==> rest[k] == todo[k + 1];
        if a == WriteState(c, Halted) { StateStep(w, s, t, c); }
      }
    }
  }

  lemma UntroubledStep(w: World, s: Step, t: Table, c: nat)
    requires InOrder(w) && Enabled(w, s) && t.last < |t.entries| && c < w.d.numChannels && Untroubled(w, c)
    requires w.d.channels[c].state == Start && Do(w, s, t).d.channels[c].state == Start
    ensures InOrder(Do(w, s, t)) && Untroubled(Do(w, s, t), c) && !TouchStep(w, s, c)
  {
    InOrderStep(w, s, t);
    DoKeepsShape(w, s, t);
    forall q | 0 <= q < |w.pc| ensures !PastTests(Do(w, s, t).pc[q], c) { PastTestsStep(w, s, t, c, q); }
    if TouchStep(w, s, c) { TouchIsPastTests(w, s, c); }
  }

  lemma TouchIsPastTests(w: World, s: Step, c: nat)
    requires InOrder(w) && Enabled(w, s) && TouchStep(w, s, c)
    ensures s.p < |w.pc| && PastTests(w.pc[s.p], c)
  {
    assert Touches(w.pc[s.p].todo[0], c);
  }

  // ---- at one moment -----------------------------------------------------------------------------

  /** Channel c is started, and the run touches it before it leaves that state. */
  ghost predicate TouchedWhileStarted(w: World, ss: seq<Step>, t: Table, c: nat)
    requires Shape(w) && t.last < |t.entries| && IsRun(w, ss, t) && c < w.d.numChannels
    decreases |ss|
  {
    ss != [] && w.d.channels[c].state == Start
    && (TouchStep(w, ss[0], c) || (DoKeepsShape(w, ss[0], t); TouchedWhileStarted(Do(w, ss[0], t), ss[1..], t, c)))
  }

  ghost predicate TouchingRun(w: World, ss: seq<Step>, t: Table, c: nat)
    requires Shape(w) && t.last < |t.entries| && c < w.d.numChannels
  {
    IsRun(w, ss, t) && TouchedWhileStarted(w, ss, t, c)
  }

  lemma TouchKeepsState(w: World, s: Step, t: Table, c: nat)
    requires Shape(w) && Enabled(w, s) && t.last < |t.entries| && c < w.d.numChannels && TouchStep(w, s, c)
    ensures Shape(Do(w, s, t)) && Do(w, s, t).d.channels[c].state == w.d.channels[c].state
  {
    StateStep(w, s, t, c);
  }

  lemma {:induction false} NeverTouched(w: World, ss: seq<Step>, t: Table, c: nat)
    requires InOrder(w) && t.last < |t.entries| && IsRun(w, ss, t) && c < w.d.numChannels && Untroubled(w, c)
    ensures !TouchedWhileStarted(w, ss, t, c)
    decreases |ss|
  {
    if ss != [] && w.d.channels[c].state == Start {
      DoKeepsShape(w, ss[0], t);
      if TouchStep(w, ss[0], c) { TouchKeepsState(w, ss[0], t, c); }
      if Do(w, ss[0], t).d.channels[c].state == Start {
        UntroubledStep(w, ss[0], t, c);
        NeverTouched(Do(w, ss[0], t), ss[1..], t, c);
      } else {
        NotStarted(Do(w, ss[0], t), ss[1..], t, c);
      }
    }
  }

  lemma NotStarted(w: World, ss: seq<Step>, t: Table, c: nat)
    requires Shape(w) && t.last < |t.entries| && IsRun(w, ss, t) && c < w.d.numChannels && w.d.channels[c].state != Start
    ensures !TouchedWhileStarted(w, ss, t, c)
  {
  }

  /** A call past its tests, run on, touches the channel. */
  lemma {:induction false} PastTestsTouches(w: World, t: Table, c: nat, q: nat) returns (ss: seq<Step>)
    requires InOrder(w) && t.last < |t.entries| && c < w.d.numChannels && w.d.channels[c].state == Start
    requires q < |w.pc| && PastTests(w.pc[q], c)
    ensures TouchingRun(w, ss, t, c)
    decreases |w.pc[q].todo|
  {
    var s, todo := Exec(q), w.pc[q].todo;
    var k :| 0 <= k < |todo| && Touches(todo[k], c);
    assert Touches(todo[k], c) && !HasTest(todo) && !todo[0].WriteState?;
    assert !IsTest(todo[0]);
    DoKeepsShape(w, s, t);
    var v := Do(w, s, t);
    if k == 0 {
      ss := [s];
      OneMore(w, s, [], t);
      assert [s] + [] == [s];
    } else {
      InOrderStep(w, s, t);
      StateStep(w, s, t, c);
      assert v.pc[q].todo == todo[1..] && Touches(v.pc[q].todo[k - 1], c);
      assert PastTests(v.pc[q], c) by { assert !todo[1].WriteState?; }
      var rest := PastTestsTouches(v, t, c, q);
      OneMore(w, s, rest, t);
      ss := [s] + rest;
      assert ss[1..] == rest;
    }
  }

  lemma TouchableFrom(w: World, t: Table, c: nat)
    requires InOrder(w) && t.last < |t.entries| && c < w.d.numChannels && w.d.channels[c].state == Start
    ensures (exists ss :: TouchingRun(w, ss, t, c)) <==> !Untroubled(w, c)
  {
    if Untroubled(w, c) {
      forall ss ensures !TouchingRun(w, ss, t, c) {
        if IsRun(w, ss, t) { NeverTouched(w, ss, t, c); }
      }
    } else {
      var q: nat :| q < |w.pc| && PastTests(w.pc[q], c);
      var ss := PastTestsTouches(w, t, c, q);
    }
  }

  lemma {:induction false} InOrderRun(w: World, ss: seq<Step>, t: Table)
    requires InOrder(w) && t.last < |t.entries| && IsRun(w, ss, t)
    ensures InOrder(AfterRun(w, ss, t))
    decreases |ss|
  {
    if ss != [] {
      DoKeepsShape(w, ss[0], t);
      InOrderStep(w, ss[0], t);
      InOrderRun(Do(w, ss[0], t), ss[1..], t);
    }
  }

  /** At any moment of any run of any clients, such as right after the state write of a start,
      a started channel may still be touched before it leaves that state exactly when some
      call is past its tests on it. */
  lemma TouchableIff(w: World, before: seq<Step>, t: Table, c: nat)
    requires Initial(w) && t.last < |t.entries| && IsRun(w, before, t)
    requires c < w.d.numChannels && AfterRun(w, before, t).d.channels[c].state == Start
    ensures var u := AfterRun(w, before, t);
            (exists ss :: TouchingRun(u, ss, t, c)) <==> !Untroubled(u, c)
  {
    InOrderRun(w, before, t);
    TouchableFrom(AfterRun(w, before, t), t, c);
  }

  // ---- over every run of clients that call only for their own channels ---------------------

  /** Every call names a channel its client holds, or none. */
  ghost predicate CallsOwn(w: World, s: Step)
    requires Shape(w)
  {
    s.Enter? ==> MayUse(w, s.p, s.op.dw)
  }

  ghost predicate AllCallOwn(w: World, ss: seq<Step>, t: Table)
    requires Shape(w) && t.last < |t.entries| && IsRun(w, ss, t)
    decreases |ss|
  {
    ss == [] || (CallsOwn(w, ss[0]) && (DoKeepsShape(w, ss[0], t); AllCallOwn(Do(w, ss[0], t), ss[1..], t)))
  }

  /** What a client is about to access it holds; what it is about to touch is not started,
      unless its stop writes the state first. */
  ghost predicate OwnAccess(w: World, q: nat, todo: seq<Access>, a: Access)
    requires Shape(w) && todo != []
  {
    && (IsTest(a) ==> Holds(w, q, Index(a.op.dw)))
    && (!IsTest(a) ==> Holds(w, q, a.c))
    && (IsTouch(a) && a.c < w.d.numChannels ==> todo[0] == WriteState(a.c, Halted) || w.d.channels[a.c].state != Start)
    && (a.WriteState? && a.s == Start && a.c < w.d.numChannels ==> w.d.channels[a.c].state != Start)
  }

  ghost predicate OwnPc(w: World, q: nat)
    requires Shape(w) && q < |w.pc|
  {
    && (w.pc[q].Calling? ==> forall k :: 0 <= k < |w.pc[q].todo| ==> OwnAccess(w, q, w.pc[q].todo, w.pc[q].todo[k]))
    && (w.pc[q].Filling? ==> Holds(w, q, w.pc[q].i) && w.d.channels[w.pc[q].i].state != Start)
  }

  ghost predicate Locked(w: World) {
    Inv(w) && InOrder(w) && forall q: nat :: q < |w.pc| ==> OwnPc(w, q)
  }

  lemma InitialLocked(w: World)
    requires Initial(w)
    ensures Locked(w)
  {
    InitialInv(w);
  }

  /** A client that does not move keeps its part, if what it holds does not become started. */
  lemma OwnPcKept(w: World, v: World, q: nat)
    requires Shape(w) && Shape(v) && q < |w.pc| == |v.pc| && v.pc[q] == w.pc[q] && OwnPc(w, q)
    requires v.d.numChannels == w.d.numChannels
    requires forall c: nat :: Holds(w, q, c) ==> Holds(v, q, c)
    requires forall c: nat :: c < w.d.numChannels && Holds(w, q, c) && v.d.channels[c].state == Start ==> w.d.channels[c].state == Start
    ensures OwnPc(v, q)
  {
    if w.pc[q].Calling? {
      var todo := w.pc[q].todo;
      forall k | 0 <= k < |todo| ensures OwnAccess(v, q, todo, todo[k]) { assert OwnAccess(w, q, todo, todo[k]); }
    }
  }

  /** Only the client itself changes what it holds, and starts what it holds. */
  lemma OthersStep(w: World, s: Step, t: Table, q: nat)
    requires Locked(w) && Enabled(w, s) && CallsOwn(w, s) && t.last < |t.entries| && q < |w.pc|
    requires s.Interrupt? || s.Hardware? || s.p != q
    ensures Shape(Do(w, s, t)) && |Do(w, s, t).pc| == |w.pc| && OwnPc(Do(w, s, t), q)
  {
    DoKeepsShape(w, s, t);
    var v := Do(w, s, t);
    assert forall c: nat :: Holds(v, q, c) == Holds(w, q, c);
    forall c: nat | c < w.d.numChannels && Holds(w, q, c) && v.d.channels[c].state == Start
      ensures w.d.channels[c].state == Start
    {
      StateStep(w, s, t, c);
      if s.Exec? {
        assert PcInv(w, s.p) && Rightful(w, s.p, w.pc[s.p].todo[0]);
        assert !Holds(w, s.p, c);
      }
    }
    assert OwnPc(w, q);
    OwnPcKept(w, v, q);
  }

  lemma OwnWork(w: World, q: nat, a: Access, s: ChannelState)
    requires Shape(w) && IsTest(a) && Index(a.op.dw) < w.d.numChannels && Holds(w, q, Index(a.op.dw))
    requires s == w.d.channels[Index(a.op.dw)].state
    ensures var todo := AfterTest(a, s, false);
            forall k :: 0 <= k < |todo| ==> OwnAccess(w, q, todo, todo[k])
  {
    WorkKinds(a.op, 0);
    WorkOrder(a.op);
  }

  lemma OwnExec(w: World, q: nat, t: Table)
    requires Locked(w) && Enabled(w, Exec(q)) && t.last < |t.entries|
    ensures Shape(Do(w, Exec(q), t)) && q < |Do(w, Exec(q), t).pc| && OwnPc(Do(w, Exec(q), t), q)
  {
    DoKeepsShape(w, Exec(q), t);
    var todo, v := w.pc[q].todo, Do(w, Exec(q), t);
    var a, rest := todo[0], todo[1..];
    assert OwnPc(w, q) && OwnAccess(w, q, todo, a) && PcInv(w, q) && Orderly(todo);
    assert WellFormed(w.d.numChannels, a);
    if IsTest(a) {
      var s := w.d.channels[Index(a.op.dw)].state;
      OwnWork(w, q, a, s);
      var next := AfterTest(a, s, false);
      forall k | 0 <= k < |next| ensures OwnAccess(v, q, next, next[k]) { assert OwnAccess(w, q, next, next[k]); }
    } else {
      forall k | 0 <= k < |rest| ensures OwnAccess(v, q, rest, rest[k]) {
        assert rest[k] == todo[k + 1] && OwnAccess(w, q, todo, todo[k + 1]);
        assert Rightful(w, q, a);
        OwnRest(w, q, t, k + 1);
      }
    }
  }

  lemma OwnRest(w: World, q: nat, t: Table, k: nat)
    requires Locked(w) && Enabled(w, Exec(q)) && t.last < |t.entries| && 0 < k < |w.pc[q].todo| && !IsTest(w.pc[q].todo[0])
    ensures Shape(Do(w, Exec(q), t)) && OwnAccess(Do(w, Exec(q), t), q, w.pc[q].todo[1..], w.pc[q].todo[k])
  {
    DoKeepsShape(w, Exec(q), t);
    var todo, v := w.pc[q].todo, Do(w, Exec(q), t);
    var a, b := todo[0], todo[k];
    assert OwnPc(w, q) && OwnAccess(w, q, todo, a) && OwnAccess(w, q, todo, b) && PcInv(w, q) && Orderly(todo);
    assert WellFormed(w.d.numChannels, a) && WellFormed(w.d.numChannels, b);
    assert Rightful(w, q, a);
    assert !(a.WriteState? && a.s == Free);
    assert v.held == w.held;
    if !IsTest(b) && b.c < w.d.numChannels { StateStep(w, Exec(q), t, b.c); }
  }

  lemma OwnMove(w: World, s: Step, t: Table)
    requires Locked(w) && Enabled(w, s) && CallsOwn(w, s) && t.last < |t.entries|
    requires s.Obtain? || s.Test? || s.Take? || s.Fill? || s.Unlock? || s.Enter?
    ensures Shape(Do(w, s, t)) && s.p < |Do(w, s, t).pc| && OwnPc(Do(w, s, t), s.p)
  {
    DoKeepsShape(w, s, t);
    var v := Do(w, s, t);
    assert OwnPc(w, s.p) && PcInv(w, s.p);
    if s.Enter? && Index(s.op.dw) < w.d.numChannels {
      var todo := Entry(s.op);
      assert Holds(v, s.p, Index(s.op.dw));
      forall k | 0 <= k < |todo| ensures OwnAccess(v, s.p, todo, todo[k]) {}
    }
  }

  lemma LockedStep(w: World, s: Step, t: Table)
    requires Locked(w) && Enabled(w, s) && CallsOwn(w, s) && t.last < |t.entries|
    ensures Locked(Do(w, s, t))
  {
    DoKeepsInv(w, s, t);
    InOrderStep(w, s, t);
    DoKeepsShape(w, s, t);
    forall q: nat | q < |w.pc| ensures OwnPc(Do(w, s, t), q) {
      if s.Interrupt? || s.Hardware? || s.p != q { OthersStep(w, s, t, q); }
      else if s.Exec? { OwnExec(w, q, t); }
      else { OwnMove(w, s, t); }
    }
  }

  lemma {:induction false} LockedRun(w: World, ss: seq<Step>, t: Table)
    requires Locked(w) && t.last < |t.entries| && IsRun(w, ss, t) && AllCallOwn(w, ss, t)
    ensures Locked(AfterRun(w, ss, t))
    decreases |ss|
  {
    if ss != [] {
      DoKeepsShape(w, ss[0], t);
      LockedStep(w, ss[0], t);
      LockedRun(Do(w, ss[0], t), ss[1..], t);
    }
  }

  /** What a transfer of channel c works with is as it was: callback and description, mask,
      and all its registers but the status; its enabling and global interrupt are not taken
      away. */
  ghost predicate Undisturbed(d: Driver, e: Driver, c: nat)
    requires Valid(d) && Valid(e) && c < CHANNEL_NUM
  {
    && e.channels[c] == d.channels[c].(state := e.channels[c].state)
    && e.regs.ch[c] == d.regs.ch[c].(cis := e.regs.ch[c].cis)
    && (c in d.regs.gim ==> c in e.regs.gim)
    && (c in d.regs.gs ==> c in e.regs.gs)
    && (c in e.regs.disabling ==> c in d.regs.disabling)
  }

  lemma PerformUndisturbed(d: Driver, a: Access, c: nat)
    requires Valid(d) && !IsTest(a) && a.c < CHANNEL_NUM && c < CHANNEL_NUM && !Touches(a, c)
    ensures Undisturbed(d, Perform(d, a), c)
  {
    if a.Write? { SetElsewhere(d.regs, a.c, a.setter, c); }
  }

  lemma SetElsewhere(r: Regs, k: nat, setter: Setter, c: nat)
    requires ValidRegs(r) && k < CHANNEL_NUM && c < CHANNEL_NUM && c != k
    ensures ValidRegs(Set(r, k, setter)) && Set(r, k, setter).ch[c] == r.ch[c]
    ensures Set(r, k, setter).gim == r.gim && Set(r, k, setter).gs == r.gs && Set(r, k, setter).disabling == r.disabling
  {
  }

  lemma HandlerUndisturbed(d: Driver, c: nat)
    requires Valid(d) && c < CHANNEL_NUM
    ensures Valid(Handler(d).0) && Undisturbed(d, Handler(d).0, c)
  {
    HandlerIsExact(d);
  }

  lemma StartedAccess(w: World, q: nat, t: Table, c: nat)
    requires Locked(w) && q < |w.pc| && w.pc[q].Calling? && t.last < |t.entries|
    requires c < w.d.numChannels && w.d.channels[c].state == Start
    ensures !TouchStep(w, Exec(q), c)
  {
    assert OwnPc(w, q) && OwnAccess(w, q, w.pc[q].todo, w.pc[q].todo[0]);
  }

  /** A started channel is locked over every run of clients that call only for channels they
      hold: as long as it stays started nothing but the hardware changes what its transfer
      works with, not even an access of a call entered before the start; and it leaves that
      state only by a completing handler run or the state write of a stop. */
  lemma StartedIsUntouched(w: World, ss: seq<Step>, s: Step, t: Table, c: nat)
    requires Initial(w) && t.last < |t.entries| && IsRun(w, ss, t) && AllCallOwn(w, ss, t)
    requires Enabled(AfterRun(w, ss, t), s) && !s.Hardware?
    requires c < w.d.numChannels && AfterRun(w, ss, t).d.channels[c].state == Start
    ensures Shape(Do(AfterRun(w, ss, t), s, t))
    ensures var u := AfterRun(w, ss, t);
            var v := Do(u, s, t);
            && Undisturbed(u.d, v.d, c)
            && v.d.channels[c].state
            == if CompletesStep(u, s, c) then Done
               else if Executes(u, s) && Performed(u, s) == WriteState(c, Halted) then Halted else Start
  {
    InitialLocked(w);
    LockedRun(w, ss, t);
    StartedStep(AfterRun(w, ss, t), s, t, c);
    LeavingStart(AfterRun(w, ss, t), s, t, c);
  }

  lemma StartedStep(w: World, s: Step, t: Table, c: nat)
    requires Locked(w) && Enabled(w, s) && !s.Hardware? && t.last < |t.entries|
    requires c < w.d.numChannels && w.d.channels[c].state == Start
    ensures Shape(Do(w, s, t)) && Undisturbed(w.d, Do(w, s, t).d, c)
  {
    DoKeepsShape(w, s, t);
    if s.Exec? {
      var a := w.pc[s.p].todo[0];
      assert WellFormed(w.d.numChannels, a);
      StartedAccess(w, s.p, t, c);
      if !IsTest(a) { PerformUndisturbed(w.d, a, c); }
    } else if s.Interrupt? {
      HandlerUndisturbed(w.d, c);
    } else if s.Fill? || s.Take? {
      assert OwnPc(w, s.p) && PcInv(w, s.p);
    }
  }

  // ---- a call entered before the start ------------------------------------------------------

  lemma {:induction false} ObeysConcat(w: World, ss: seq<Step>, tt: seq<Step>, t: Table)
    requires Shape(w) && t.last < |t.entries| && IsRun(w, ss, t) && IsRun(AfterRun(w, ss, t), tt, t)
    requires Obeys(w, ss, t) && Obeys(AfterRun(w, ss, t), tt, t)
    ensures IsRun(w, ss + tt, t) && AfterRun(w, ss + tt, t) == AfterRun(AfterRun(w, ss, t), tt, t)
    ensures Obeys(w, ss + tt, t)
    decreases |ss|
  {
    RunConcat(w, ss, tt, t);
    if ss == [] {
      assert ss + tt == tt;
    } else {
      DoKeepsShape(w, ss[0], t);
      ObeysConcat(Do(w, ss[0], t), ss[1..], tt, t);
      assert (ss + tt)[1..] == ss[1..] + tt;
    }
  }

  lemma {:induction false} NoEntryObeys(w: World, ss: seq<Step>, t: Table)
    requires Shape(w) && t.last < |t.entries| && IsRun(w, ss, t) && forall k :: 0 <= k < |ss| ==> !ss[k].Enter?
    ensures Obeys(w, ss, t)
    decreases |ss|
  {
    if ss != [] {
      DoKeepsShape(w, ss[0], t);
      assert forall k :: 0 <= k < |ss[1..]| ==> ss[1..][k] == ss[k + 1];
      NoEntryObeys(Do(w, ss[0], t), ss[1..], t);
    }
  }

  lemma TestedObeys(w: World, q: nat, op: Op, t: Table)
    requires Shape(w) && t.last < |t.entries| && q < |w.pc|
    requires var ss := [Enter(q, op), Exec(q), Exec(q)]; IsRun(w, ss, t)
    requires Follows(w, Enter(q, op))
    ensures Obeys(w, [Enter(q, op), Exec(q), Exec(q)], t)
  {
    var ss := [Enter(q, op), Exec(q), Exec(q)];
    DoKeepsShape(w, ss[0], t);
    assert ss[1..] == [Exec(q), Exec(q)];
    NoEntryObeys(Do(w, ss[0], t), ss[1..], t);
  }

  lemma StateAccess(w: World, q: nat, t: Table, c: nat, x: ChannelState, rest: seq<Access>)
    requires Shape(w) && t.last < |t.entries| && q < |w.pc| && w.pc[q].Calling? && x != Free && c < CHANNEL_NUM
    requires w.pc[q].todo[0] == WriteState(c, x) && w.pc[q].todo[1..] == rest
    ensures Shape(Do(w, Exec(q), t))
    ensures Do(w, Exec(q), t) == At(w, q, Resume(rest)).(d := SetState(w.d, c, x))
  {
    DoKeepsShape(w, Exec(q), t);
  }

  lemma RegisterAccess(w: World, q: nat, t: Table, a: Access, rest: seq<Access>)
    requires Shape(w) && t.last < |t.entries| && q < |w.pc| && w.pc[q].Calling?
    requires w.pc[q].todo[0] == a && w.pc[q].todo[1..] == rest && OnRegisters(a) && a.c < CHANNEL_NUM
    ensures Shape(Do(w, Exec(q), t))
    ensures Do(w, Exec(q), t) == At(w, q, Resume(rest)).(d := w.d.(regs := PerformRegs(w.d.regs, a)))
  {
    DoKeepsShape(w, Exec(q), t);
  }

  /** Two register accesses in a row. */
  lemma TwoAccesses(w: World, q: nat, t: Table, a: Access, b: Access, rest: seq<Access>)
    requires Shape(w) && t.last < |t.entries| && q < |w.pc| && w.pc[q] == Calling([a, b] + rest)
    requires OnRegisters(a) && a.c < CHANNEL_NUM && OnRegisters(b) && b.c < CHANNEL_NUM
    ensures ValidRegs(PerformRegs(w.d.regs, a)) && IsRun(w, [Exec(q), Exec(q)], t)
    ensures AfterRun(w, [Exec(q), Exec(q)], t)
         == At(w, q, Resume(rest)).(d := w.d.(regs := PerformRegs(PerformRegs(w.d.regs, a), b)))
  {
    var todo := [a, b] + rest;
    assert todo[1..] == [b] + rest && ([b] + rest)[1..] == rest;
    RegisterAccess(w, q, t, a, [b] + rest);
    var w1 := Do(w, Exec(q), t);
    PerformedRegsValid(w.d.regs, a);
    RegisterAccess(w1, q, t, b, rest);
    OneMore(w1, Exec(q), [], t);
    assert [Exec(q)] + [] == [Exec(q)];
    OneMore(w, Exec(q), [Exec(q)], t);
    assert [Exec(q)] + [Exec(q)] == [Exec(q), Exec(q)];
  }

  lemma StartAccesses(w: World, p: nat, dw: uint32, t: Table)
    requires Shape(w) && t.last < |t.entries| && p < |w.pc| && w.pc[p] == Calling(Work(Begin(dw), false))
    requires Index(dw) < w.d.numChannels
    ensures var c, ss := Index(dw), [Exec(p), Exec(p), Exec(p)];
            IsRun(w, ss, t)
            && AfterRun(w, ss, t) == At(w, p, Idle).(d := SetState(w.d, c, Start).(regs := EnableGIt(EnableChannel(w.d.regs, c), c)))
  {
    var c := Index(dw);
    var todo, two := w.pc[p].todo, [EnableTransfer(c), EnableGlobal(c)];
    assert todo[0] == WriteState(c, Start) && todo[1..] == two && two + [] == two;
    StateAccess(w, p, t, c, Start, two);
    var w1 := Do(w, Exec(p), t);
    TwoAccesses(w1, p, t, EnableTransfer(c), EnableGlobal(c), []);
    OneMore(w, Exec(p), [Exec(p), Exec(p)], t);
    assert [Exec(p)] + [Exec(p), Exec(p)] == [Exec(p), Exec(p), Exec(p)];
  }

  lemma StartRuns(w: World, p: nat, dw: uint32, t: Table)
    requires Shape(w) && t.last < |t.entries| && p < |w.pc| && w.pc[p] == Calling(Work(Begin(dw), false))
    requires Index(dw) < w.d.numChannels
    ensures var c, ss := Index(dw), [Exec(p), Exec(p), Exec(p)];
            IsRun(w, ss, t) && Obeys(w, ss, t)
            && AfterRun(w, ss, t) == At(w, p, Idle).(d := SetState(w.d, c, Start).(regs := EnableGIt(EnableChannel(w.d.regs, c), c)))
  {
    StartAccesses(w, p, dw, t);
    NoEntryObeys(w, [Exec(p), Exec(p), Exec(p)], t);
  }

  lemma PrepareAccesses(w: World, q: nat, dw: uint32, t: Table)
    requires Shape(w) && t.last < |t.entries| && q < |w.pc| && w.pc[q] == Calling(Work(Prepare(dw), false))
    requires Index(dw) < w.d.numChannels
    ensures var c, ss := Index(dw), [Exec(q), Exec(q), Exec(q)];
            IsRun(w, ss, t)
            && AfterRun(w, ss, t).d == w.d.(regs := DisableChannelIt(DisableGIt(ClearStatus(w.d.regs, c), c), c, 0xFF))
            && |AfterRun(w, ss, t).pc| == |w.pc|
            && forall r :: 0 <= r < |w.pc| && r != q ==> AfterRun(w, ss, t).pc[r] == w.pc[r]
  {
    var c := Index(dw);
    var todo, two := w.pc[q].todo, w.pc[q].todo[1..];
    var rest := todo[3..];
    assert todo[0] == ReadStatus(c) && two == [DisableGlobal(c), DisableInterrupts(c)] + rest;
    RegisterAccess(w, q, t, ReadStatus(c), two);
    var w1 := Do(w, Exec(q), t);
    TwoAccesses(w1, q, t, DisableGlobal(c), DisableInterrupts(c), rest);
    OneMore(w, Exec(q), [Exec(q), Exec(q)], t);
    assert [Exec(q)] + [Exec(q), Exec(q)] == [Exec(q), Exec(q), Exec(q)];
  }

  lemma PrepareGoesOn(w: World, q: nat, dw: uint32, t: Table)
    requires Shape(w) && t.last < |t.entries| && q < |w.pc| && w.pc[q] == Calling(Work(Prepare(dw), false))
    requires Index(dw) < w.d.numChannels
    ensures var c, ss := Index(dw), [Exec(q), Exec(q), Exec(q)];
            IsRun(w, ss, t) && Obeys(w, ss, t)
            && AfterRun(w, ss, t).d == w.d.(regs := DisableChannelIt(DisableGIt(ClearStatus(w.d.regs, c), c), c, 0xFF))
            && |AfterRun(w, ss, t).pc| == |w.pc|
            && forall r :: 0 <= r < |w.pc| && r != q ==> AfterRun(w, ss, t).pc[r] == w.pc[r]
  {
    PrepareAccesses(w, q, dw, t);
    NoEntryObeys(w, [Exec(q), Exec(q), Exec(q)], t);
  }

  /** Clients that stop, free and start only what they hold are not enough: another client's
      prepare, past its tests, goes on after the start. The channel stays started, its
      client has returned, its global interrupt is off and its mask empty, so that no handler
      run will complete it whatever the hardware does. */
  lemma PrepareRacesStart(w: World, p: nat, q: nat, dw: uint32, t: Table) returns (ss: seq<Step>)
    requires Inv(w) && t.last < |t.entries| && p < |w.pc| && q < |w.pc| && p != q && w.pc[p] == Idle && w.pc[q] == Idle
    requires Holds(w, p, Index(dw)) && w.d.channels[Index(dw)].state in {Allocated, Done, Halted}
    ensures IsRun(w, ss, t) && Obeys(w, ss, t)
    ensures var v, c := AfterRun(w, ss, t), Index(dw);
            && c < v.d.numChannels && p < |v.pc| && v.pc[p] == Idle
            && v.d.channels[c].state == Start && c !in v.d.regs.gim && v.d.regs.ch[c].cim == {}
            && forall r :: HardwareMay(v.d.regs, r) ==> !BecomesDone(v.d.(regs := r), r.gis, r.gs, 0, c)
  {
    var c := Index(dw);
    assert !IsFree(w, c);
    var a := [Enter(q, Prepare(dw)), Exec(q), Exec(q)];
    CallTested(w, q, Prepare(dw), t);
    TestedObeys(w, q, Prepare(dw), t);
    var w1 := AfterRun(w, a, t);
    assert Holds(w1, p, c);
    var b := StartBetween(w1, p, dw, t);
    ObeysConcat(w, a, b, t);
    var w2 := AfterRun(w1, b, t);
    PrepareGoesOn(w2, q, dw, t);
    var three := [Exec(q), Exec(q), Exec(q)];
    ObeysConcat(w, a + b, three, t);
    ss := a + b + three;
    MutedNeverCompletes(AfterRun(w2, three, t).d, w2.d.regs.ch[c].cim, c);
  }

  /** A whole start. */
  lemma StartBetween(w: World, p: nat, dw: uint32, t: Table) returns (ss: seq<Step>)
    requires Shape(w) && t.last < |t.entries| && p < |w.pc| && w.pc[p] == Idle && Holds(w, p, Index(dw))
    requires Index(dw) < w.d.numChannels && w.d.channels[Index(dw)].state in {Allocated, Done, Halted}
    ensures IsRun(w, ss, t) && Obeys(w, ss, t)
    ensures var c := Index(dw);
            AfterRun(w, ss, t).d == SetState(w.d, c, Start).(regs := EnableGIt(EnableChannel(w.d.regs, c), c))
            && AfterRun(w, ss, t).pc == w.pc
  {
    var b, three := [Enter(p, Begin(dw)), Exec(p), Exec(p)], [Exec(p), Exec(p), Exec(p)];
    CallTested(w, p, Begin(dw), t);
    TestedObeys(w, p, Begin(dw), t);
    StartRuns(AfterRun(w, b, t), p, dw, t);
    ObeysConcat(w, b, three, t);
    ss := b + three;
    assert AfterRun(w, ss, t).pc == w.pc;
  }

  lemma MutedNeverCompletes(d: Driver, cim: set<Irq>, c: nat)
    requires Valid(d) && c < d.numChannels && d.regs.ch[c].cim == cim - Named(0xFF)
    ensures d.regs.ch[c].cim == {}
    ensures forall r :: HardwareMay(d.regs, r) ==> !BecomesDone(d.(regs := r), r.gis, r.gs, 0, c)
  {
    C.AllNamed(cim);
    forall r | HardwareMay(d.regs, r) ensures !BecomesDone(d.(regs := r), r.gis, r.gs, 0, c) {
      EmptyMaskNeverCompletes(r.ch[c].cis);
    }
  }
}
