/** What holds of the DMA driver over every run of XdmadSteps, access by access. */
module XdmadRuns {
  import opened UInt
  import opened XdmacModel
  import opened XdmadModel
  import opened XdmadConfigure
  import opened XdmadHandler
  import opened XdmadSteps
  import opened XdmadOwnership

  // ---- every step changes one state in one of few ways -----------------------------

  /** A handler run that sees an unmasked completing status of channel c and handles it. */
  ghost predicate CompletesStep(w: World, s: Step, c: nat)
    requires Shape(w)
  {
    s.Interrupt? && BecomesDone(w.d, w.d.regs.gis, w.d.regs.gs, 0, c)
  }

  predicate Executes(w: World, s: Step) {
    s.Exec? && s.p < |w.pc| && w.pc[s.p].Calling? && w.pc[s.p].todo != []
  }

  /** The access a step performs. */
  function Performed(w: World, s: Step): Access
    requires Executes(w, s)
  {
    w.pc[s.p].todo[0]
  }

  /** The new state of channel c. */
  ghost function NextState(w: World, s: Step, c: nat): ChannelState
    requires Shape(w) && Enabled(w, s) && c < w.d.numChannels
  {
    if CompletesStep(w, s, c) then Done
    else if s.Take? && w.pc[s.p].i == c then Allocated
    else if Executes(w, s) && Performed(w, s).WriteState? && Performed(w, s).c == c then Performed(w, s).s
    else w.d.channels[c].state
  }

  /** The driver's state machine: a state changes by a completing handler run, by an
      allocation, or by the one state write of a free, a start or a stop. */
  lemma StateStep(w: World, s: Step, t: Table, c: nat)
    requires Shape(w) && Enabled(w, s) && t.last < |t.entries| && c < w.d.numChannels
    ensures Shape(Do(w, s, t)) && Do(w, s, t).d.channels[c].state == NextState(w, s, c)
    ensures NextState(w, s, c) in {w.d.channels[c].state, Done, Allocated, Free, Start, Halted}
  {
    DoKeepsShape(w, s, t);
    if s.Interrupt? { HandlerIsExact(w.d); }
    if s.Exec? { assert WellFormed(w.d.numChannels, w.pc[s.p].todo[0]); }
  }

  /** The interrupt mask of channel c changes only by the one write that empties it and the
      one that adds to it. */
  lemma {:induction false} MaskStep(w: World, s: Step, t: Table, c: nat)
    requires Shape(w) && Enabled(w, s) && t.last < |t.entries| && c < w.d.numChannels
    ensures Shape(Do(w, s, t))
    ensures Do(w, s, t).d.regs.ch[c].cim
         == if Executes(w, s) && Performed(w, s) == DisableInterrupts(c) then {}
            else if Executes(w, s) && Performed(w, s).EnableInterrupts? && Performed(w, s).c == c
            then w.d.regs.ch[c].cim + Named(Performed(w, s).mask)
            else w.d.regs.ch[c].cim
  {
    DoKeepsShape(w, s, t);
    if s.Interrupt? {
      HandlerIsExact(w.d);
    } else if s.Exec? {
      assert WellFormed(w.d.numChannels, w.pc[s.p].todo[0]);
      AllNamed(w.d.regs.ch[c].cim);
      if !IsTest(w.pc[s.p].todo[0]) { PerformedMask(w.d, w.pc[s.p].todo[0], c); }
    }
  }

  lemma PerformedMask(d: Driver, a: Access, c: nat)
    requires Valid(d) && !IsTest(a) && a.c < CHANNEL_NUM && c < CHANNEL_NUM
    ensures Perform(d, a).regs.ch[c].cim
         == if a == DisableInterrupts(c) then d.regs.ch[c].cim - Named(0xFF)
            else if a.EnableInterrupts? && a.c == c then d.regs.ch[c].cim + Named(a.mask)
            else d.regs.ch[c].cim
  {
    if a.Write? { SetKeepsMask(d.regs, a.c, a.setter, c); }
  }

  lemma SetKeepsMask(r: Regs, k: nat, setter: Setter, c: nat)
    requires ValidRegs(r) && k < CHANNEL_NUM && c < CHANNEL_NUM
    ensures ValidRegs(Set(r, k, setter)) && Set(r, k, setter).ch[c].cim == r.ch[c].cim
  {
  }

  // ---- a started channel ---------------------------------------------------------------

  /** While a channel is started, freeing, setting its callback, preparing, configuring and
      starting it are refused and change neither the channel table nor, but for the status
      that configuring reads, a register. */
  lemma StartedIsLocked(d: Driver, dw: uint32, callback: nat, arg: nat,
                        p: Config, descCfg: uint32, descAddr: uint32, intEn: uint32)
    requires Valid(d) && Index(dw) < d.numChannels && d.channels[Index(dw)].state == Start
    ensures FreeChannel(d, dw) == (d, Busy)
    ensures SetCallback(d, dw, callback, arg) == (d, Busy)
    ensures PrepareChannel(d, dw) == (d, Busy)
    ensures StartTransfer(d, dw) == (d, Busy)
    ensures ConfigureTransfer(d, dw, p, descCfg, descAddr, intEn)
         == (d.(regs := ClearStatus(d.regs, Index(dw))), Busy)
  {
    var c := Index(dw);
    assert d.channels[c] == d.channels[c].(state := Start);
    assert d.channels == d.channels[c := d.channels[c]];
  }

  /** Among clients that follow the rule, a started channel leaves that state only by a
      completing handler run or by the state write of a stop, even in the middle of calls. */
  lemma LeavingStart(w: World, s: Step, t: Table, c: nat)
    requires Inv(w) && Enabled(w, s) && t.last < |t.entries| && c < w.d.numChannels && w.d.channels[c].state == Start
    ensures Shape(Do(w, s, t))
    ensures Do(w, s, t).d.channels[c].state
         == if CompletesStep(w, s, c) then Done
            else if Executes(w, s) && Performed(w, s) == WriteState(c, Halted) then Halted else Start
  {
    StateStep(w, s, t, c);
    assert !IsFree(w, c) && !Over(w, c);
    if s.Take? { assert PcInv(w, s.p); }
    if s.Exec? {
      assert PcInv(w, s.p) && Rightful(w, s.p, w.pc[s.p].todo[0]);
      assert WellFormed(w.d.numChannels, w.pc[s.p].todo[0]);
    }
  }

  ghost predicate NoneInTransfer(w: World)
    requires Shape(w)
  {
    forall c :: 0 <= c < w.d.numChannels ==> w.d.channels[c].state != InXfr
  }

  /** The state InXfr is never entered, whatever the clients do. */
  lemma {:induction false} InTransferIsUnreachable(w: World, ss: seq<Step>, t: Table)
    requires Shape(w) && t.last < |t.entries| && IsRun(w, ss, t) && NoneInTransfer(w)
    ensures NoneInTransfer(AfterRun(w, ss, t))
    decreases |ss|
  {
    if ss != [] {
      DoKeepsShape(w, ss[0], t);
      forall c | 0 <= c < w.d.numChannels ensures Do(w, ss[0], t).d.channels[c].state != InXfr {
        StateStep(w, ss[0], t, c);
      }
      InTransferIsUnreachable(Do(w, ss[0], t), ss[1..], t);
    }
  }

  /** Some handler run of the sequence completed channel c. */
  ghost predicate CompletedDuring(w: World, ss: seq<Step>, t: Table, c: nat)
    requires Shape(w) && t.last < |t.entries| && IsRun(w, ss, t)
    decreases |ss|
  {
    ss != [] && (CompletesStep(w, ss[0], c)
                 || (DoKeepsShape(w, ss[0], t); CompletedDuring(Do(w, ss[0], t), ss[1..], t, c)))
  }

  /** Some allocation of the sequence took channel c. */
  ghost predicate TakenDuring(w: World, ss: seq<Step>, t: Table, c: nat)
    requires Shape(w) && t.last < |t.entries| && IsRun(w, ss, t)
    decreases |ss|
  {
    ss != [] && ((ss[0].Take? && w.pc[ss[0].p].i == c)
                 || (DoKeepsShape(w, ss[0], t); TakenDuring(Do(w, ss[0], t), ss[1..], t, c)))
  }

  /** Once a channel is started, transfer-done answers OK only after a handler run that saw
      it complete, or after it was allocated anew; whatever the clients do meanwhile. */
  lemma {:induction false} DoneMeansCompleted(w: World, ss: seq<Step>, t: Table, c: nat)
    requires Shape(w) && t.last < |t.entries| && IsRun(w, ss, t)
    requires c < w.d.numChannels && w.d.channels[c].state in {Start, Halted, Free}
    ensures DoneStatus(AfterRun(w, ss, t).d.channels[c].state) == Ok
        ==> CompletedDuring(w, ss, t, c) || TakenDuring(w, ss, t, c)
    decreases |ss|
  {
    if ss != [] && !CompletedDuring(w, ss, t, c) && !TakenDuring(w, ss, t, c) {
      DoKeepsShape(w, ss[0], t);
      StateStep(w, ss[0], t, c);
      if ss[0].Exec? { assert WellFormed(w.d.numChannels, w.pc[ss[0].p].todo[0]); }
      DoneMeansCompleted(Do(w, ss[0], t), ss[1..], t, c);
    }
  }

  /** Whether the last event on channel c was a completion or a taking rather than another
      state write; ok is the answer before the first. */
  ghost predicate LastEventIsDone(w: World, ss: seq<Step>, t: Table, c: nat, ok: bool)
    requires Shape(w) && t.last < |t.entries| && IsRun(w, ss, t)
    decreases |ss|
  {
    if ss == [] then ok
    else
      DoKeepsShape(w, ss[0], t);
      LastEventIsDone(Do(w, ss[0], t), ss[1..], t, c,
                      if CompletesStep(w, ss[0], c) || (ss[0].Take? && w.pc[ss[0].p].i == c) then true
                      else if Executes(w, ss[0]) && Performed(w, ss[0]).WriteState? && Performed(w, ss[0]).c == c then false
                      else ok)
  }

  /** Over every run of any clients transfer-done answers OK exactly when the last event on
      the channel is a completion or a taking; a channel with no event keeps its answer. */
  lemma {:induction false} AnswersOkIff(w: World, ss: seq<Step>, t: Table, c: nat)
    requires Shape(w) && t.last < |t.entries| && IsRun(w, ss, t) && c < w.d.numChannels
    ensures DoneStatus(AfterRun(w, ss, t).d.channels[c].state) == Ok
        <==> LastEventIsDone(w, ss, t, c, DoneStatus(w.d.channels[c].state) == Ok)
    decreases |ss|
  {
    if ss != [] {
      DoKeepsShape(w, ss[0], t);
      StateStep(w, ss[0], t, c);
      if ss[0].Exec? { assert WellFormed(w.d.numChannels, w.pc[ss[0].p].todo[0]); }
      AnswersOkIff(Do(w, ss[0], t), ss[1..], t, c);
    }
  }

  /** Stopped, freed and given out again, a started channel answers OK without any
      completion: a client that still asks about its old transfer is told that it is done. */
  lemma ReallocationAnswersDone(d: Driver, dw: uint32, src: uint8, dst: uint8, t: Table)
    requires Valid(d) && t.last < |t.entries| && Supported(t.entries, t.last, src, dst)
    requires Index(dw) < d.numChannels && d.channels[Index(dw)].state == Start
    requires forall j :: 0 <= j < Index(dw) ==> d.channels[j].state != Free
    ensures var freed := FreeChannel(StopTransfer(d, dw).0, dw).0;
            var (e, k) := AllocateChannel(freed, t.entries, t.last, src, dst);
            k == Index(dw) && Valid(e) && IsTransferDone(e, dw).1 == Ok
  {
    var freed := FreeChannel(StopTransfer(d, dw).0, dw).0;
    assert freed.channels[Index(dw)].state == Free;
    assert FirstFree(freed, 0) == Index(dw);
  }

  /** Configuring a started channel is refused, but has already read its status. The next
      handler run leaves the channel started, which is what it would have done without the
      configure exactly when no completion was pending; a pending one is lost. */
  lemma RefusedConfigureLosesCompletion(d: Driver, dw: uint32, p: Config, descCfg: uint32, descAddr: uint32, intEn: uint32)
    requires Valid(d) && Index(dw) < d.numChannels && d.channels[Index(dw)].state == Start
    ensures var (e, rc) := ConfigureTransfer(d, dw, p, descCfg, descAddr, intEn);
            var c := Index(dw);
            && rc == Busy && Handler(e).0.channels[c].state == Start
            && (Handler(e).0.channels[c].state == Handler(d).0.channels[c].state
                <==> !BecomesDone(d, d.regs.gis, d.regs.gs, 0, c))
            && (BecomesDone(d, d.regs.gis, d.regs.gs, 0, c) ==> Handler(d).0.channels[c].state == Done)
  {
    var c := Index(dw);
    var e := ConfigureTransfer(d, dw, p, descCfg, descAddr, intEn).0;
    HandlerIsExact(d);
    HandlerIsExact(e);
    NothingCompletes(d.regs.ch[c].cim);
  }

  lemma NothingCompletes(cim: set<Irq>)
    ensures !Completes({}, cim)
  {
  }

  // ---- what is still to come ------------------------------------------------------------------

  predicate Revives(op: Op, c: nat) {
    (op.Configure? || op.Begin? || op.Release?) && Names(op, c)
  }

  /** An access that enables interrupts of channel c, or may lead to one. */
  predicate Unmasks(a: Access, c: nat) {
    (a.EnableInterrupts? && a.c == c) || (IsTest(a) && a.op.Configure? && Names(a.op, c))
  }

  /** An access that may take a stopped channel c out of its state. */
  predicate MayRevive(a: Access, c: nat) {
    Unmasks(a, c) || (a.WriteState? && a.c == c && a.s != Halted) || (IsTest(a) && Revives(a.op, c))
  }

  predicate PcUnmasks(pc: Pc, c: nat) {
    pc.Calling? && exists k :: 0 <= k < |pc.todo| && Unmasks(pc.todo[k], c)
  }

  predicate PcRevives(pc: Pc, c: nat) {
    (pc.Taking? && pc.i == c) || (pc.Calling? && exists k :: 0 <= k < |pc.todo| && MayRevive(pc.todo[k], c))
  }

  /** No call under way, and no allocation, is about to revive channel c. */
  ghost predicate Quiet(w: World, c: nat) {
    forall q :: 0 <= q < |w.pc| ==> !PcRevives(w.pc[q], c)
  }

  lemma WorkKinds(op: Op, c: nat)
    ensures forall k :: 0 <= k < |Work(op, false)| ==>
              var a := Work(op, false)[k];
              && !IsTest(a) && a.c == Index(op.dw)
              && (a.EnableInterrupts? ==> op.Configure?)
              && (a.WriteState? ==> op.Begin?)
  {
  }

  /** What follows a test unmasks or revives only what the test already could. */
  lemma AfterTestKinds(a: Access, s: ChannelState, c: nat)
    requires IsTest(a)
    ensures forall k :: 0 <= k < |AfterTest(a, s, false)| ==>
              var b := AfterTest(a, s, false)[k];
              (Unmasks(b, c) ==> Unmasks(a, c)) && (MayRevive(b, c) ==> MayRevive(a, c))
  {
    WorkKinds(a.op, c);
  }

  lemma EntryKinds(op: Op, c: nat)
    ensures forall k :: 0 <= k < |Entry(op)| ==>
              (Unmasks(Entry(op)[k], c) ==> op.Configure? && Names(op, c))
              && (MayRevive(Entry(op)[k], c) ==> Revives(op, c))
  {
  }

  predicate Enters(s: Step, c: nat) {
    s.Enter? && Names(s.op, c)
  }

  lemma NothingNewUnmasks(w: World, s: Step, t: Table, c: nat, q: nat)
    requires Shape(w) && Enabled(w, s) && t.last < |t.entries| && q < |w.pc| && !PcUnmasks(w.pc[q], c)
    requires !(Enters(s, c) && s.op.Configure?)
    ensures |Do(w, s, t).pc| == |w.pc| && !PcUnmasks(Do(w, s, t).pc[q], c)
  {
    DoKeepsShape(w, s, t);
    if s.Exec? && s.p == q {
      var a, rest := w.pc[q].todo[0], w.pc[q].todo[1..];
      if IsTest(a) { AfterTestKinds(a, w.d.channels[Index(a.op.dw)].state, c); }
      else { assert forall k :: 0 <= k < |rest| ==> rest[k] == w.pc[q].todo[k + 1]; }
    } else if s.Enter? && s.p == q {
      EntryKinds(s.op, c);
    }
  }

  lemma QuietStep(w: World, s: Step, t: Table, c: nat)
    requires Shape(w) && Enabled(w, s) && t.last < |t.entries| && c < w.d.numChannels
    requires Quiet(w, c) && w.d.channels[c].state != Free && !(Enters(s, c) && Revives(s.op, c))
    ensures Shape(Do(w, s, t)) && Quiet(Do(w, s, t), c)
  {
    DoKeepsShape(w, s, t);
    var v := Do(w, s, t);
    forall q | 0 <= q < |v.pc| ensures !PcRevives(v.pc[q], c) {
      assert !PcRevives(w.pc[q], c);
      if s.Exec? && s.p == q {
        var a, rest := w.pc[q].todo[0], w.pc[q].todo[1..];
        if IsTest(a) { AfterTestKinds(a, w.d.channels[Index(a.op.dw)].state, c); }
        else { assert forall k :: 0 <= k < |rest| ==> rest[k] == w.pc[q].todo[k + 1]; }
      } else if s.Enter? && s.p == q {
        EntryKinds(s.op, c);
      }
    }
  }

  /** A stop that nothing interrupts halts the channel and empties its mask. */
  lemma StopSilences(d: Driver, dw: uint32)
    requires Valid(d) && Index(dw) < d.numChannels
    ensures var (e, rc) := StopTransfer(d, dw);
            Valid(e) && e.channels[Index(dw)].state == Halted && e.regs.ch[Index(dw)].cim == {} && rc == Ok
  {
    AllNamed(d.regs.ch[Index(dw)].cim);
  }

  // ---- a stop, access by access -----------------------------------------------------------------

  ghost predicate Silenced(w: World, c: nat)
    requires Shape(w) && c < w.d.numChannels
  {
    w.d.channels[c].state == Halted && w.d.regs.ch[c].cim == {}
  }

  /** Steps of others and of the hardware while client p is inside its stop of channel c, and
      p's own accesses. */
  predicate During(s: Step, p: nat, c: nat) {
    !((s.Enter? || s.Obtain?) && s.p == p) && !(Enters(s, c) && s.op.Configure?)
  }

  /** Client p has written the state of the channel it stops; done says whether a handler run
      completed the channel since. */
  ghost predicate Stopping(w: World, p: nat, c: nat, done: bool) {
    && Inv(w) && p < |w.pc| && c < w.d.numChannels && Holds(w, p, c)
    && (w.pc[p] == Calling(StopPlan(c)[1..]) || w.pc[p] == Calling(StopPlan(c)[2..])
        || w.pc[p] == Calling(StopPlan(c)[3..]) || w.pc[p] == Idle)
    && (w.pc[p] == Calling(StopPlan(c)[3..]) || w.pc[p] == Idle ==> w.d.regs.ch[c].cim == {})
    && (forall q :: 0 <= q < |w.pc| && q != p ==> !PcUnmasks(w.pc[q], c))
    && w.d.channels[c].state == if done then Done else Halted
  }

  lemma PlanSuffixes(c: nat)
    ensures StopPlan(c)[1..] == [DisableTransfer(c), DisableInterrupts(c), ReadStatus(c)]
    ensures StopPlan(c)[2..] == [DisableInterrupts(c), ReadStatus(c)]
    ensures StopPlan(c)[3..] == [ReadStatus(c)]
    ensures StopPlan(c)[1..][1..] == StopPlan(c)[2..] && StopPlan(c)[2..][1..] == StopPlan(c)[3..] && StopPlan(c)[3..][1..] == []
  {
  }

  /** Where the stopping client stands after a step. */
  lemma StopProgress(w: World, s: Step, t: Table, p: nat, c: nat, done: bool)
    requires Stopping(w, p, c, done) && Enabled(w, s) && During(s, p, c) && t.last < |t.entries|
    ensures var v := Do(w, s, t);
            && Shape(v) && |v.pc| == |w.pc| && c < v.d.numChannels
            && (v.pc[p] == w.pc[p] || (s == Exec(p) && v.pc[p] == Resume(w.pc[p].todo[1..])))
            && (s == Exec(p) ==> v.pc[p] == Resume(w.pc[p].todo[1..]) && !IsTest(w.pc[p].todo[0]) && !w.pc[p].todo[0].WriteState?)
            && v.held[p] >= {c}
  {
    DoKeepsShape(w, s, t);
    PlanSuffixes(c);
    assert Holds(w, p, c);
  }

  lemma StoppingState(w: World, s: Step, t: Table, p: nat, c: nat, done: bool)
    requires Stopping(w, p, c, done) && Enabled(w, s) && During(s, p, c) && t.last < |t.entries|
    ensures Shape(Do(w, s, t))
    ensures Do(w, s, t).d.channels[c].state == if done || CompletesStep(w, s, c) then Done else Halted
  {
    StateStep(w, s, t, c);
    StopProgress(w, s, t, p, c, done);
    assert Holds(w, p, c) && !IsFree(w, c);
    if s.Take? { assert PcInv(w, s.p); }
    if s.Exec? && s.p != p {
      assert PcInv(w, s.p) && Rightful(w, s.p, w.pc[s.p].todo[0]);
      assert !Holds(w, s.p, c);
    }
  }

  lemma StoppingMask(w: World, s: Step, t: Table, p: nat, c: nat, done: bool)
    requires Stopping(w, p, c, done) && Enabled(w, s) && During(s, p, c) && t.last < |t.entries|
    ensures Shape(Do(w, s, t))
    ensures w.d.regs.ch[c].cim == {} || (w.pc[p] == Calling(StopPlan(c)[2..]) && s == Exec(p))
        ==> Do(w, s, t).d.regs.ch[c].cim == {}
  {
    MaskStep(w, s, t, c);
    PlanSuffixes(c);
    if s.Exec? && s.p != p {
      assert !PcUnmasks(w.pc[s.p], c);
      assert !Unmasks(w.pc[s.p].todo[0], c);
    }
  }

  lemma StoppingStep(w: World, s: Step, t: Table, p: nat, c: nat, done: bool)
    requires Stopping(w, p, c, done) && Enabled(w, s) && Follows(w, s) && During(s, p, c) && t.last < |t.entries|
    ensures Stopping(Do(w, s, t), p, c, done || CompletesStep(w, s, c))
  {
    DoKeepsInv(w, s, t);
    StopProgress(w, s, t, p, c, done);
    StoppingState(w, s, t, p, c, done);
    StoppingMask(w, s, t, p, c, done);
    PlanSuffixes(c);
    var v := Do(w, s, t);
    assert Holds(v, p, c);
    forall q | 0 <= q < |v.pc| && q != p ensures !PcUnmasks(v.pc[q], c) {
      NothingNewUnmasks(w, s, t, c, q);
    }
  }

  lemma {:induction false} StoppingRun(w: World, ss: seq<Step>, t: Table, p: nat, c: nat, done: bool)
    requires t.last < |t.entries| && Stopping(w, p, c, done) && IsRun(w, ss, t) && Obeys(w, ss, t)
    requires forall k :: 0 <= k < |ss| ==> During(ss[k], p, c)
    ensures Stopping(AfterRun(w, ss, t), p, c, done || CompletedDuring(w, ss, t, c))
    decreases |ss|
  {
    if ss != [] {
      DoKeepsShape(w, ss[0], t);
      StoppingStep(w, ss[0], t, p, c, done);
      assert forall k :: 0 <= k < |ss[1..]| ==> ss[1..][k] == ss[k + 1];
      StoppingRun(Do(w, ss[0], t), ss[1..], t, p, c, done || CompletesStep(w, ss[0], c));
    }
  }

  /** Client p is about to write HALTED, u is the world after that write, and nobody else
      configures the channel meanwhile: when p's stop is over the mask is empty, and the
      channel is DONE if a handler run completed it after the write and HALTED otherwise.
      Nothing under way revives it. */
  lemma {:induction false} StopOutcome(w: World, u: World, ss: seq<Step>, t: Table, p: nat, c: nat)
    requires Inv(w) && t.last < |t.entries| && p < |w.pc| && w.pc[p] == Calling(StopPlan(c)) && u == Do(w, Exec(p), t)
    requires forall q :: 0 <= q < |w.pc| && q != p ==> !PcUnmasks(w.pc[q], c)
    requires Shape(u) && IsRun(u, ss, t) && Obeys(u, ss, t) && forall k :: 0 <= k < |ss| ==> During(ss[k], p, c)
    requires p < |u.pc| && AfterRun(u, ss, t).pc[p] == Idle
    ensures var v := AfterRun(u, ss, t);
            && c < v.d.numChannels
            && v.d.regs.ch[c].cim == {}
            && v.d.channels[c].state == (if CompletedDuring(u, ss, t, c) then Done else Halted)
            && Quiet(v, c)
  {
    StopBegins(w, t, p, c);
    StoppingRun(u, ss, t, p, c, false);
    StoppedIsQuiet(AfterRun(u, ss, t), p, c, CompletedDuring(u, ss, t, c));
  }

  lemma StopBegins(w: World, t: Table, p: nat, c: nat)
    requires Inv(w) && t.last < |t.entries| && p < |w.pc| && w.pc[p] == Calling(StopPlan(c))
    requires forall q :: 0 <= q < |w.pc| && q != p ==> !PcUnmasks(w.pc[q], c)
    ensures Stopping(Do(w, Exec(p), t), p, c, false)
  {
    assert PcInv(w, p) && Rightful(w, p, w.pc[p].todo[0]) && WellFormed(w.d.numChannels, w.pc[p].todo[0]);
    PlanSuffixes(c);
    DoKeepsInv(w, Exec(p), t);
    assert Holds(Do(w, Exec(p), t), p, c);
  }

  lemma StoppedIsQuiet(v: World, p: nat, c: nat, done: bool)
    requires Stopping(v, p, c, done) && v.pc[p] == Idle
    ensures Quiet(v, c)
  {
    assert Holds(v, p, c) && !IsFree(v, c);
    forall q | 0 <= q < |v.pc| ensures !PcRevives(v.pc[q], c) {
      assert PcInv(v, q);
      if q != p && v.pc[q].Calling? {
        assert !PcUnmasks(v.pc[q], c);
        forall k | 0 <= k < |v.pc[q].todo| ensures !MayRevive(v.pc[q].todo[k], c) {
          assert Rightful(v, q, v.pc[q].todo[k]) && !Unmasks(v.pc[q].todo[k], c);
          assert !Holds(v, q, c);
        }
      }
    }
  }

  /** And that does happen: a completion pending at the write of HALTED, handled before the
      mask is emptied, ends the stop in DONE. */
  lemma StopMayEndDone(w: World, t: Table, p: nat, c: nat)
    requires Inv(w) && t.last < |t.entries| && p < |w.pc| && w.pc[p] == Calling(StopPlan(c))
    requires BecomesDone(w.d, w.d.regs.gis, w.d.regs.gs, 0, c)
    ensures var ss := [Exec(p), Interrupt] + [Exec(p), Exec(p), Exec(p)];
            IsRun(w, ss, t) && AfterRun(w, ss, t).pc[p] == Idle && AfterRun(w, ss, t).d.channels[c].state == Done
  {
    PlanSuffixes(c);
    DoKeepsShape(w, Exec(p), t);
    var w1 := Do(w, Exec(p), t);
    assert w1.d == SetState(w.d, c, Halted);
    assert BecomesDone(w1.d, w1.d.regs.gis, w1.d.regs.gs, 0, c);
    StateStep(w1, Interrupt, t, c);
    var w2 := Do(w1, Interrupt, t);
    DoKeepsShape(w1, Interrupt, t);
    OneMore(w1, Interrupt, [], t);
    assert [Interrupt] + [] == [Interrupt];
    OneMore(w, Exec(p), [Interrupt], t);
    assert [Exec(p)] + [Interrupt] == [Exec(p), Interrupt];
    StopTail(w2, t, p, c);
    RunConcat(w, [Exec(p), Interrupt], [Exec(p), Exec(p), Exec(p)], t);
  }

  lemma StopTail(w: World, t: Table, p: nat, c: nat)
    requires Shape(w) && t.last < |t.entries| && p < |w.pc| && w.pc[p] == Calling(StopPlan(c)[1..]) && c < w.d.numChannels
    ensures var ss := [Exec(p), Exec(p), Exec(p)];
            IsRun(w, ss, t) && AfterRun(w, ss, t).pc[p] == Idle
            && AfterRun(w, ss, t).d.channels[c].state == w.d.channels[c].state
  {
    PlanSuffixes(c);
    DoKeepsShape(w, Exec(p), t);
    var w1 := Do(w, Exec(p), t);
    StateStep(w, Exec(p), t, c);
    DoKeepsShape(w1, Exec(p), t);
    var w2 := Do(w1, Exec(p), t);
    StateStep(w1, Exec(p), t, c);
    StateStep(w2, Exec(p), t, c);
    ThreeSteps(w, Exec(p), Exec(p), Exec(p), t);
  }

  // ---- a stopped channel ------------------------------------------------------------------

  lemma EmptyMaskNeverCompletes(cis: set<Irq>)
    ensures !Completes(cis, {})
  {
  }

  /** A channel a stop left halted stays halted through any number of handler runs, hardware
      activity, prepares, stops and calls for other channels, by whomever, until somebody
      configures, starts or frees it. */
  lemma {:induction false} StoppedStaysHalted(w: World, ss: seq<Step>, t: Table, c: nat)
    requires Shape(w) && t.last < |t.entries| && IsRun(w, ss, t) && c < w.d.numChannels && Silenced(w, c) && Quiet(w, c)
    requires forall k :: 0 <= k < |ss| ==> !(Enters(ss[k], c) && Revives(ss[k].op, c))
    ensures Silenced(AfterRun(w, ss, t), c)
    decreases |ss|
  {
    if ss != [] {
      DoKeepsShape(w, ss[0], t);
      SilencedStep(w, ss[0], t, c);
      QuietStep(w, ss[0], t, c);
      assert forall k :: 0 <= k < |ss[1..]| ==> ss[1..][k] == ss[k + 1];
      StoppedStaysHalted(Do(w, ss[0], t), ss[1..], t, c);
    }
  }

  lemma SilencedStep(w: World, s: Step, t: Table, c: nat)
    requires Shape(w) && Enabled(w, s) && t.last < |t.entries| && c < w.d.numChannels && Silenced(w, c) && Quiet(w, c)
    ensures Shape(Do(w, s, t)) && c < Do(w, s, t).d.numChannels && Silenced(Do(w, s, t), c)
  {
    DoKeepsShape(w, s, t);
    StateStep(w, s, t, c);
    MaskStep(w, s, t, c);
    EmptyMaskNeverCompletes(w.d.regs.ch[c].cis);
    if s.Exec? || s.Take? {
      assert !PcRevives(w.pc[s.p], c);
      if s.Exec? { assert !MayRevive(w.pc[s.p].todo[0], c); }
    }
  }
}
