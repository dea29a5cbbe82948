/** A call whose accesses nothing interrupts does what XdmadModel says of it in one step. */
module XdmadRefinement {
  import opened UInt
  import opened XdmacModel
  import opened XdmadModel
  import opened XdmadSteps

  /** The call as one step. */
  function CallResult(d: Driver, op: Op): Driver
    requires Valid(d)
  {
    match op
    case Release(dw) => FreeChannel(d, dw).0
    case Callback(dw, callback, arg) => SetCallback(d, dw, callback, arg).0
    case Prepare(dw) => PrepareChannel(d, dw).0
    case Configure(dw, p, descCfg, descAddr, intEn) => ConfigureTransfer(d, dw, p, descCfg, descAddr, intEn).0
    case Begin(dw) => StartTransfer(d, dw).0
    case Stop(dw) => StopTransfer(d, dw).0
  }

  // ---- running on to the end of a call --------------------------------------------------

  function Weight(a: Access): nat {
    if a.FirstTest? then 100 else if a.SecondTest? then 50 else 1
  }

  function Rank(todo: seq<Access>): nat {
    if todo == [] then 0 else Weight(todo[0]) + Rank(todo[1..])
  }

  predicate Plain(todo: seq<Access>) {
    forall k :: 0 <= k < |todo| ==> !IsTest(todo[k])
  }

  lemma {:induction false} PlainRank(todo: seq<Access>)
    requires Plain(todo)
    ensures Rank(todo) == |todo|
  {
    if todo != [] { PlainRank(todo[1..]); }
  }

  lemma AfterTestRank(a: Access, s: ChannelState, polling: bool)
    requires IsTest(a)
    ensures Rank(AfterTest(a, s, polling)) < Weight(a)
  {
    var rest := AfterTest(a, s, polling);
    WorkIsPlain(a.op, polling);
    if Plain(rest) { PlainRank(rest); } else { assert rest == [SecondTest(a.op)] && rest[1..] == []; }
  }

  lemma WorkIsPlain(op: Op, polling: bool)
    ensures Plain(Work(op, polling)) && |Work(op, polling)| <= 11
  {
  }

  function Todo(pc: Pc): seq<Access> {
    if pc.Calling? then pc.todo else []
  }

  lemma ExecuteRank(w: World, p: nat)
    requires Shape(w) && p < |w.pc| && w.pc[p].Calling?
    ensures Rank(Todo(Execute(w, p).pc[p])) < Rank(Todo(w.pc[p]))
  {
    var a := w.pc[p].todo[0];
    if IsTest(a) {
      assert WellFormed(w.d.numChannels, a);
      AfterTestRank(a, w.d.channels[Index(a.op.dw)].state, w.d.polling);
    }
  }

  /** Client p's call from where it stands to its end, with nothing in between. */
  ghost function Alone(w: World, p: nat): (v: World)
    requires Shape(w) && p < |w.pc|
    ensures Shape(v) && p < |v.pc| && !v.pc[p].Calling?
    decreases Rank(Todo(w.pc[p]))
  {
    if !w.pc[p].Calling? then w
    else
      ExecuteKeepsShape(w, p);
      ExecuteRank(w, p);
      Alone(Execute(w, p), p)
  }

  // ---- accesses in a row ------------------------------------------------------------------

  ghost predicate Regular(todo: seq<Access>) {
    Plain(todo) && forall k :: 0 <= k < |todo| ==> todo[k].c < CHANNEL_NUM
  }

  ghost function PerformAll(d: Driver, todo: seq<Access>): (e: Driver)
    requires Valid(d) && Regular(todo)
    ensures Valid(e)
    decreases |todo|
  {
    if todo == [] then d else PerformAll(Perform(d, todo[0]), todo[1..])
  }

  lemma {:induction false} AlonePlain(w: World, p: nat)
    requires Shape(w) && p < |w.pc| && Regular(Todo(w.pc[p]))
    ensures Alone(w, p).d == PerformAll(w.d, Todo(w.pc[p]))
    decreases Rank(Todo(w.pc[p]))
  {
    if w.pc[p].Calling? {
      var todo := w.pc[p].todo;
      ExecuteKeepsShape(w, p);
      ExecuteRank(w, p);
      assert forall k :: 0 <= k < |todo[1..]| ==> todo[1..][k] == todo[k + 1];
      assert !IsTest(todo[0]);
      assert Todo(Execute(w, p).pc[p]) == todo[1..];
      AlonePlain(Execute(w, p), p);
    }
  }

  predicate OnChannelRegisters(a: Access) {
    OnRegisters(a) && a.c < CHANNEL_NUM
  }

  ghost predicate RegistersOnly(todo: seq<Access>) {
    forall k :: 0 <= k < |todo| ==> OnChannelRegisters(todo[k])
  }

  ghost function PerformAllRegs(r: Regs, todo: seq<Access>): (q: Regs)
    requires ValidRegs(r) && RegistersOnly(todo)
    ensures ValidRegs(q)
    decreases |todo|
  {
    if todo == [] then r
    else
      PerformedRegsValid(r, todo[0]);
      PerformAllRegs(PerformRegs(r, todo[0]), todo[1..])
  }

  lemma {:induction false} RegistersPart(d: Driver, todo: seq<Access>)
    requires Valid(d) && RegistersOnly(todo)
    ensures Regular(todo) && PerformAll(d, todo) == d.(regs := PerformAllRegs(d.regs, todo))
    decreases |todo|
  {
    if todo != [] {
      assert forall k :: 0 <= k < |todo[1..]| ==> todo[1..][k] == todo[k + 1];
      RegistersPart(Perform(d, todo[0]), todo[1..]);
    }
  }

  lemma Join(r: Regs, x: seq<Access>, y: seq<Access>, z: seq<Access>, r1: Regs, r2: Regs, r3: Regs)
    requires ValidRegs(r) && ValidRegs(r1) && ValidRegs(r2) && RegistersOnly(x) && RegistersOnly(y) && RegistersOnly(z)
    requires PerformAllRegs(r, x) == r1 && PerformAllRegs(r1, y) == r2 && PerformAllRegs(r2, z) == r3
    ensures RegistersOnly(x + y + z) && PerformAllRegs(r, x + y + z) == r3
  {
    RegsConcat(r, x, y);
    RegsConcat(r, x + y, z);
  }

  lemma {:induction false} RegsConcat(r: Regs, a: seq<Access>, b: seq<Access>)
    requires ValidRegs(r) && RegistersOnly(a) && RegistersOnly(b)
    ensures RegistersOnly(a + b) && PerformAllRegs(r, a + b) == PerformAllRegs(PerformAllRegs(r, a), b)
    decreases |a|
  {
    assert RegistersOnly(a + b);
    if a == [] {
      assert a + b == b;
    } else {
      assert (a + b)[1..] == a[1..] + b;
      assert forall k :: 0 <= k < |a[1..]| ==> a[1..][k] == a[k + 1];
      PerformedRegsValid(r, a[0]);
      RegsConcat(PerformRegs(r, a[0]), a[1..], b);
    }
  }

  lemma RegsOne(r: Regs, a: Access)
    requires ValidRegs(r) && OnChannelRegisters(a)
    ensures RegistersOnly([a]) && PerformAllRegs(r, [a]) == PerformRegs(r, a)
  {
    PerformedRegsValid(r, a);
    assert [a][1..] == [];
  }

  lemma RegsTwo(r: Regs, a: Access, b: Access)
    requires ValidRegs(r) && OnChannelRegisters(a) && OnChannelRegisters(b)
    ensures RegistersOnly([a, b]) && ValidRegs(PerformRegs(r, a))
    ensures PerformAllRegs(r, [a, b]) == PerformRegs(PerformRegs(r, a), b)
  {
    PerformedRegsValid(r, a);
    RegsOne(r, a);
    RegsOne(PerformRegs(r, a), b);
    RegsConcat(r, [a], [b]);
    assert [a, b] == [a] + [b];
  }

  lemma RegsThree(r: Regs, a: Access, b: Access, c: Access)
    requires ValidRegs(r) && OnChannelRegisters(a) && OnChannelRegisters(b) && OnChannelRegisters(c)
    ensures RegistersOnly([a, b, c])
    ensures ValidRegs(PerformRegs(r, a)) && ValidRegs(PerformRegs(PerformRegs(r, a), b))
    ensures PerformAllRegs(r, [a, b, c]) == PerformRegs(PerformRegs(PerformRegs(r, a), b), c)
  {
    RegsTwo(r, a, b);
    var q := PerformRegs(PerformRegs(r, a), b);
    RegsOne(q, c);
    RegsConcat(r, [a, b], [c]);
    assert [a, b, c] == [a, b] + [c];
  }

  // ---- the register part of preparing and configuring ---------------------------------------

  lemma Addresses(r: Regs, c: nat, sa: uint32, da: uint32)
    requires ValidRegs(r) && c < CHANNEL_NUM
    ensures var todo := [Write(c, SourceAddr(sa)), Write(c, DestinationAddr(da))];
            RegistersOnly(todo) && PerformAllRegs(r, todo) == SetDestinationAddr(SetSourceAddr(r, c, sa), c, da)
  {
    RegsTwo(r, Write(c, SourceAddr(sa)), Write(c, DestinationAddr(da)));
  }

  lemma Lengths(r: Regs, c: nat, ublen: uint32, blen: uint32)
    requires ValidRegs(r) && c < CHANNEL_NUM
    ensures var todo := [Write(c, MicroblockControl(ublen)), Write(c, BlockControl(blen))];
            RegistersOnly(todo) && PerformAllRegs(r, todo) == SetBlockControl(SetMicroblockControl(r, c, ublen), c, blen)
  {
    RegsTwo(r, Write(c, MicroblockControl(ublen)), Write(c, BlockControl(blen)));
  }

  lemma BlockAndConfig(r: Regs, c: nat, blen: uint32, config: uint32)
    requires ValidRegs(r) && c < CHANNEL_NUM
    ensures var todo := [Write(c, BlockControl(blen)), Write(c, ChannelConfig(config))];
            RegistersOnly(todo) && PerformAllRegs(r, todo) == SetChannelConfig(SetBlockControl(r, c, blen), c, config)
  {
    RegsTwo(r, Write(c, BlockControl(blen)), Write(c, ChannelConfig(config)));
  }

  lemma FirstStrides(r: Regs, c: nat, ds: uint32, sus: uint32)
    requires ValidRegs(r) && c < CHANNEL_NUM
    ensures var todo := [Write(c, DataStride(ds)), Write(c, SourceStride(sus))];
            RegistersOnly(todo) && PerformAllRegs(r, todo) == SetSourceMicroBlockStride(SetDataStrideMemPattern(r, c, ds), c, sus)
  {
    var a, b := Write(c, DataStride(ds)), Write(c, SourceStride(sus));
    RegsTwo(r, a, b);
    var r1 := PerformRegs(r, a);
    assert r1 == SetDataStrideMemPattern(r, c, ds);
    assert PerformRegs(r1, b) == SetSourceMicroBlockStride(r1, c, sus);
  }

  lemma LastStride(r: Regs, c: nat, dus: uint32, config: uint32)
    requires ValidRegs(r) && c < CHANNEL_NUM
    ensures var todo := [Write(c, DestinationStride(dus)), Write(c, ChannelConfig(config))];
            RegistersOnly(todo) && PerformAllRegs(r, todo) == SetChannelConfig(SetDestinationMicroBlockStride(r, c, dus), c, config)
  {
    var a, b := Write(c, DestinationStride(dus)), Write(c, ChannelConfig(config));
    RegsTwo(r, a, b);
    var r1 := PerformRegs(r, a);
    assert r1 == SetDestinationMicroBlockStride(r, c, dus);
    assert PerformRegs(r1, b) == SetChannelConfig(r1, c, config);
  }

  lemma ClearAndMute(r: Regs, c: nat)
    requires ValidRegs(r) && c < CHANNEL_NUM
    ensures var todo := [ReadStatus(c), DisableGlobal(c)];
            RegistersOnly(todo) && PerformAllRegs(r, todo) == DisableGIt(ClearStatus(r, c), c)
  {
    RegsTwo(r, ReadStatus(c), DisableGlobal(c));
  }

  lemma DisableBoth(r: Regs, c: nat)
    requires ValidRegs(r) && c < CHANNEL_NUM
    ensures var todo := [DisableInterrupts(c), DisableTransfer(c)];
            RegistersOnly(todo) && PerformAllRegs(r, todo) == DisableChannel(DisableChannelIt(r, c, 0xFF), c)
  {
    RegsTwo(r, DisableInterrupts(c), DisableTransfer(c));
  }

  lemma Describing(r: Regs, c: nat, addr: uint32, control: uint32)
    requires ValidRegs(r) && c < CHANNEL_NUM
    ensures var todo := [Write(c, DescriptorAddr(addr)), Write(c, DescriptorControl(control))];
            RegistersOnly(todo) && PerformAllRegs(r, todo) == SetDescriptorControl(SetDescriptorAddr(r, c, addr, 0), c, control)
  {
    RegsTwo(r, Write(c, DescriptorAddr(addr)), Write(c, DescriptorControl(control)));
  }

  lemma Silencing(r: Regs, c: nat)
    requires ValidRegs(r) && c < CHANNEL_NUM
    ensures var todo := [ReadStatus(c), DisableGlobal(c)] + [DisableInterrupts(c), DisableTransfer(c)];
            RegistersOnly(todo)
            && PerformAllRegs(r, todo) == DisableChannel(DisableChannelIt(DisableGIt(ClearStatus(r, c), c), c, 0xFF), c)
  {
    var x, y := [ReadStatus(c), DisableGlobal(c)], [DisableInterrupts(c), DisableTransfer(c)];
    ClearAndMute(r, c);
    var r1 := PerformAllRegs(r, x);
    DisableBoth(r1, c);
    RegsConcat(r, x, y);
  }

  lemma Resetting(r: Regs, c: nat)
    requires ValidRegs(r) && c < CHANNEL_NUM
    ensures var todo := [Write(c, SourceAddr(0)), Write(c, DestinationAddr(0))] + [Write(c, BlockControl(0)), Write(c, ChannelConfig(0x20))];
            RegistersOnly(todo)
            && PerformAllRegs(r, todo) == SetChannelConfig(SetBlockControl(SetDestinationAddr(SetSourceAddr(r, c, 0), c, 0), c, 0), c, 0x20)
  {
    var x, y := [Write(c, SourceAddr(0)), Write(c, DestinationAddr(0))], [Write(c, BlockControl(0)), Write(c, ChannelConfig(0x20))];
    Addresses(r, c, 0, 0);
    var r1 := PerformAllRegs(r, x);
    BlockAndConfig(r1, c, 0, 0x20);
    RegsConcat(r, x, y);
  }

  lemma Placing(r: Regs, c: nat, p: Config)
    requires ValidRegs(r) && c < CHANNEL_NUM
    ensures var todo := [Write(c, SourceAddr(p.sa)), Write(c, DestinationAddr(p.da))] + [Write(c, MicroblockControl(p.ubc)), Write(c, BlockControl(p.bc))];
            RegistersOnly(todo)
            && PerformAllRegs(r, todo) == SetBlockControl(SetMicroblockControl(SetDestinationAddr(SetSourceAddr(r, c, p.sa), c, p.da), c, p.ubc), c, p.bc)
  {
    var x, y := [Write(c, SourceAddr(p.sa)), Write(c, DestinationAddr(p.da))], [Write(c, MicroblockControl(p.ubc)), Write(c, BlockControl(p.bc))];
    Addresses(r, c, p.sa, p.da);
    var r1 := PerformAllRegs(r, x);
    Lengths(r1, c, p.ubc, p.bc);
    RegsConcat(r, x, y);
  }

  lemma Striding(r: Regs, c: nat, p: Config)
    requires ValidRegs(r) && c < CHANNEL_NUM
    ensures var todo := [Write(c, DataStride(p.ds)), Write(c, SourceStride(p.sus))] + [Write(c, DestinationStride(p.dus)), Write(c, ChannelConfig(p.cfg))];
            RegistersOnly(todo)
            && PerformAllRegs(r, todo) == SetChannelConfig(SetDestinationMicroBlockStride(SetSourceMicroBlockStride(SetDataStrideMemPattern(r, c, p.ds), c, p.sus), c, p.dus), c, p.cfg)
  {
    var x, y := [Write(c, DataStride(p.ds)), Write(c, SourceStride(p.sus))], [Write(c, DestinationStride(p.dus)), Write(c, ChannelConfig(p.cfg))];
    FirstStrides(r, c, p.ds, p.sus);
    var r1 := PerformAllRegs(r, x);
    LastStride(r1, c, p.dus, p.cfg);
    RegsConcat(r, x, y);
  }

  lemma Ending(r: Regs, c: nat, intEn: uint32)
    requires ValidRegs(r) && c < CHANNEL_NUM
    ensures var todo := [Write(c, DescriptorAddr(0)), Write(c, DescriptorControl(0))] + [EnableInterrupts(c, intEn)];
            RegistersOnly(todo)
            && PerformAllRegs(r, todo) == EnableChannelIt(SetDescriptorControl(SetDescriptorAddr(r, c, 0, 0), c, 0), c, intEn)
  {
    Describing(r, c, 0, 0);
    var x, e := [Write(c, DescriptorAddr(0)), Write(c, DescriptorControl(0))], EnableInterrupts(c, intEn);
    RegsOne(PerformAllRegs(r, x), e);
    RegsConcat(r, x, [e]);
  }

  lemma PrepareWork(r: Regs, dw: uint32)
    requires ValidRegs(r) && Index(dw) < CHANNEL_NUM
    ensures RegistersOnly(Work(Prepare(dw), false))
    ensures PerformAllRegs(r, Work(Prepare(dw), false)) == PrepareRegs(r, Index(dw))
  {
    var c := Index(dw);
    var x := [ReadStatus(c), DisableGlobal(c)] + [DisableInterrupts(c), DisableTransfer(c)];
    var y := [Write(c, SourceAddr(0)), Write(c, DestinationAddr(0))] + [Write(c, BlockControl(0)), Write(c, ChannelConfig(0x20))];
    var z := [Write(c, DescriptorAddr(0)), Write(c, DescriptorControl(0))];
    Silencing(r, c);
    var r1 := PerformAllRegs(r, x);
    Resetting(r1, c);
    var r2 := PerformAllRegs(r1, y);
    Describing(r2, c, 0, 0);
    Join(r, x, y, z, r1, r2, PerformAllRegs(r2, z));
    assert Work(Prepare(dw), false) == x + y + z;
  }

  lemma SingleWorkRegs(r: Regs, c: nat, p: Config, intEn: uint32)
    requires ValidRegs(r) && c < CHANNEL_NUM
    ensures RegistersOnly(SingleWork(c, p, intEn))
    ensures PerformAllRegs(r, SingleWork(c, p, intEn)) == ConfigureSingleRegs(r, c, p, intEn)
  {
    var x := [Write(c, SourceAddr(p.sa)), Write(c, DestinationAddr(p.da))] + [Write(c, MicroblockControl(p.ubc)), Write(c, BlockControl(p.bc))];
    var y := [Write(c, DataStride(p.ds)), Write(c, SourceStride(p.sus))] + [Write(c, DestinationStride(p.dus)), Write(c, ChannelConfig(p.cfg))];
    var z := [Write(c, DescriptorAddr(0)), Write(c, DescriptorControl(0))] + [EnableInterrupts(c, intEn)];
    Placing(r, c, p);
    var r1 := PerformAllRegs(r, x);
    Striding(r1, c, p);
    var r2 := PerformAllRegs(r1, y);
    Ending(r2, c, intEn);
    Join(r, x, y, z, r1, r2, PerformAllRegs(r2, z));
  }

  /** What the descriptor's view leaves to the parameters. */
  lemma Viewing(r: Regs, c: nat, p: Config, view: nat) returns (todo: seq<Access>)
    requires ValidRegs(r) && c < CHANNEL_NUM
    ensures todo == if view == 0
                    then [Write(c, ChannelConfig(p.cfg)), Write(c, SourceAddr(p.sa)), Write(c, DestinationAddr(p.da))]
                    else if view == 1 then [Write(c, ChannelConfig(p.cfg))] else []
    ensures RegistersOnly(todo)
    ensures PerformAllRegs(r, todo)
         == var r1 := if view == 0 then SetDestinationAddr(SetSourceAddr(SetChannelConfig(r, c, p.cfg), c, p.sa), c, p.da) else r;
            if view == 1 then SetChannelConfig(r1, c, p.cfg) else r1
  {
    if view == 0 {
      RegsThree(r, Write(c, ChannelConfig(p.cfg)), Write(c, SourceAddr(p.sa)), Write(c, DestinationAddr(p.da)));
      todo := [Write(c, ChannelConfig(p.cfg)), Write(c, SourceAddr(p.sa)), Write(c, DestinationAddr(p.da))];
    } else if view == 1 {
      RegsOne(r, Write(c, ChannelConfig(p.cfg)));
      todo := [Write(c, ChannelConfig(p.cfg))];
    } else {
      todo := [];
    }
  }

  function ListEnd(c: nat, descCfg: uint32, descAddr: uint32, intEn: uint32): seq<Access> {
    [Write(c, DescriptorAddr(descAddr)), Write(c, DescriptorControl(descCfg)),
     DisableInterrupts(c), EnableInterrupts(c, intEn)]
  }

  lemma ListTail(r: Regs, c: nat, descCfg: uint32, descAddr: uint32, intEn: uint32)
    requires ValidRegs(r) && c < CHANNEL_NUM
    ensures RegistersOnly(ListEnd(c, descCfg, descAddr, intEn))
    ensures PerformAllRegs(r, ListEnd(c, descCfg, descAddr, intEn))
         == EnableChannelIt(DisableChannelIt(SetDescriptorControl(SetDescriptorAddr(r, c, descAddr, 0), c, descCfg), c, 0xFF), c, intEn)
  {
    var x := [Write(c, DescriptorAddr(descAddr)), Write(c, DescriptorControl(descCfg))];
    var y := [DisableInterrupts(c), EnableInterrupts(c, intEn)];
    Describing(r, c, descAddr, descCfg);
    RegsTwo(PerformAllRegs(r, x), y[0], y[1]);
    RegsConcat(r, x, y);
    assert ListEnd(c, descCfg, descAddr, intEn) == x + y;
  }

  lemma ListWorkRegs(r: Regs, c: nat, p: Config, descCfg: uint32, descAddr: uint32, intEn: uint32)
    requires ValidRegs(r) && c < CHANNEL_NUM
    ensures RegistersOnly(ListWork(c, p, descCfg, descAddr, intEn))
    ensures PerformAllRegs(r, ListWork(c, p, descCfg, descAddr, intEn)) == ConfigureListRegs(r, c, p, descCfg, descAddr, intEn)
  {
    var x := Viewing(r, c, p, View(descCfg));
    ListTail(PerformAllRegs(r, x), c, descCfg, descAddr, intEn);
    RegsConcat(r, x, ListEnd(c, descCfg, descAddr, intEn));
    assert ListWork(c, p, descCfg, descAddr, intEn) == x + ListEnd(c, descCfg, descAddr, intEn);
  }

  // ---- each call --------------------------------------------------------------------------------

  lemma CallbackWork(d: Driver, c: nat, callback: nat, arg: nat)
    requires Valid(d) && c < CHANNEL_NUM
    ensures var todo := [WriteCallback(c, callback), WriteArgument(c, arg)];
            Regular(todo) && PerformAll(d, todo) == d.(channels := d.channels[c := d.channels[c].(callback := callback, arg := arg)])
  {
    var todo := [WriteCallback(c, callback), WriteArgument(c, arg)];
    var d1 := Perform(d, todo[0]);
    assert todo[1..] == [todo[1]] && todo[1..][1..] == [];
    assert PerformAll(d1, [todo[1]]) == Perform(d1, todo[1]);
    assert Perform(d1, todo[1]).channels == d.channels[c := d.channels[c].(callback := callback, arg := arg)];
  }

  lemma BeginWork(d: Driver, c: nat)
    requires Valid(d) && c < CHANNEL_NUM
    ensures var todo := [WriteState(c, Start), EnableTransfer(c), EnableGlobal(c)];
            Regular(todo) && PerformAll(d, todo) == SetState(d, c, Start).(regs := EnableGIt(EnableChannel(d.regs, c), c))
  {
    var todo := [WriteState(c, Start), EnableTransfer(c), EnableGlobal(c)];
    var d1 := Perform(d, todo[0]);
    assert todo[1..] == [todo[1], todo[2]];
    RegsTwo(d1.regs, todo[1], todo[2]);
    RegistersPart(d1, [todo[1], todo[2]]);
  }

  /** From its second test on. */
  lemma WorkRefines(d: Driver, op: Op)
    requires Valid(d) && !d.polling && Index(op.dw) < d.numChannels && !op.Stop? && !op.Release?
    requires d.channels[Index(op.dw)].state !in {Free, Start} && !(op.Prepare? && d.channels[Index(op.dw)].state == InXfr)
    requires op.Configure? ==> d.regs == ClearStatus(d.regs, Index(op.dw))
    ensures Regular(Work(op, false)) && PerformAll(d, Work(op, false)) == CallResult(d, op)
  {
    var c := Index(op.dw);
    match op
    case Prepare(dw) =>
      PrepareWork(d.regs, dw);
      RegistersPart(d, Work(op, false));
    case Configure(dw, p, descCfg, descAddr, intEn) =>
      ConfigureWork(d, op);
    case Callback(_, callback, arg) => CallbackWork(d, c, callback, arg);
    case Begin(_) =>
      BeginWork(d, c);
      assert Work(op, false) == [WriteState(c, Start), EnableTransfer(c), EnableGlobal(c)];
  }

  lemma ConfigureWork(d: Driver, op: Op)
    requires Valid(d) && op.Configure? && Index(op.dw) < d.numChannels
    requires d.channels[Index(op.dw)].state !in {Free, Start} && d.regs == ClearStatus(d.regs, Index(op.dw))
    ensures Regular(Work(op, false)) && PerformAll(d, Work(op, false)) == CallResult(d, op)
  {
    var c := Index(op.dw);
    if FetchesDescriptors(op.descCfg) {
      ListWorkRegs(d.regs, c, op.p, op.descCfg, op.descAddr, op.intEn);
      RegistersPart(d, ListWork(c, op.p, op.descCfg, op.descAddr, op.intEn));
    } else {
      SingleWorkRegs(d.regs, c, op.p, op.intEn);
      RegistersPart(d, SingleWork(c, op.p, op.intEn));
    }
  }

  lemma SecondTestRefines(w: World, p: nat, op: Op)
    requires Shape(w) && p < |w.pc| && w.pc[p] == Calling([SecondTest(op)]) && !op.Stop? && !op.Release?
    requires Index(op.dw) < w.d.numChannels && w.d.channels[Index(op.dw)].state != Free
    requires op.Configure? ==> w.d.regs == ClearStatus(w.d.regs, Index(op.dw))
    ensures Alone(w, p).d == CallResult(w.d, op)
  {
    var s := w.d.channels[Index(op.dw)].state;
    ExecuteKeepsShape(w, p);
    var v := Execute(w, p);
    assert Alone(w, p) == Alone(v, p);
    if s == Start || (op.Prepare? && s == InXfr) {
      assert Alone(v, p) == v;
    } else {
      WorkRefines(w.d, op);
      assert Todo(v.pc[p]) == Work(op, false);
      AlonePlain(v, p);
    }
  }

  lemma FirstTestRefines(w: World, p: nat, op: Op)
    requires Shape(w) && p < |w.pc| && w.pc[p] == Calling([FirstTest(op)]) && !op.Stop?
    requires Index(op.dw) < w.d.numChannels
    requires op.Configure? ==> w.d.regs == ClearStatus(w.d.regs, Index(op.dw))
    ensures Alone(w, p).d == CallResult(w.d, op)
  {
    var c := Index(op.dw);
    var s := w.d.channels[c].state;
    ExecuteKeepsShape(w, p);
    var v := Execute(w, p);
    assert Alone(w, p) == Alone(v, p);
    if op.Release? {
      if s in {Done, Halted} {
        assert [WriteState(c, Free)][1..] == [];
        AlonePlain(v, p);
        assert PerformAll(v.d, [WriteState(c, Free)]) == SetState(v.d, c, Free);
      } else {
        assert w.d.channels == w.d.channels[c := w.d.channels[c].(state := s)];
      }
    } else if s != Free {
      SecondTestRefines(v, p, op);
    }
  }

  lemma StopWork(d: Driver, c: nat)
    requires Valid(d) && c < CHANNEL_NUM
    ensures Regular(StopPlan(c))
    ensures PerformAll(d, StopPlan(c))
         == SetState(d, c, Halted).(regs := ClearStatus(DisableChannelIt(DisableChannel(d.regs, c), c, 0xFF), c))
  {
    var todo := StopPlan(c);
    var d1 := Perform(d, todo[0]);
    assert todo[1..] == [todo[1], todo[2], todo[3]];
    RegsThree(d1.regs, todo[1], todo[2], todo[3]);
    RegistersPart(d1, [todo[1], todo[2], todo[3]]);
  }

  lemma StopRefines(w: World, p: nat, dw: uint32)
    requires Shape(w) && p < |w.pc| && w.pc[p] == Calling(StopPlan(Index(dw))) && Index(dw) < w.d.numChannels
    ensures Alone(w, p).d == StopTransfer(w.d, dw).0
  {
    StopWork(w.d, Index(dw));
    AlonePlain(w, p);
  }

  lemma ClearTwice(r: Regs, c: nat)
    requires ValidRegs(r) && c < CHANNEL_NUM
    ensures ClearStatus(ClearStatus(r, c), c) == ClearStatus(r, c)
  {
  }

  /** Every call entered and left to itself leaves the driver as the call does in one step. */
  lemma CallAlone(w: World, p: nat, op: Op, t: Table)
    requires Shape(w) && Enabled(w, Enter(p, op)) && t.last < |t.entries|
    ensures Shape(Do(w, Enter(p, op), t))
    ensures Alone(Do(w, Enter(p, op), t), p).d == CallResult(w.d, op)
  {
    DoKeepsShape(w, Enter(p, op), t);
    var c := Index(op.dw);
    if c < w.d.numChannels {
      var v := Do(w, Enter(p, op), t);
      if op.Stop? {
        StopRefines(v, p, op.dw);
      } else if op.Configure? {
        ExecuteKeepsShape(v, p);
        var u := Execute(v, p);
        assert Entry(op)[1..] == [FirstTest(op)];
        ClearTwice(w.d.regs, c);
        FirstTestRefines(u, p, op);
        assert Alone(v, p) == Alone(u, p);
      } else {
        FirstTestRefines(v, p, op);
      }
    }
  }

  // ---- allocation --------------------------------------------------------------------------------

  /** Client p's allocation from where it stands until it leaves, with nothing in between. */
  ghost function ScanAlone(w: World, p: nat, t: Table): (v: World)
    requires Shape(w) && t.last < |t.entries| && p < |w.pc| && Inside(w.pc[p])
    ensures Shape(v) && p < |v.pc| && v.pc[p].Leaving?
    decreases match w.pc[p] case Scanning(i, _, _) => w.d.numChannels + 3 - i case Taking(_, _, _) => 2 case Filling(_, _, _) => 1 case _ => 0
  {
    assert PcShape(w.d.numChannels, w.pc[p]);
    if w.pc[p].Leaving? then w
    else
      var s := if w.pc[p].Scanning? then Test(p) else if w.pc[p].Taking? then Take(p) else Fill(p);
      DoKeepsShape(w, s, t);
      ScanAlone(Do(w, s, t), p, t)
  }

  lemma {:induction false} ScanRefines(w: World, p: nat, t: Table)
    requires Shape(w) && t.last < |t.entries| && p < |w.pc| && w.pc[p].Scanning? && w.pc[p].i <= w.d.numChannels
    ensures var k := FirstFree(w.d, w.pc[p].i);
            var v := ScanAlone(w, p, t);
            if k == w.d.numChannels then v.d == w.d && v.pc[p] == Leaving(ALLOC_FAILED)
            else v.pc[p] == Leaving(k)
                 && v.d == w.d.(channels := w.d.channels[k := Occupy(w.d.channels[k], t.entries, t.last, w.pc[p].src, w.pc[p].dst)])
    decreases w.d.numChannels - w.pc[p].i
  {
    DoKeepsShape(w, Test(p), t);
    var v := Do(w, Test(p), t);
    if v.pc[p].Scanning? {
      ScanRefines(v, p, t);
    } else if v.pc[p].Taking? {
      DoKeepsShape(v, Take(p), t);
      var u := Do(v, Take(p), t);
      DoKeepsShape(u, Fill(p), t);
      assert ScanAlone(v, p, t) == ScanAlone(u, p, t) == Do(u, Fill(p), t);
      var i := w.pc[p].i;
      assert Do(u, Fill(p), t).d.channels
          == w.d.channels[i := Occupy(w.d.channels[i], t.entries, t.last, w.pc[p].src, w.pc[p].dst)];
    }
  }

  /** The steps of an allocation amount to the one call. */
  lemma AllocationAlone(w: World, p: nat, src: uint8, dst: uint8, t: Table)
    requires Shape(w) && t.last < |t.entries| && Enabled(w, Obtain(p, src, dst))
    ensures Shape(Do(w, Obtain(p, src, dst), t))
    ensures var v := ScanAlone(Do(w, Obtain(p, src, dst), t), p, t);
            var (d, k) := AllocateChannel(w.d, t.entries, t.last, src, dst);
            v.d == d && v.pc[p] == Leaving(k)
  {
    DoKeepsShape(w, Obtain(p, src, dst), t);
    if Supported(t.entries, t.last, src, dst) { ScanRefines(Do(w, Obtain(p, src, dst), t), p, t); }
  }
}
