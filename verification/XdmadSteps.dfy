/** Many clients sharing the DMA driver in interrupt mode. Every call is taken apart into
    its single accesses to the channel table and the registers; between any two of them
    other clients, the interrupt handler and the hardware may act. */
module XdmadSteps {
  import opened UInt
  import opened XdmacModel
  import opened XdmadModel
  import opened XdmadHandler
  import H = XdmaHardwareInterface

  datatype Table = Table(entries: seq<H.HwIf>, last: nat)

  /** The calls that name a channel. In interrupt mode transfer-done reads one state and
      does nothing else, so it is no step of its own. */
  datatype Op =
    | Release(dw: uint32)
    | Callback(dw: uint32, callback: nat, arg: nat)
    | Prepare(dw: uint32)
    | Configure(dw: uint32, p: Config, descCfg: uint32, descAddr: uint32, intEn: uint32)
    | Begin(dw: uint32)
    | Stop(dw: uint32)

  predicate Names(op: Op, c: nat) {
    Index(op.dw) == c
  }

  // ---- single accesses ----------------------------------------------------------------

  /** The registers a call writes outright. */
  datatype Setter =
    | SourceAddr(v: uint32)
    | DestinationAddr(v: uint32)
    | DescriptorAddr(v: uint32)
    | DescriptorControl(v: uint32)
    | MicroblockControl(v: uint32)
    | BlockControl(v: uint32)
    | ChannelConfig(v: uint32)
    | DataStride(v: uint32)
    | SourceStride(v: uint32)
    | DestinationStride(v: uint32)

  /** A test reads the state and decides what is left to do. Most calls read it twice: once
      against Free, once against Start. */
  datatype Access =
    | FirstTest(op: Op)
    | SecondTest(op: Op)
    | WriteState(c: nat, s: ChannelState)
    | WriteCallback(c: nat, callback: nat)
    | WriteArgument(c: nat, arg: nat)
    | ReadStatus(c: nat)
    | EnableGlobal(c: nat)
    | DisableGlobal(c: nat)
    | EnableTransfer(c: nat)
    | DisableTransfer(c: nat)
    | EnableInterrupts(c: nat, mask: uint32)
    | DisableInterrupts(c: nat)
    | Write(c: nat, setter: Setter)

  predicate IsTest(a: Access) {
    a.FirstTest? || a.SecondTest?
  }

  /** Only these states are ever written by a call other than an allocation. */
  predicate WellFormed(n: nat, a: Access) {
    if IsTest(a) then Index(a.op.dw) < n else a.c < n && (a.WriteState? ==> a.s in {Free, Start, Halted})
  }

  function Set(r: Regs, c: nat, setter: Setter): Regs
    requires c < |r.ch|
  {
    match setter
    case SourceAddr(v) => SetSourceAddr(r, c, v)
    case DestinationAddr(v) => SetDestinationAddr(r, c, v)
    case DescriptorAddr(v) => SetDescriptorAddr(r, c, v, 0)
    case DescriptorControl(v) => SetDescriptorControl(r, c, v)
    case MicroblockControl(v) => SetMicroblockControl(r, c, v)
    case BlockControl(v) => SetBlockControl(r, c, v)
    case ChannelConfig(v) => SetChannelConfig(r, c, v)
    case DataStride(v) => SetDataStrideMemPattern(r, c, v)
    case SourceStride(v) => SetSourceMicroBlockStride(r, c, v)
    case DestinationStride(v) => SetDestinationMicroBlockStride(r, c, v)
  }

  predicate OnRegisters(a: Access) {
    !IsTest(a) && !a.WriteState? && !a.WriteCallback? && !a.WriteArgument?
  }

  function PerformRegs(r: Regs, a: Access): Regs
    requires OnRegisters(a) && a.c < |r.ch|
  {
    match a
    case ReadStatus(c) => ClearStatus(r, c)
    case EnableGlobal(c) => EnableGIt(r, c)
    case DisableGlobal(c) => DisableGIt(r, c)
    case EnableTransfer(c) => EnableChannel(r, c)
    case DisableTransfer(c) => DisableChannel(r, c)
    case EnableInterrupts(c, mask) => EnableChannelIt(r, c, mask)
    case DisableInterrupts(c) => DisableChannelIt(r, c, 0xFF)
    case Write(c, setter) => Set(r, c, setter)
  }

  function Perform(d: Driver, a: Access): (e: Driver)
    requires Valid(d) && !IsTest(a) && a.c < CHANNEL_NUM
    ensures Valid(e) && e.numChannels == d.numChannels && e.polling == d.polling
  {
    if a.WriteState? then SetState(d, a.c, a.s)
    else if a.WriteCallback? then d.(channels := d.channels[a.c := d.channels[a.c].(callback := a.callback)])
    else if a.WriteArgument? then d.(channels := d.channels[a.c := d.channels[a.c].(arg := a.arg)])
    else
      PerformedRegsValid(d.regs, a);
      d.(regs := PerformRegs(d.regs, a))
  }

  lemma PerformedRegsValid(r: Regs, a: Access)
    requires OnRegisters(a) && ValidRegs(r) && a.c < CHANNEL_NUM
    ensures ValidRegs(PerformRegs(r, a))
  {
  }

  // ---- the accesses of each call --------------------------------------------------------

  function StopPlan(c: nat): seq<Access> {
    [WriteState(c, Halted), DisableTransfer(c), DisableInterrupts(c), ReadStatus(c)]
  }

  function Entry(op: Op): seq<Access> {
    match op
    case Stop(dw) => StopPlan(Index(dw))
    case Configure(dw, _, _, _, _) => [ReadStatus(Index(dw)), FirstTest(op)]
    case _ => [FirstTest(op)]
  }

  /** What a call still does, given the state it has just read. */
  function AfterTest(a: Access, s: ChannelState, polling: bool): seq<Access>
    requires IsTest(a)
  {
    var op, c := a.op, Index(a.op.dw);
    if a.FirstTest? then
      if op.Release? then (if s in {Done, Halted} then [WriteState(c, Free)] else [])
      else if s == Free then [] else [SecondTest(op)]
    else if s == Start || (op.Prepare? && s == InXfr) then []
    else Work(op, polling)
  }

  function Work(op: Op, polling: bool): seq<Access> {
    var c := Index(op.dw);
    match op
    case Callback(_, callback, arg) => [WriteCallback(c, callback), WriteArgument(c, arg)]
    case Prepare(_) =>
      ([ReadStatus(c), DisableGlobal(c)] + [DisableInterrupts(c), DisableTransfer(c)])
      + ([Write(c, SourceAddr(0)), Write(c, DestinationAddr(0))] + [Write(c, BlockControl(0)), Write(c, ChannelConfig(0x20))])
      + [Write(c, DescriptorAddr(0)), Write(c, DescriptorControl(0))]
    case Configure(_, p, descCfg, descAddr, intEn) =>
      if FetchesDescriptors(descCfg) then ListWork(c, p, descCfg, descAddr, intEn) else SingleWork(c, p, intEn)
    case Begin(_) =>
      [WriteState(c, Start), EnableTransfer(c)] + if polling then [] else [EnableGlobal(c)]
    case Release(_) => []
    case Stop(_) => []
  }

  function ListWork(c: nat, p: Config, descCfg: uint32, descAddr: uint32, intEn: uint32): seq<Access> {
    (if View(descCfg) == 0
     then [Write(c, ChannelConfig(p.cfg)), Write(c, SourceAddr(p.sa)), Write(c, DestinationAddr(p.da))]
     else if View(descCfg) == 1 then [Write(c, ChannelConfig(p.cfg))] else [])
    + [Write(c, DescriptorAddr(descAddr)), Write(c, DescriptorControl(descCfg)),
       DisableInterrupts(c), EnableInterrupts(c, intEn)]
  }

  function SingleWork(c: nat, p: Config, intEn: uint32): seq<Access> {
    ([Write(c, SourceAddr(p.sa)), Write(c, DestinationAddr(p.da))] + [Write(c, MicroblockControl(p.ubc)), Write(c, BlockControl(p.bc))])
    + ([Write(c, DataStride(p.ds)), Write(c, SourceStride(p.sus))] + [Write(c, DestinationStride(p.dus)), Write(c, ChannelConfig(p.cfg))])
    + ([Write(c, DescriptorAddr(0)), Write(c, DescriptorControl(0))] + [EnableInterrupts(c, intEn)])
  }

  // ---- clients and the world ---------------------------------------------------------------

  datatype Lock = Unlocked | LockedBy(client: nat)

  /** Where a client is: scanning under the lock, having seen channel i free, having marked
      it but not described it, about to release the lock with its result, or inside another
      call with these accesses to come. */
  datatype Pc =
    | Idle
    | Scanning(i: nat, src: uint8, dst: uint8)
    | Taking(i: nat, src: uint8, dst: uint8)
    | Filling(i: nat, src: uint8, dst: uint8)
    | Leaving(result: nat)
    | Calling(todo: seq<Access>)

  /** Inside an allocation, and so holding the lock. */
  predicate Inside(pc: Pc) {
    pc.Scanning? || pc.Taking? || pc.Filling? || pc.Leaving?
  }

  /** held[p] are the channels client p was given by an allocation and has not freed. */
  datatype World = World(d: Driver, lock: Lock, pc: seq<Pc>, held: seq<set<nat>>)

  datatype Step =
    | Obtain(p: nat, src: uint8, dst: uint8)
    | Test(p: nat)
    | Take(p: nat)
    | Fill(p: nat)
    | Unlock(p: nat)
    | Enter(p: nat, op: Op)
    | Exec(p: nat)
    | Interrupt
    | Hardware(regs: Regs)

  predicate PcShape(n: nat, pc: Pc) {
    match pc
    case Idle => true
    case Scanning(i, _, _) => i <= n
    case Taking(i, _, _) => i < n
    case Filling(i, _, _) => i < n
    case Leaving(_) => true
    case Calling(todo) => todo != [] && forall k :: 0 <= k < |todo| ==> WellFormed(n, todo[k])
  }

  ghost predicate Shape(w: World) {
    && Valid(w.d) && !w.d.polling
    && |w.pc| == |w.held|
    && forall p :: 0 <= p < |w.pc| ==> PcShape(w.d.numChannels, w.pc[p])
  }

  /** The hardware never changes which interrupts are enabled; anything else it may. */
  predicate HardwareMay(r: Regs, r': Regs) {
    && ValidRegs(r')
    && r'.gim == r.gim
    && |r'.ch| == |r.ch| && forall c :: 0 <= c < |r.ch| ==> r'.ch[c].cim == r.ch[c].cim
  }

  predicate Enabled(w: World, s: Step) {
    match s
    case Obtain(p, _, _) => p < |w.pc| && w.pc[p] == Idle && w.lock == Unlocked
    case Test(p) => p < |w.pc| && w.pc[p].Scanning?
    case Take(p) => p < |w.pc| && w.pc[p].Taking?
    case Fill(p) => p < |w.pc| && w.pc[p].Filling?
    case Unlock(p) => p < |w.pc| && w.pc[p].Leaving?
    case Enter(p, _) => p < |w.pc| && w.pc[p] == Idle
    case Exec(p) => p < |w.pc| && w.pc[p].Calling?
    case Interrupt => true
    case Hardware(regs) => HardwareMay(w.d.regs, regs)
  }

  function At(w: World, p: nat, pc: Pc): World
    requires p < |w.pc|
  {
    w.(pc := w.pc[p := pc])
  }

  function Resume(todo: seq<Access>): Pc {
    if todo == [] then Idle else Calling(todo)
  }

  function Do(w: World, s: Step, t: Table): World
    requires Shape(w) && Enabled(w, s) && t.last < |t.entries|
  {
    match s
    case Obtain(p, src, dst) =>
      At(w, p, if Supported(t.entries, t.last, src, dst) then Scanning(0, src, dst) else Leaving(ALLOC_FAILED))
        .(lock := LockedBy(p))
    case Test(p) =>
      var i, src, dst := w.pc[p].i, w.pc[p].src, w.pc[p].dst;
      At(w, p, if i == w.d.numChannels then Leaving(ALLOC_FAILED)
               else if w.d.channels[i].state == Free then Taking(i, src, dst) else Scanning(i + 1, src, dst))
    case Take(p) =>
      var i := w.pc[p].i;
      At(w, p, Filling(i, w.pc[p].src, w.pc[p].dst))
        .(d := SetState(w.d, i, Allocated), held := w.held[p := w.held[p] + {i}])
    case Fill(p) =>
      var i := w.pc[p].i;
      var filled := Describe(w.d.channels[i], t.entries, t.last, w.pc[p].src, w.pc[p].dst);
      At(w, p, Leaving(i)).(d := w.d.(channels := w.d.channels[i := filled]))
    case Unlock(p) => At(w, p, Idle).(lock := Unlocked)
    case Enter(p, op) => if Index(op.dw) < w.d.numChannels then At(w, p, Calling(Entry(op))) else w
    case Exec(p) => Execute(w, p)
    case Interrupt => w.(d := Handler(w.d).0)
    case Hardware(regs) => w.(d := w.d.(regs := regs))
  }

  /** The next access of a client's call. A channel marked free leaves its holder's set. */
  function Execute(w: World, p: nat): World
    requires Shape(w) && p < |w.pc| && w.pc[p].Calling?
  {
    var a, rest := w.pc[p].todo[0], w.pc[p].todo[1..];
    assert WellFormed(w.d.numChannels, a);
    if IsTest(a) then
      At(w, p, Resume(AfterTest(a, w.d.channels[Index(a.op.dw)].state, w.d.polling)))
    else
      At(w, p, Resume(rest)).(d := Perform(w.d, a),
                              held := if a.WriteState? && a.s == Free then w.held[p := w.held[p] - {a.c}] else w.held)
  }

  // ---- runs -------------------------------------------------------------------------------------

  lemma WorkWellFormed(op: Op, polling: bool, n: nat)
    requires Index(op.dw) < n
    ensures forall k :: 0 <= k < |Work(op, polling)| ==> WellFormed(n, Work(op, polling)[k])
  {
  }

  lemma AfterTestWellFormed(a: Access, s: ChannelState, polling: bool, n: nat)
    requires IsTest(a) && Index(a.op.dw) < n
    ensures forall k :: 0 <= k < |AfterTest(a, s, polling)| ==> WellFormed(n, AfterTest(a, s, polling)[k])
  {
    WorkWellFormed(a.op, polling, n);
  }

  lemma HandlerKeeps(d: Driver)
    requires Valid(d)
    ensures Valid(Handler(d).0) && Handler(d).0.numChannels == d.numChannels && Handler(d).0.polling == d.polling
  {
    HandlerIsExact(d);
  }

  lemma ExecuteKeepsShape(w: World, p: nat)
    requires Shape(w) && p < |w.pc| && w.pc[p].Calling?
    ensures Shape(Execute(w, p)) && Execute(w, p).d.numChannels == w.d.numChannels && |Execute(w, p).pc| == |w.pc|
  {
    var a, rest := w.pc[p].todo[0], w.pc[p].todo[1..];
    assert WellFormed(w.d.numChannels, a);
    assert forall k :: 0 <= k < |rest| ==> rest[k] == w.pc[p].todo[k + 1];
    if IsTest(a) { AfterTestWellFormed(a, w.d.channels[Index(a.op.dw)].state, w.d.polling, w.d.numChannels); }
  }

  lemma DoKeepsShape(w: World, s: Step, t: Table)
    requires Shape(w) && Enabled(w, s) && t.last < |t.entries|
    ensures Shape(Do(w, s, t)) && Do(w, s, t).d.numChannels == w.d.numChannels && |Do(w, s, t).pc| == |w.pc|
  {
    match s
    case Exec(p) => ExecuteKeepsShape(w, p);
    case Interrupt => HandlerKeeps(w.d);
    case Obtain(_, _, _) =>
    case Test(_) =>
    case Take(_) =>
    case Fill(_) =>
    case Unlock(_) =>
    case Enter(_, _) =>
    case Hardware(_) =>
  }

  ghost predicate IsRun(w: World, ss: seq<Step>, t: Table)
    requires Shape(w) && t.last < |t.entries|
    decreases |ss|
  {
    ss == [] || (Enabled(w, ss[0]) && (DoKeepsShape(w, ss[0], t); IsRun(Do(w, ss[0], t), ss[1..], t)))
  }

  ghost function AfterRun(w: World, ss: seq<Step>, t: Table): (v: World)
    requires Shape(w) && t.last < |t.entries| && IsRun(w, ss, t)
    ensures Shape(v) && v.d.numChannels == w.d.numChannels && |v.pc| == |w.pc|
    decreases |ss|
  {
    if ss == [] then w
    else
      DoKeepsShape(w, ss[0], t);
      AfterRun(Do(w, ss[0], t), ss[1..], t)
  }

  lemma OneMore(w: World, s: Step, ss: seq<Step>, t: Table)
    requires Shape(w) && Enabled(w, s) && t.last < |t.entries|
    requires Shape(Do(w, s, t)) && IsRun(Do(w, s, t), ss, t)
    ensures IsRun(w, [s] + ss, t) && AfterRun(w, [s] + ss, t) == AfterRun(Do(w, s, t), ss, t)
  {
    assert ([s] + ss)[1..] == ss;
  }

  lemma {:induction false} RunConcat(w: World, ss: seq<Step>, tt: seq<Step>, t: Table)
    requires Shape(w) && t.last < |t.entries| && IsRun(w, ss, t) && IsRun(AfterRun(w, ss, t), tt, t)
    ensures IsRun(w, ss + tt, t) && AfterRun(w, ss + tt, t) == AfterRun(AfterRun(w, ss, t), tt, t)
    decreases |ss|
  {
    if ss == [] {
      assert ss + tt == tt;
    } else {
      DoKeepsShape(w, ss[0], t);
      RunConcat(Do(w, ss[0], t), ss[1..], tt, t);
      assert ss + tt == [ss[0]] + (ss[1..] + tt);
      OneMore(w, ss[0], ss[1..] + tt, t);
    }
  }

  /** Three steps in a row. */
  lemma ThreeSteps(w: World, a: Step, b: Step, c: Step, t: Table)
    requires Shape(w) && t.last < |t.entries| && Enabled(w, a)
    requires Shape(Do(w, a, t)) && Enabled(Do(w, a, t), b)
    requires Shape(Do(Do(w, a, t), b, t)) && Enabled(Do(Do(w, a, t), b, t), c)
    ensures IsRun(w, [a, b, c], t) && AfterRun(w, [a, b, c], t) == Do(Do(Do(w, a, t), b, t), c, t)
  {
    var w1 := Do(w, a, t);
    var w2 := Do(w1, b, t);
    DoKeepsShape(w2, c, t);
    OneMore(w2, c, [], t);
    assert [c] + [] == [c];
    OneMore(w1, b, [c], t);
    assert [b] + [c] == [b, c];
    OneMore(w, a, [b, c], t);
    assert [a] + [b, c] == [a, b, c];
  }
}
