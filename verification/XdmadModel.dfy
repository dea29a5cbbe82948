/** The DMA driver of xdmad.c on values: what each call does to the channel table and
    the registers. */
module XdmadModel {
  import opened UInt
  import opened XdmacModel
  import H = XdmaHardwareInterface

  datatype ChannelState = Free | Allocated | Start | InXfr | Done | Halted

  datatype Status = Ok | Busy | Error

  /** A callback of zero is the NULL pointer. */
  datatype Channel = Channel(state: ChannelState, callback: nat, arg: nat, srcPeriphId: uint8, dstPeriphId: uint8,
                             srcTxIfId: uint8, srcRxIfId: uint8, dstTxIfId: uint8, dstRxIfId: uint8)

  datatype Driver = Driver(regs: Regs, channels: seq<Channel>, numChannels: nat, polling: bool)

  /** One call made through a channel's callback pointer. */
  datatype Call = Call(channel: nat, callback: nat, arg: nat)

  const NULL: nat := 0
  const ALLOC_FAILED: nat := 0xFFFF

  predicate Valid(d: Driver) {
    ValidRegs(d.regs) && |d.channels| == CHANNEL_NUM && d.numChannels <= CHANNEL_NUM
  }

  /** The low byte of a channel handle. */
  function Index(dwChannel: uint32): nat {
    dwChannel % 0x100
  }

  function SetState(d: Driver, c: nat, s: ChannelState): Driver
    requires c < |d.channels|
  {
    d.(channels := d.channels[c := d.channels[c].(state := s)])
  }

  // ---- initialisation and allocation ---------------------------------------------

  function FreshChannel(): Channel {
    Channel(Free, NULL, 0, 0, 0, 0, 0, 0, 0)
  }

  /** Number of channels, from the five-bit field of the type register. */
  function ChannelCount(gtype: uint32): nat {
    gtype % 32 + 1
  }

  /** Memory to memory, memory to a listed peripheral, or the reverse. */
  predicate Supported(table: seq<H.HwIf>, last: nat, src: uint8, dst: uint8)
    requires last < |table|
  {
    && (src == H.MEMORY || dst == H.MEMORY)
    && (dst == H.MEMORY ==> H.IsValidated(table, last, src))
    && (src == H.MEMORY ==> H.IsValidated(table, last, dst))
  }

  /** The lowest free channel from i on, or the number of channels. */
  function FirstFree(d: Driver, i: nat): (k: nat)
    requires Valid(d) && i <= d.numChannels
    ensures i <= k <= d.numChannels
    ensures forall j :: i <= j < k ==> d.channels[j].state != Free
    ensures k < d.numChannels ==> d.channels[k].state == Free
    decreases d.numChannels - i
  {
    if i == d.numChannels || d.channels[i].state == Free then i else FirstFree(d, i + 1)
  }

  /** What an allocation records of the pair it was made for. */
  function Describe(c: Channel, table: seq<H.HwIf>, last: nat, src: uint8, dst: uint8): Channel
    requires last < |table|
  {
    c.(srcPeriphId := src, dstPeriphId := dst,
       srcTxIfId := H.Interface(table, last, src, 0), srcRxIfId := H.Interface(table, last, src, 1),
       dstTxIfId := H.Interface(table, last, dst, 0), dstRxIfId := H.Interface(table, last, dst, 1))
  }

  function Occupy(c: Channel, table: seq<H.HwIf>, last: nat, src: uint8, dst: uint8): Channel
    requires last < |table|
  {
    Describe(c.(state := Allocated), table, last, src, dst)
  }

  function AllocateChannel(d: Driver, table: seq<H.HwIf>, last: nat, src: uint8, dst: uint8): (Driver, nat)
    requires Valid(d) && last < |table|
  {
    var k := FirstFree(d, 0);
    if !Supported(table, last, src, dst) || k == d.numChannels then (d, ALLOC_FAILED)
    else (d.(channels := d.channels[k := Occupy(d.channels[k], table, last, src, dst)]), k)
  }

  // ---- client calls -----------------------------------------------------------------

  /** What XDMAD_FreeChannel makes of a state, and what it returns. */
  function FreeState(s: ChannelState): (ChannelState, Status) {
    match s
    case Allocated => (s, Busy)
    case Start => (s, Busy)
    case InXfr => (s, Busy)
    case Done => (Free, Ok)
    case Halted => (Free, Ok)
    case Free => (Free, Ok)
  }

  function FreeChannel(d: Driver, dwChannel: uint32): (Driver, Status)
    requires Valid(d)
  {
    var c := Index(dwChannel);
    if c >= d.numChannels then (d, Error)
    else
      var (s, rc) := FreeState(d.channels[c].state);
      (SetState(d, c, s), rc)
  }

  function SetCallback(d: Driver, dwChannel: uint32, callback: nat, arg: nat): (Driver, Status)
    requires Valid(d)
  {
    var c := Index(dwChannel);
    if c >= d.numChannels || d.channels[c].state == Free then (d, Error)
    else if d.channels[c].state == Start then (d, Busy)
    else (d.(channels := d.channels[c := d.channels[c].(callback := callback, arg := arg)]), Ok)
  }

  function PrepareRegs(r: Regs, c: nat): Regs
    requires c < |r.ch|
  {
    var r1 := DisableGIt(ClearStatus(r, c), c);
    var r2 := DisableChannel(DisableChannelIt(r1, c, 0xFF), c);
    var r3 := SetDestinationAddr(SetSourceAddr(r2, c, 0), c, 0);
    var r4 := SetChannelConfig(SetBlockControl(r3, c, 0), c, 0x20);
    SetDescriptorControl(SetDescriptorAddr(r4, c, 0, 0), c, 0)
  }

  function PrepareChannel(d: Driver, dwChannel: uint32): (Driver, Status)
    requires Valid(d)
  {
    var c := Index(dwChannel);
    if c >= d.numChannels || d.channels[c].state == Free then (d, Error)
    else if d.channels[c].state == Start || d.channels[c].state == InXfr then (d, Busy)
    else (d.(regs := PrepareRegs(d.regs, c)), Ok)
  }

  /** sXdmadCfg. */
  datatype Config = Config(ubc: uint32, sa: uint32, da: uint32, cfg: uint32, bc: uint32, ds: uint32, sus: uint32, dus: uint32)

  /** Bit 0 of the descriptor control word. */
  predicate FetchesDescriptors(descCfg: uint32) {
    descCfg % 2 == 1
  }

  /** The descriptor view, bits 3 and 4. */
  function View(descCfg: uint32): nat {
    descCfg / 8 % 4
  }

  function ConfigureListRegs(r: Regs, c: nat, p: Config, descCfg: uint32, descAddr: uint32, intEn: uint32): Regs
    requires c < |r.ch|
  {
    var r1 := if View(descCfg) == 0 then SetDestinationAddr(SetSourceAddr(SetChannelConfig(r, c, p.cfg), c, p.sa), c, p.da) else r;
    var r2 := if View(descCfg) == 1 then SetChannelConfig(r1, c, p.cfg) else r1;
    var r3 := SetDescriptorControl(SetDescriptorAddr(r2, c, descAddr, 0), c, descCfg);
    EnableChannelIt(DisableChannelIt(r3, c, 0xFF), c, intEn)
  }

  function ConfigureSingleRegs(r: Regs, c: nat, p: Config, intEn: uint32): Regs
    requires c < |r.ch|
  {
    var r1 := SetMicroblockControl(SetDestinationAddr(SetSourceAddr(r, c, p.sa), c, p.da), c, p.ubc);
    var r2 := SetDataStrideMemPattern(SetBlockControl(r1, c, p.bc), c, p.ds);
    var r3 := SetDestinationMicroBlockStride(SetSourceMicroBlockStride(r2, c, p.sus), c, p.dus);
    var r4 := SetDescriptorControl(SetDescriptorAddr(SetChannelConfig(r3, c, p.cfg), c, 0, 0), c, 0);
    EnableChannelIt(r4, c, intEn)
  }

  /** The status register is read, and so cleared, before the state is looked at. */
  function ConfigureTransfer(d: Driver, dwChannel: uint32, p: Config, descCfg: uint32, descAddr: uint32, intEn: uint32): (r: (Driver, Status))
    requires Valid(d)
    ensures Valid(r.0) && r.0.(regs := d.regs) == d
  {
    var c := Index(dwChannel);
    if c >= d.numChannels then (d, Error)
    else
      var r := ClearStatus(d.regs, c);
      if d.channels[c].state == Free then (d.(regs := r), Error)
      else if d.channels[c].state == Start then (d.(regs := r), Busy)
      else if FetchesDescriptors(descCfg) then (d.(regs := ConfigureListRegs(r, c, p, descCfg, descAddr, intEn)), Ok)
      else (d.(regs := ConfigureSingleRegs(r, c, p, intEn)), Ok)
  }

  function StartTransfer(d: Driver, dwChannel: uint32): (Driver, Status)
    requires Valid(d)
  {
    var c := Index(dwChannel);
    if c >= d.numChannels || d.channels[c].state == Free then (d, Error)
    else if d.channels[c].state == Start then (d, Busy)
    else
      var r := EnableChannel(d.regs, c);
      (SetState(d, c, Start).(regs := if d.polling then r else EnableGIt(r, c)), Ok)
  }

  /** Any state, even Free, becomes Halted. */
  function StopTransfer(d: Driver, dwChannel: uint32): (Driver, Status)
    requires Valid(d)
  {
    var c := Index(dwChannel);
    if c >= d.numChannels then (d, Error)
    else (SetState(d, c, Halted).(regs := ClearStatus(DisableChannelIt(DisableChannel(d.regs, c), c, 0xFF), c)), Ok)
  }

  // ---- the interrupt handler -----------------------------------------------------------

  /** A masked status that ends a transfer: end of list, end of disable, or end of block
      when end of list is not enabled. */
  predicate Completes(cis: set<Irq>, cim: set<Irq>) {
    var status := cis * cim;
    ListEnd in status || DisableEnd in status || (BlockEnd in status && ListEnd !in cim)
  }

  /** The calls made for one pending channel: its own end-of-block call when it is still
      enabled, made without a NULL check, and one more if bExec is set. */
  function Calls(c: nat, ch: Channel, blockEnd: bool, bExec: bool): seq<Call> {
    (if blockEnd then [Call(c, ch.callback, ch.arg)] else [])
    + (if bExec && ch.callback != NULL then [Call(c, ch.callback, ch.arg)] else [])
  }

  predicate CompletesAt(d: Driver, c: nat)
    requires Valid(d) && c < CHANNEL_NUM
  {
    Completes(d.regs.ch[c].cis, d.regs.ch[c].cim)
  }

  /** One round of the handler's loop, for a pending channel that is not free. */
  function Round(d: Driver, gs: set<nat>, i: nat): (e: Driver)
    requires Valid(d) && i < d.numChannels
    ensures Valid(e) && e.numChannels == d.numChannels
  {
    var regs := ClearStatus(d.regs, i);
    if i !in gs && CompletesAt(d, i) then SetState(d, i, Done).(regs := regs) else d.(regs := regs)
  }

  /** What the round leaves in bExec: a channel that is still enabled does not touch it. */
  predicate RoundFlag(d: Driver, gs: set<nat>, i: nat, bExec: bool)
    requires Valid(d) && i < d.numChannels
  {
    if i !in gs then CompletesAt(d, i) else bExec
  }

  function RoundCalls(d: Driver, gs: set<nat>, i: nat, bExec: bool): seq<Call>
    requires Valid(d) && i < d.numChannels
  {
    Calls(i, d.channels[i], i in gs && BlockEnd in d.regs.ch[i].cis, RoundFlag(d, gs, i, bExec))
  }

  /** The handler's loop from channel i on, with the global status and the channel status
      it read on entry. */
  function HandlerFrom(d: Driver, gis: set<nat>, gs: set<nat>, i: nat, bExec: bool): (r: (Driver, seq<Call>))
    requires Valid(d)
    ensures Valid(r.0) && r.0.numChannels == d.numChannels
    decreases d.numChannels - i
  {
    if i >= d.numChannels then (d, [])
    else if i !in gis then HandlerFrom(d, gis, gs, i + 1, bExec)
    else if d.channels[i].state == Free then (d, [])
    else
      var rest := HandlerFrom(Round(d, gs, i), gis, gs, i + 1, RoundFlag(d, gs, i, bExec));
      (rest.0, RoundCalls(d, gs, i, bExec) + rest.1)
  }

  /** Only the low 24 status bits make the handler look at the channels. */
  function Handler(d: Driver): (r: (Driver, seq<Call>))
    requires Valid(d)
    ensures Valid(r.0)
  {
    if exists c :: c in d.regs.gis && c < CHANNEL_NUM then HandlerFrom(d, d.regs.gis, d.regs.gs, 0, false) else (d, [])
  }

  function DoneStatus(s: ChannelState): Status {
    match s
    case Allocated => Ok
    case Free => Error
    case Done => Ok
    case Start => Busy
    case InXfr => Busy
    case Halted => Busy
  }

  /** In polling mode a busy answer runs the handler first, but still answers busy. */
  function IsTransferDone(d: Driver, dwChannel: uint32): (Driver, Status, seq<Call>)
    requires Valid(d)
  {
    var c := Index(dwChannel);
    if c >= d.numChannels then (d, Error, [])
    else
      var rc := DoneStatus(d.channels[c].state);
      if rc == Busy && d.polling then (Handler(d).0, rc, Handler(d).1) else (d, rc, [])
  }
}
