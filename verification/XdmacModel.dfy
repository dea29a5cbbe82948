/** The register layer of the DMA controller, xdmac.c over component_xdmac.h, on values.
    Enable and disable registers set and clear bits of a mask; reading a channel's
    interrupt status clears it. */
module XdmacModel {
  import opened UInt

  const CHANNEL_NUM: nat := 24

  /** A channel's seven interrupts, in bit order 0 to 6; the enable, disable, mask and
      status registers share it. */
  datatype Irq = BlockEnd | ListEnd | DisableEnd | FlushEnd | ReadError | WriteError | RequestOverflow

  function BitWeight(i: Irq): nat {
    match i
    case BlockEnd => 1
    case ListEnd => 2
    case DisableEnd => 4
    case FlushEnd => 8
    case ReadError => 16
    case WriteError => 32
    case RequestOverflow => 64
  }

  /** The interrupts a word names; the parameter is a byte in C, and its top bit names none. */
  function Named(word: uint32): set<Irq> {
    set i: Irq | word % 0x100 / BitWeight(i) % 2 == 1
  }

  /** One channel; 32-bit words except for the interrupt mask and status. */
  datatype ChannelRegs = ChannelRegs(cim: set<Irq>, cis: set<Irq>, csa: uint32, cda: uint32, cnda: uint32,
                                     cndc: uint32, cubc: uint32, cbc: uint32, cc: uint32, cdsMsp: uint32,
                                     csus: uint32, cdus: uint32)

  /** Bits of the global registers are sets of channel numbers: interrupt mask and
      status, channels enabled, and channels with a disable request outstanding, whose
      GS bit stays up until their pending transaction is over. */
  datatype Regs = Regs(gim: set<nat>, gis: set<nat>, gs: set<nat>, disabling: set<nat>, ch: seq<ChannelRegs>)

  predicate ValidRegs(r: Regs) {
    |r.ch| == CHANNEL_NUM
  }

  function EnableGIt(r: Regs, c: nat): Regs {
    r.(gim := r.gim + {c})
  }

  function DisableGIt(r: Regs, c: nat): Regs {
    r.(gim := r.gim - {c})
  }

  function EnableChannel(r: Regs, c: nat): Regs {
    r.(gs := r.gs + {c}, disabling := r.disabling - {c})
  }

  function DisableChannel(r: Regs, c: nat): Regs {
    r.(disabling := r.disabling + {c})
  }

  function Put(r: Regs, c: nat, x: ChannelRegs): Regs
    requires c < |r.ch|
  {
    r.(ch := r.ch[c := x])
  }

  function EnableChannelIt(r: Regs, c: nat, mask: uint32): Regs
    requires c < |r.ch|
  {
    Put(r, c, r.ch[c].(cim := r.ch[c].cim + Named(mask)))
  }

  function DisableChannelIt(r: Regs, c: nat, mask: uint32): Regs
    requires c < |r.ch|
  {
    Put(r, c, r.ch[c].(cim := r.ch[c].cim - Named(mask)))
  }

  /** What remains after the status register was read. */
  function ClearStatus(r: Regs, c: nat): Regs
    requires c < |r.ch|
  {
    Put(r, c, r.ch[c].(cis := {}))
  }

  function SetSourceAddr(r: Regs, c: nat, v: uint32): Regs
    requires c < |r.ch|
  {
    Put(r, c, r.ch[c].(csa := v))
  }

  function SetDestinationAddr(r: Regs, c: nat, v: uint32): Regs
    requires c < |r.ch|
  {
    Put(r, c, r.ch[c].(cda := v))
  }

  /** The address is aligned to a word; ndaif selects the interface in the two low bits. */
  function SetDescriptorAddr(r: Regs, c: nat, addr: uint32, ndaif: uint32): Regs
    requires c < |r.ch| && ndaif < 2
  {
    Put(r, c, r.ch[c].(cnda := addr - addr % 4 + ndaif))
  }

  /** The parameter is a byte in C: the caller's word is truncated to it. */
  function SetDescriptorControl(r: Regs, c: nat, config: uint32): Regs
    requires c < |r.ch|
  {
    Put(r, c, r.ch[c].(cndc := config % 0x100))
  }

  function SetMicroblockControl(r: Regs, c: nat, ublen: uint32): Regs
    requires c < |r.ch|
  {
    Put(r, c, r.ch[c].(cubc := ublen % 0x100_0000))
  }

  /** The parameter is a half word in C. */
  function SetBlockControl(r: Regs, c: nat, blen: uint32): Regs
    requires c < |r.ch|
  {
    Put(r, c, r.ch[c].(cbc := blen % 0x1_0000 % 0x1000))
  }

  function SetChannelConfig(r: Regs, c: nat, config: uint32): Regs
    requires c < |r.ch|
  {
    Put(r, c, r.ch[c].(cc := config))
  }

  function SetDataStrideMemPattern(r: Regs, c: nat, v: uint32): Regs
    requires c < |r.ch|
  {
    Put(r, c, r.ch[c].(cdsMsp := v))
  }

  function SetSourceMicroBlockStride(r: Regs, c: nat, v: uint32): Regs
    requires c < |r.ch|
  {
    Put(r, c, r.ch[c].(csus := v % 0x100_0000))
  }

  function SetDestinationMicroBlockStride(r: Regs, c: nat, v: uint32): Regs
    requires c < |r.ch|
  {
    Put(r, c, r.ch[c].(cdus := v % 0x100_0000))
  }
}
