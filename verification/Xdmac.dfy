/** The register layer of the DMA controller, xdmac.c, on the register file itself. */
module Xdmac {
  import opened UInt
  import M = XdmacModel

  class Controller {
    var gim: set<nat>
    var gis: set<nat>
    var gs: set<nat>
    var disabling: set<nat>
    const chid: array<M.ChannelRegs>

    function Model(): M.Regs
      reads this, chid
    {
      M.Regs(gim, gis, gs, disabling, chid[..])
    }

    constructor (initial: M.Regs)
      requires M.ValidRegs(initial)
      ensures Model() == initial && fresh(chid)
    {
      gim, gis, gs, disabling := initial.gim, initial.gis, initial.gs, initial.disabling;
      chid := new M.ChannelRegs[M.CHANNEL_NUM](i requires 0 <= i < M.CHANNEL_NUM => initial.ch[i]);
    }

    method EnableGIt(channel: nat)
      modifies this`gim
      ensures Model() == M.EnableGIt(old(Model()), channel)
    {
      gim := gim + {channel};
    }

    method DisableGIt(channel: nat)
      modifies this`gim
      ensures Model() == M.DisableGIt(old(Model()), channel)
    {
      gim := gim - {channel};
    }

    method EnableChannel(channel: nat)
      modifies this`gs, this`disabling
      ensures Model() == M.EnableChannel(old(Model()), channel)
    {
      gs, disabling := gs + {channel}, disabling - {channel};
    }

    method DisableChannel(channel: nat)
      modifies this`disabling
      ensures Model() == M.DisableChannel(old(Model()), channel)
    {
      disabling := disabling + {channel};
    }

    method EnableChannelIt(channel: nat, mask: uint32)
      requires channel < chid.Length
      modifies chid
      ensures Model() == M.EnableChannelIt(old(Model()), channel, mask)
    {
      chid[channel] := chid[channel].(cim := chid[channel].cim + M.Named(mask));
    }

    method DisableChannelIt(channel: nat, mask: uint32)
      requires channel < chid.Length
      modifies chid
      ensures Model() == M.DisableChannelIt(old(Model()), channel, mask)
    {
      chid[channel] := chid[channel].(cim := chid[channel].cim - M.Named(mask));
    }

    /** Reading CIS returns it and clears it. */
    method GetChannelIsr(channel: nat) returns (status: set<M.Irq>)
      requires channel < chid.Length
      modifies chid
      ensures status == old(chid[channel].cis) && Model() == M.ClearStatus(old(Model()), channel)
    {
      status := chid[channel].cis;
      chid[channel] := chid[channel].(cis := {});
    }

    method GetMaskChannelIsr(channel: nat) returns (status: set<M.Irq>)
      requires channel < chid.Length
      modifies chid
      ensures status == old(chid[channel].cis * chid[channel].cim)
      ensures Model() == M.ClearStatus(old(Model()), channel)
    {
      status := GetChannelIsr(channel);
      status := status * chid[channel].cim;
    }

    method SetSourceAddr(channel: nat, v: uint32)
      requires channel < chid.Length
      modifies chid
      ensures Model() == M.SetSourceAddr(old(Model()), channel, v)
    {
      chid[channel] := chid[channel].(csa := v);
    }

    method SetDestinationAddr(channel: nat, v: uint32)
      requires channel < chid.Length
      modifies chid
      ensures Model() == M.SetDestinationAddr(old(Model()), channel, v)
    {
      chid[channel] := chid[channel].(cda := v);
    }

    method SetDescriptorAddr(channel: nat, addr: uint32, ndaif: uint32)
      requires channel < chid.Length && ndaif < 2
      modifies chid
      ensures Model() == M.SetDescriptorAddr(old(Model()), channel, addr, ndaif)
    {
      chid[channel] := chid[channel].(cnda := addr - addr % 4 + ndaif);
    }

    method SetDescriptorControl(channel: nat, config: uint32)
      requires channel < chid.Length
      modifies chid
      ensures Model() == M.SetDescriptorControl(old(Model()), channel, config)
    {
      chid[channel] := chid[channel].(cndc := config % 0x100);
    }

    method SetMicroblockControl(channel: nat, ublen: uint32)
      requires channel < chid.Length
      modifies chid
      ensures Model() == M.SetMicroblockControl(old(Model()), channel, ublen)
    {
      chid[channel] := chid[channel].(cubc := ublen % 0x100_0000);
    }

    method SetBlockControl(channel: nat, blen: uint32)
      requires channel < chid.Length
      modifies chid
      ensures Model() == M.SetBlockControl(old(Model()), channel, blen)
    {
      chid[channel] := chid[channel].(cbc := blen % 0x1_0000 % 0x1000);
    }

    method SetChannelConfig(channel: nat, config: uint32)
      requires channel < chid.Length
      modifies chid
      ensures Model() == M.SetChannelConfig(old(Model()), channel, config)
    {
      chid[channel] := chid[channel].(cc := config);
    }

    method SetDataStrideMemPattern(channel: nat, v: uint32)
      requires channel < chid.Length
      modifies chid
      ensures Model() == M.SetDataStrideMemPattern(old(Model()), channel, v)
    {
      chid[channel] := chid[channel].(cdsMsp := v);
    }

    method SetSourceMicroBlockStride(channel: nat, v: uint32)
      requires channel < chid.Length
      modifies chid
      ensures Model() == M.SetSourceMicroBlockStride(old(Model()), channel, v)
    {
      chid[channel] := chid[channel].(csus := v % 0x100_0000);
    }

    method SetDestinationMicroBlockStride(channel: nat, v: uint32)
      requires channel < chid.Length
      modifies chid
      ensures Model() == M.SetDestinationMicroBlockStride(old(Model()), channel, v)
    {
      chid[channel] := chid[channel].(cdus := v % 0x100_0000);
    }
  }
}
