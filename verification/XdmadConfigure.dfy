/** What preparing and configuring a channel leave in its registers. */
module XdmadConfigure {
  import opened Gf2
  import opened UInt
  import opened XdmacBits
  import opened XdmacModel
  import opened XdmadModel

  /** A single transfer: every register of the channel follows from the parameters. */
  function SingleTransfer(p: Config, intEn: uint32): ChannelRegs {
    ChannelRegs(Named(intEn), {}, p.sa, p.da, 0, 0, p.ubc % 0x100_0000, p.bc % 0x1000, p.cfg, p.ds,
                p.sus % 0x100_0000, p.dus % 0x100_0000)
  }

  /** A linked list: the descriptors supply microblock length and strides, so those four
      registers keep what was in them; view 0 supplies addresses and configuration, view 1
      the configuration. */
  function LinkedList(p: Config, descCfg: uint32, descAddr: uint32, intEn: uint32, before: ChannelRegs): ChannelRegs {
    var view0, view1 := !Coef(descCfg, 3) && !Coef(descCfg, 4), Coef(descCfg, 3) && !Coef(descCfg, 4);
    ChannelRegs(Named(intEn), {},
                if view0 then p.sa else 0,
                if view0 then p.da else 0,
                descAddr - descAddr % 4, descCfg % 0x100, before.cubc, 0,
                if view0 || view1 then p.cfg else 0x20,
                before.cdsMsp, before.csus, before.cdus)
  }

  /** Bit 0 of the descriptor control word decides, bits 3 and 4 are the view. */
  function Configured(p: Config, descCfg: uint32, descAddr: uint32, intEn: uint32, before: ChannelRegs): ChannelRegs {
    if Coef(descCfg, 0) then LinkedList(p, descCfg, descAddr, intEn, before) else SingleTransfer(p, intEn)
  }

  lemma Quarter(v: nat)
    ensures v % 4 == v % 2 + 2 * (v / 2 % 2)
  {
  }

  lemma {:induction false} CoefHalf(w: nat, k: nat)
    ensures Coef(w, k + 1) == Coef(w / 2, k)
  {
  }

  lemma Eighth(w: nat)
    ensures Coef(w, 3) == (w / 8 % 2 == 1) && Coef(w, 4) == (w / 8 / 2 % 2 == 1)
  {
    CoefHalf(w, 2);
    CoefHalf(w / 2, 1);
    CoefHalf(w / 2 / 2, 0);
    CoefHalf(w, 3);
    CoefHalf(w / 2, 2);
    CoefHalf(w / 2 / 2, 1);
    CoefHalf(w / 2 / 2 / 2, 0);
  }

  lemma DescriptorBits(descCfg: uint32)
    ensures FetchesDescriptors(descCfg) == Coef(descCfg, 0)
    ensures View(descCfg) == 0 <==> !Coef(descCfg, 3) && !Coef(descCfg, 4)
    ensures View(descCfg) == 1 <==> Coef(descCfg, 3) && !Coef(descCfg, 4)
  {
    Eighth(descCfg);
    Quarter(descCfg / 8);
  }

  /** Disabling with the mask 0xFF disables every interrupt. */
  lemma AllNamed(cim: set<Irq>)
    ensures cim - Named(0xFF) == {}
  {
    forall i: Irq ensures i in Named(0xFF) {}
  }

  /** The registers a prepared channel starts from. */
  function Prepared(before: ChannelRegs): ChannelRegs {
    before.(cim := {}, cis := {}, csa := 0, cda := 0, cnda := 0, cndc := 0, cbc := 0, cc := 0x20)
  }

  lemma PrepareIsExact(r: Regs, c: nat)
    requires c < |r.ch|
    ensures PrepareRegs(r, c)
         == r.(gim := r.gim - {c}, disabling := r.disabling + {c}, ch := r.ch[c := Prepared(r.ch[c])])
  {
    AllNamed(r.ch[c].cim);
  }

  lemma ListIsExact(r: Regs, c: nat, p: Config, descCfg: uint32, descAddr: uint32, intEn: uint32)
    requires c < |r.ch| && r.ch[c] == Prepared(r.ch[c])
    ensures ConfigureListRegs(r, c, p, descCfg, descAddr, intEn)
         == Put(r, c, LinkedList(p, descCfg, descAddr, intEn, r.ch[c]))
  {
    DescriptorBits(descCfg);
    var x, v := r.ch[c], View(descCfg);
    var x1 := if v == 0 then x.(cc := p.cfg, csa := p.sa, cda := p.da) else if v == 1 then x.(cc := p.cfg) else x;
    var r1 := if v == 0 then SetDestinationAddr(SetSourceAddr(SetChannelConfig(r, c, p.cfg), c, p.sa), c, p.da)
              else if v == 1 then SetChannelConfig(r, c, p.cfg) else r;
    assert r1 == Put(r, c, x1);
    var x2 := x1.(cnda := descAddr - descAddr % 4, cndc := descCfg % 0x100);
    var r2 := SetDescriptorControl(SetDescriptorAddr(r1, c, descAddr, 0), c, descCfg);
    assert r2 == Put(r, c, x2);
    AllNamed(x2.cim);
    assert {} + Named(intEn) == Named(intEn);
    assert EnableChannelIt(DisableChannelIt(r2, c, 0xFF), c, intEn) == Put(r, c, x2.(cim := Named(intEn)));
  }

  lemma HalfWord(x: uint32)
    ensures x % 0x1_0000 % 0x1000 == x % 0x1000
  {
  }

  lemma SingleIsExact(r: Regs, c: nat, p: Config, intEn: uint32)
    requires c < |r.ch| && r.ch[c] == Prepared(r.ch[c])
    ensures ConfigureSingleRegs(r, c, p, intEn) == Put(r, c, SingleTransfer(p, intEn))
  {
    var x1 := r.ch[c].(csa := p.sa, cda := p.da, cubc := p.ubc % 0x100_0000);
    var r1 := SetMicroblockControl(SetDestinationAddr(SetSourceAddr(r, c, p.sa), c, p.da), c, p.ubc);
    assert r1 == Put(r, c, x1);
    HalfWord(p.bc);
    var x2 := x1.(cbc := p.bc % 0x1000, cdsMsp := p.ds);
    var r2 := SetDataStrideMemPattern(SetBlockControl(r1, c, p.bc), c, p.ds);
    assert r2 == Put(r, c, x2);
    var x3 := x2.(csus := p.sus % 0x100_0000, cdus := p.dus % 0x100_0000);
    var r3 := SetDestinationMicroBlockStride(SetSourceMicroBlockStride(r2, c, p.sus), c, p.dus);
    assert r3 == Put(r, c, x3);
    var x4 := x3.(cc := p.cfg);
    var r4 := SetDescriptorControl(SetDescriptorAddr(SetChannelConfig(r3, c, p.cfg), c, 0, 0), c, 0);
    assert r4 == Put(r, c, x4);
    assert {} + Named(intEn) == Named(intEn);
    assert EnableChannelIt(r4, c, intEn) == Put(r, c, x4.(cim := Named(intEn)));
  }

  /** Prepare then configure: both succeed, the channel's registers are those of the
      parameters whatever they held, the channel's interrupt and transfer are off, and no
      other channel and no state is touched. */
  lemma {:induction false} PrepareThenConfigure(d: Driver, dwChannel: uint32, p: Config, descCfg: uint32, descAddr: uint32, intEn: uint32)
    requires Valid(d) && Index(dwChannel) < d.numChannels
    requires d.channels[Index(dwChannel)].state !in {Free, Start, InXfr}
    ensures var c := Index(dwChannel);
            var (d1, rc1) := PrepareChannel(d, dwChannel);
            var (d2, rc2) := ConfigureTransfer(d1, dwChannel, p, descCfg, descAddr, intEn);
            && rc1 == Ok && rc2 == Ok
            && d2 == d.(regs := d.regs.(gim := d.regs.gim - {c}, disabling := d.regs.disabling + {c},
                                        ch := d.regs.ch[c := Configured(p, descCfg, descAddr, intEn, d.regs.ch[c])]))
  {
    var c := Index(dwChannel);
    var d1 := PrepareChannel(d, dwChannel).0;
    PrepareIsExact(d.regs, c);
    var r := ClearStatus(d1.regs, c);
    assert r == d1.regs;
    DescriptorBits(descCfg);
    if Coef(descCfg, 0) {
      ListIsExact(r, c, p, descCfg, descAddr, intEn);
    } else {
      SingleIsExact(r, c, p, intEn);
    }
  }

  /** Without prepare, a single transfer's interrupt mask is the parameter exactly when no
      other interrupt was enabled before; a linked list always starts from an empty mask. */
  lemma {:induction false} ConfigureAloneMask(d: Driver, dwChannel: uint32, p: Config, descCfg: uint32, descAddr: uint32, intEn: uint32)
    requires Valid(d) && Index(dwChannel) < d.numChannels
    requires d.channels[Index(dwChannel)].state !in {Free, Start}
    ensures ConfigureTransfer(d, dwChannel, p, descCfg, descAddr, intEn).0.regs.ch[Index(dwChannel)].cim == Named(intEn)
        <==> Coef(descCfg, 0) || d.regs.ch[Index(dwChannel)].cim <= Named(intEn)
  {
    DescriptorBits(descCfg);
    AllNamed(d.regs.ch[Index(dwChannel)].cim);
  }
}
