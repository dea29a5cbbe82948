/** A transfer from end to end: set the callback, prepare, configure, start, let the hardware
    act, handle the interrupt or poll, and ask whether it is done. */
module XdmadTransfers {
  import opened Gf2
  import opened UInt
  import opened XdmacBits
  import opened XdmacModel
  import opened XdmadModel
  import opened XdmadOperations
  import opened XdmadSteps
  import C = XdmadConfigure

  /** What a client asks for. */
  datatype Request = Request(callback: nat, arg: nat, p: Config, descCfg: uint32, descAddr: uint32, intEn: uint32)

  /** The four calls, and their answers. */
  function Launch(d: Driver, dw: uint32, q: Request): (r: (Driver, seq<Status>))
    requires Valid(d)
    ensures Valid(r.0)
  {
    var (d1, rc1) := SetCallback(d, dw, q.callback, q.arg);
    var (d2, rc2) := PrepareChannel(d1, dw);
    var (d3, rc3) := ConfigureTransfer(d2, dw, q.p, q.descCfg, q.descAddr, q.intEn);
    var (d4, rc4) := StartTransfer(d3, dw);
    (d4, [rc1, rc2, rc3, rc4])
  }

  /** On a channel that is allocated, finished or halted all four succeed. The channel is
      enabled with no disable request left, its mask is the interrupts asked for, no old status
      is left, its global interrupt is on exactly outside polling mode, callback and argument
      are the given ones, and transfer-done answers BUSY. Other channels are as before. */
  lemma {:induction false} LaunchOutcome(d: Driver, dw: uint32, c: nat, q: Request, i: Irq, j: nat)
    requires Valid(d) && Handle(dw, c) && c < d.numChannels && d.channels[c].state in {Allocated, Done, Halted}
    requires j < CHANNEL_NUM
    ensures var (e, answers) := Launch(d, dw, q);
            && answers == [Ok, Ok, Ok, Ok]
            && e.numChannels == d.numChannels && e.polling == d.polling
            && e.channels == d.channels[c := d.channels[c].(state := Start, callback := q.callback, arg := q.arg)]
            && (j in e.regs.gs <==> j in d.regs.gs || j == c)
            && (j in e.regs.gim <==> if j == c then !d.polling else j in d.regs.gim)
            && (j in e.regs.disabling <==> j in d.regs.disabling && j != c)
            && (i in e.regs.ch[c].cim <==> Coef(q.intEn, Position(i))) && e.regs.ch[c].cis == {}
            && (j != c ==> e.regs.ch[j] == d.regs.ch[j])
            && IsTransferDone(e, dw).1 == Busy
  {
    HandleIndex(dw, c);
    var d1 := SetCallback(d, dw, q.callback, q.arg).0;
    C.PrepareThenConfigure(d1, dw, q.p, q.descCfg, q.descAddr, q.intEn);
    NamedByBit(q.intEn, i);
    var d3 := ConfigureTransfer(PrepareChannel(d1, dw).0, dw, q.p, q.descCfg, q.descAddr, q.intEn).0;
    StartEnables(d3, dw, c, j);
    TransferDoneAnswers(StartTransfer(d3, dw).0, dw, c);
  }

  lemma LaunchedMask(d: Driver, dw: uint32, c: nat, q: Request)
    requires Valid(d) && Handle(dw, c) && c < d.numChannels && d.channels[c].state in {Allocated, Done, Halted}
    ensures Launch(d, dw, q).0.regs.ch[c].cim == Named(q.intEn)
  {
    forall i: Irq ensures i in Launch(d, dw, q).0.regs.ch[c].cim <==> i in Named(q.intEn) {
      LaunchOutcome(d, dw, c, q, i, c);
      NamedByBit(q.intEn, i);
    }
  }

  /** The hardware's part: the channel is pending and no longer enabled, its status is the word
      cis, and no lower pending channel is free. */
  ghost predicate Signals(d: Driver, r: Regs, c: nat, cis: uint32)
    requires Valid(d)
  {
    && HardwareMay(d.regs, r) && c < CHANNEL_NUM && c in r.gis && c !in r.gs && r.ch[c].cis == Named(cis)
    && forall j :: 0 <= j < c && j in r.gis ==> d.channels[j].state != Free
  }

  /** Whatever the registers held and whatever the parameters, in interrupt mode: after the
      handler, transfer-done answers OK exactly when the status ends the transfer under the
      interrupts asked for, and in that case and no other the callback is called, once, with
      its argument. */
  lemma {:induction false} TransferDoneIff(d: Driver, dw: uint32, c: nat, q: Request, r: Regs, cis: uint32)
    requires Valid(d) && Handle(dw, c) && c < d.numChannels && d.channels[c].state in {Allocated, Done, Halted}
    requires Signals(Launch(d, dw, q).0, r, c, cis)
    ensures var (f, calls) := Handler(Launch(d, dw, q).0.(regs := r));
            && IsTransferDone(f, dw).1 == (if EndsTransfer(cis, q.intEn) then Ok else Busy)
            && CallsOf(calls, c)
            == if EndsTransfer(cis, q.intEn) && q.callback != 0 then [Call(c, q.callback, q.arg)] else []
  {
    LaunchOutcome(d, dw, c, q, BlockEnd, c);
    LaunchedMask(d, dw, c, q);
    var e := Launch(d, dw, q).0.(regs := r);
    assert Handled(e, c);
    CompletionIff(e, c, cis, q.intEn);
    TransferDoneAnswers(Handler(e).0, dw, c);
  }

  /** In polling mode the question that finds the transfer finished is still answered BUSY, but
      has run the handler; the next one is answered OK exactly as above. */
  lemma {:induction false} PollTwice(d: Driver, dw: uint32, c: nat, q: Request, r: Regs, cis: uint32)
    requires Valid(d) && Handle(dw, c) && c < d.numChannels && d.channels[c].state in {Allocated, Done, Halted}
    requires d.polling && Signals(Launch(d, dw, q).0, r, c, cis)
    ensures var (f, rc, calls) := IsTransferDone(Launch(d, dw, q).0.(regs := r), dw);
            && rc == Busy
            && IsTransferDone(f, dw).1 == (if EndsTransfer(cis, q.intEn) then Ok else Busy)
            && CallsOf(calls, c)
            == if EndsTransfer(cis, q.intEn) && q.callback != 0 then [Call(c, q.callback, q.arg)] else []
  {
    LaunchOutcome(d, dw, c, q, BlockEnd, c);
    TransferDoneIff(d, dw, c, q, r, cis);
    TransferDoneAnswers(Launch(d, dw, q).0.(regs := r), dw, c);
  }

  /** Which statuses end a transfer asked for with the block interrupt alone, the list interrupt
      alone, and both: with both, the end of a block no longer does. */
  lemma CommonMasks(cis: uint32)
    ensures EndsTransfer(cis, 1) <==> Coef(cis, 0)
    ensures EndsTransfer(cis, 2) <==> Coef(cis, 1)
    ensures EndsTransfer(cis, 3) <==> Coef(cis, 1)
  {
    assert Coef(1, 0) && !Coef(2, 0) && Coef(3, 0);
    C.CoefHalf(1, 0);
    C.CoefHalf(2, 0);
    C.CoefHalf(3, 0);
    C.CoefHalf(1, 1);
    C.CoefHalf(2, 1);
    C.CoefHalf(3, 1);
    CoefZero(0);
    CoefZero(1);
    C.CoefHalf(1 / 2, 0);
    C.CoefHalf(2 / 2, 0);
    C.CoefHalf(3 / 2, 0);
  }
}
