/** What each call of the DMA driver promises, said of bits, states and table entries alone;
    a channel handle is any word whose low byte is the channel. */
module XdmadOperations {
  import opened Gf2
  import opened UInt
  import opened XdmacBits
  import opened XdmacModel
  import opened XdmadModel
  import opened XdmadHandler
  import C = XdmadConfigure
  import H = XdmaHardwareInterface

  /** A handle names channel c of some controller. */
  ghost predicate Handle(dw: uint32, c: nat) {
    c < 0x100 && exists controller: nat :: dw == 0x100 * controller + c
  }

  lemma HandleIndex(dw: uint32, c: nat)
    ensures Handle(dw, c) <==> Index(dw) == c
  {
    assert dw == 0x100 * (dw / 0x100) + dw % 0x100;
  }

  /** n is the low five bits of the word. */
  ghost predicate LowFiveBits(n: nat, word: uint32) {
    forall k: nat :: Coef(n, k) == (k < 5 && Coef(word, k))
  }

  /** The number of channels is one more than the low five bits of the type register. */
  lemma CountBits(gtype: uint32)
    ensures ChannelCount(gtype) > 0 && LowFiveBits(ChannelCount(gtype) - 1, gtype)
  {
    Widths();
    assert Pow2(8) == 2 * Pow2(7) && Pow2(7) == 2 * Pow2(6) && Pow2(6) == 2 * Pow2(5);
    forall k: nat ensures Coef(ChannelCount(gtype) - 1, k) == (k < 5 && Coef(gtype, k)) {
      LowBits(gtype, 5, k);
    }
  }

  // ---- starting, stopping, preparing ------------------------------------------------------

  /** An accepted start enables the channel and, outside polling mode, its global interrupt,
      and no other's; it withdraws a disable request of that channel alone. */
  lemma StartEnables(d: Driver, dw: uint32, c: nat, j: nat)
    requires Valid(d) && Handle(dw, c)
    ensures var (e, rc) := StartTransfer(d, dw);
            && (rc == Ok <==> c < d.numChannels && d.channels[c].state !in {Free, Start})
            && (rc == Busy <==> c < d.numChannels && d.channels[c].state == Start)
            && (rc != Ok ==> e == d)
            && (rc == Ok ==>
                  && (j in e.regs.gs <==> j in d.regs.gs || j == c)
                  && (j in e.regs.gim <==> j in d.regs.gim || (j == c && !d.polling))
                  && (j in e.regs.disabling <==> j in d.regs.disabling && j != c)
                  && e.regs.ch == d.regs.ch && e.regs.gis == d.regs.gis
                  && e.channels == d.channels[c := d.channels[c].(state := Start)])
  {
    HandleIndex(dw, c);
  }

  /** A stop requests the disabling of the channel, clears its mask and status, and leaves
      every other channel, and what is enabled, as it was. */
  lemma StopDisables(d: Driver, dw: uint32, c: nat, j: nat, i: Irq)
    requires Valid(d) && Handle(dw, c) && c < d.numChannels && j < CHANNEL_NUM
    ensures var (e, rc) := StopTransfer(d, dw);
            && rc == Ok
            && e.channels == d.channels[c := d.channels[c].(state := Halted)]
            && (j in e.regs.disabling <==> j in d.regs.disabling || j == c)
            && (i in e.regs.ch[j].cim <==> i in d.regs.ch[j].cim && j != c)
            && (i in e.regs.ch[j].cis <==> i in d.regs.ch[j].cis && j != c)
            && e.regs.gs == d.regs.gs && e.regs.gim == d.regs.gim
  {
    HandleIndex(dw, c);
    DisableItBits(DisableChannel(d.regs, c), c, 0xFF, j, i);
    LowBitsSet(i);
  }

  lemma LowBitsSet(i: Irq)
    ensures Coef(0xFF, Position(i))
  {
    NamedByBit(0xFF, i);
  }

  /** An accepted prepare takes away the channel's global interrupt, requests its disabling,
      and clears its mask and status; it touches no other channel and no state. */
  lemma PrepareDisables(d: Driver, dw: uint32, c: nat, j: nat, i: Irq)
    requires Valid(d) && Handle(dw, c) && j < CHANNEL_NUM
    ensures var (e, rc) := PrepareChannel(d, dw);
            && (rc == Ok <==> c < d.numChannels && d.channels[c].state !in {Free, Start, InXfr})
            && (rc == Busy <==> c < d.numChannels && d.channels[c].state in {Start, InXfr})
            && e.channels == d.channels && (rc != Ok ==> e == d)
            && (rc == Ok ==>
                  && (j in e.regs.gim <==> j in d.regs.gim && j != c)
                  && (j in e.regs.disabling <==> j in d.regs.disabling || j == c)
                  && (i in e.regs.ch[j].cim <==> i in d.regs.ch[j].cim && j != c)
                  && (i in e.regs.ch[j].cis <==> i in d.regs.ch[j].cis && j != c)
                  && e.regs.gs == d.regs.gs && (j != c ==> e.regs.ch[j] == d.regs.ch[j]))
  {
    HandleIndex(dw, c);
    if c < d.numChannels {
      C.PrepareIsExact(d.regs, c);
    }
  }

  // ---- states and answers -------------------------------------------------------------------

  /** A free makes the channel FREE and answers OK exactly when it is finished, halted or free
      already; an allocated or running channel answers BUSY and stays. */
  lemma FreeOutcome(d: Driver, dw: uint32, c: nat)
    requires Valid(d) && Handle(dw, c)
    ensures var (e, rc) := FreeChannel(d, dw);
            && (rc == Ok <==> c < d.numChannels && d.channels[c].state in {Done, Halted, Free})
            && (rc == Busy <==> c < d.numChannels && d.channels[c].state in {Allocated, Start, InXfr})
            && e == if rc == Ok then d.(channels := d.channels[c := d.channels[c].(state := Free)]) else d
  {
    HandleIndex(dw, c);
    if c < d.numChannels { assert d.channels == d.channels[c := d.channels[c]]; }
  }

  /** Transfer-done answers OK exactly for a finished or a fresh allocated channel, ERROR
      exactly for one that is free or does not exist, and BUSY otherwise; only a BUSY answer
      in polling mode runs the handler. */
  lemma TransferDoneAnswers(d: Driver, dw: uint32, c: nat)
    requires Valid(d) && Handle(dw, c)
    ensures var (e, rc, calls) := IsTransferDone(d, dw);
            && (rc == Ok <==> c < d.numChannels && d.channels[c].state in {Allocated, Done})
            && (rc == Error <==> c >= d.numChannels || d.channels[c].state == Free)
            && (e, calls) == if rc == Busy && d.polling then Handler(d) else (d, [])
  {
    HandleIndex(dw, c);
  }

  // ---- allocation --------------------------------------------------------------------------

  /** An allocation succeeds exactly when one side is memory, the other is memory or listed up
      to the last index, and some channel is free. */
  lemma AllocatesIff(d: Driver, table: seq<H.HwIf>, last: nat, src: uint8, dst: uint8)
    requires Valid(d) && last < |table|
    ensures AllocateChannel(d, table, last, src, dst).1 != 0xFFFF
        <==> && ((src == 0xFF && dst == 0xFF)
                 || (src == 0xFF && exists k :: 0 <= k <= last && table[k].periphId == dst)
                 || (dst == 0xFF && exists k :: 0 <= k <= last && table[k].periphId == src))
             && exists c :: 0 <= c < d.numChannels && d.channels[c].state == Free
  {
  }

  /** Entry k is the first one up to last for a peripheral and a direction. */
  predicate FirstEntry(table: seq<H.HwIf>, last: nat, periphId: uint8, transfer: uint8, k: nat)
    requires last < |table|
  {
    && k <= last && table[k].periphId == periphId && table[k].transfer == transfer
    && forall j :: 0 <= j < k ==> !(table[j].periphId == periphId && table[j].transfer == transfer)
  }

  /** The interface recorded for a peripheral and a direction: that of its first entry, or
      0xFF without one. */
  ghost predicate Records(table: seq<H.HwIf>, last: nat, periphId: uint8, transfer: uint8, ifId: uint8)
    requires last < |table|
  {
    && (forall k: nat :: FirstEntry(table, last, periphId, transfer, k) ==> ifId == table[k].ifId)
    && ((forall k: nat :: !FirstEntry(table, last, periphId, transfer, k)) ==> ifId == 0xFF)
  }

  lemma InterfaceRecords(table: seq<H.HwIf>, last: nat, periphId: uint8, transfer: uint8)
    requires last < |table|
    ensures Records(table, last, periphId, transfer, H.Interface(table, last, periphId, transfer))
  {
    forall k: nat | FirstEntry(table, last, periphId, transfer, k)
      ensures H.Interface(table, last, periphId, transfer) == table[k].ifId
    {
      H.InterfaceIsFirstMatch(table, last, periphId, transfer, k);
    }
    if forall k: nat :: !FirstEntry(table, last, periphId, transfer, k) {
      NoEntry(table, last, periphId, transfer, last + 1);
      H.InterfaceIsFirstMatch(table, last, periphId, transfer, 0);
    }
  }

  lemma {:induction false} NoEntry(table: seq<H.HwIf>, last: nat, periphId: uint8, transfer: uint8, n: nat)
    requires last < |table| && n <= last + 1 && forall k: nat :: !FirstEntry(table, last, periphId, transfer, k)
    ensures forall j :: 0 <= j < n ==> !(table[j].periphId == periphId && table[j].transfer == transfer)
  {
    if n > 0 {
      NoEntry(table, last, periphId, transfer, n - 1);
      assert !FirstEntry(table, last, periphId, transfer, n - 1);
    }
  }

  /** A successful allocation takes the lowest free channel and no other; it records the pair
      and, for source and destination each, the transmit interface (direction 0) and the
      receive interface (direction 1). Callback, argument and registers stay. */
  lemma AllocationRecords(d: Driver, table: seq<H.HwIf>, last: nat, src: uint8, dst: uint8)
    requires Valid(d) && last < |table| && AllocateChannel(d, table, last, src, dst).1 != 0xFFFF
    ensures var (e, c) := AllocateChannel(d, table, last, src, dst);
            && c < d.numChannels && d.channels[c].state == Free
            && (forall j :: 0 <= j < c ==> d.channels[j].state != Free)
            && Valid(e) && e == d.(channels := d.channels[c := e.channels[c]])
            && var ch := e.channels[c];
               && ch.state == Allocated && ch.callback == d.channels[c].callback && ch.arg == d.channels[c].arg
               && ch.srcPeriphId == src && ch.dstPeriphId == dst
               && Records(table, last, src, 0, ch.srcTxIfId) && Records(table, last, src, 1, ch.srcRxIfId)
               && Records(table, last, dst, 0, ch.dstTxIfId) && Records(table, last, dst, 1, ch.dstRxIfId)
  {
    InterfaceRecords(table, last, src, 0);
    InterfaceRecords(table, last, src, 1);
    InterfaceRecords(table, last, dst, 0);
    InterfaceRecords(table, last, dst, 1);
  }

  // ---- completion ----------------------------------------------------------------------------

  /** The loop gets to pending channel c: no pending channel up to it is free. */
  predicate Handled(d: Driver, c: nat)
    requires Valid(d)
  {
    c < d.numChannels && c in d.regs.gis && forall j :: 0 <= j <= c && j in d.regs.gis ==> d.channels[j].state != Free
  }

  /** A status word under a mask word: end of list (bit 1) or end of disable (bit 2), or end of
      block (bit 0) while the mask lacks bit 1. */
  predicate EndsTransfer(cis: uint32, cim: uint32) {
    || (Coef(cis, 1) && Coef(cim, 1))
    || (Coef(cis, 2) && Coef(cim, 2))
    || (Coef(cis, 0) && Coef(cim, 0) && !Coef(cim, 1))
  }

  function IrqAt(k: nat): Irq
    requires k < 7
  {
    match k
    case 0 => BlockEnd
    case 1 => ListEnd
    case 2 => DisableEnd
    case 3 => FlushEnd
    case 4 => ReadError
    case 5 => WriteError
    case 6 => RequestOverflow
  }

  /** The bits from k up. */
  function WordFrom(s: set<Irq>, k: nat): (w: nat)
    requires k <= 7
    decreases 7 - k
  {
    if k == 7 then 0 else (if IrqAt(k) in s then 1 else 0) + 2 * WordFrom(s, k + 1)
  }

  lemma {:induction false} WordFromBits(s: set<Irq>, k: nat, n: nat)
    requires k <= 7
    ensures Coef(WordFrom(s, k), n) <==> k + n < 7 && IrqAt(k + n) in s
    ensures k > 0 ==> 2 * WordFrom(s, k) < Pow2(8 - k)
    decreases 7 - k
  {
    if k == 7 {
      CoefZero(n);
    } else {
      WordFromBits(s, k + 1, if n > 0 then n - 1 else 0);
      assert WordFrom(s, k) / 2 == WordFrom(s, k + 1);
    }
  }

  /** Every status and mask register holds some byte. */
  lemma RegisterWord(s: set<Irq>) returns (w: uint32)
    ensures w < 0x100 && Named(w) == s
  {
    WordFromBits(s, 1, 0);
    Widths();
    assert Pow2(8) == 2 * Pow2(7);
    w := WordFrom(s, 0);
    forall i: Irq ensures i in Named(w) <==> i in s {
      NamedByBit(w, i);
      WordFromBits(s, 0, Position(i));
      assert IrqAt(Position(i)) == i;
    }
  }

  lemma WordsComplete(cis: uint32, cim: uint32)
    ensures Completes(Named(cis), Named(cim)) <==> EndsTransfer(cis, cim)
  {
    NamedByBit(cis, BlockEnd);
    NamedByBit(cis, ListEnd);
    NamedByBit(cis, DisableEnd);
    NamedByBit(cim, BlockEnd);
    NamedByBit(cim, ListEnd);
    NamedByBit(cim, DisableEnd);
  }

  /** The calls made for channel c, in order. */
  function CallsOf(calls: seq<Call>, c: nat): seq<Call> {
    if calls == [] then []
    else (if calls[0].channel == c then [calls[0]] else []) + CallsOf(calls[1..], c)
  }

  lemma CallsOfHead(x: Call, rest: seq<Call>, c: nat)
    ensures CallsOf([x] + rest, c) == (if x.channel == c then [x] else []) + CallsOf(rest, c)
  {
    assert ([x] + rest)[1..] == rest;
  }

  lemma {:induction false} CallsOfConcat(a: seq<Call>, b: seq<Call>, c: nat)
    ensures CallsOf(a + b, c) == CallsOf(a, c) + CallsOf(b, c)
  {
    if a == [] {
      assert a + b == b;
    } else {
      CallsOfConcat(a[1..], b, c);
      CallsOfHead(a[0], a[1..], c);
      CallsOfHead(a[0], a[1..] + b, c);
      assert a == [a[0]] + a[1..] && a + b == [a[0]] + (a[1..] + b);
    }
  }

  lemma {:induction false} AllOrNone(calls: seq<Call>, k: nat, c: nat)
    requires forall x :: x in calls ==> x.channel == k
    ensures CallsOf(calls, c) == if c == k then calls else []
  {
    if calls != [] {
      assert calls[0] in calls;
      AllOrNone(calls[1..], k, c);
    }
  }

  lemma CallsForOne(d: Driver, gis: set<nat>, gs: set<nat>, k: nat)
    requires Valid(d) && k < d.numChannels
    ensures forall x :: x in CallsFor(d, gis, gs, 0, false, k) ==> x.channel == k
  {
  }

  lemma {:induction false} CallsOfLoop(d: Driver, gis: set<nat>, gs: set<nat>, k: nat, c: nat)
    requires Valid(d)
    ensures CallsOf(CallsFrom(d, gis, gs, 0, false, k), c)
         == if k <= c < d.numChannels then CallsFor(d, gis, gs, 0, false, c) else []
    decreases d.numChannels - k
  {
    if k < d.numChannels {
      CallsOfLoop(d, gis, gs, k + 1, c);
      var here, rest := CallsFor(d, gis, gs, 0, false, k), CallsFrom(d, gis, gs, 0, false, k + 1);
      CallsOfConcat(here, rest, c);
      CallsForOne(d, gis, gs, k);
      AllOrNone(here, k, c);
      assert here + [] == here && [] + CallsOf(rest, c) == CallsOf(rest, c);
    }
  }

  /** Handling a channel that is no longer enabled makes it DONE exactly when its status ends a
      transfer under its mask, and calls its callback, if there is one, exactly once in that
      case and not at all otherwise. */
  lemma {:induction false} CompletionIff(d: Driver, c: nat, cis: uint32, cim: uint32)
    requires Valid(d) && Handled(d, c) && c !in d.regs.gs
    requires d.regs.ch[c].cis == Named(cis) && d.regs.ch[c].cim == Named(cim)
    ensures var (e, calls) := Handler(d);
            && Valid(e) && e.numChannels == d.numChannels
            && e.channels[c] == (if EndsTransfer(cis, cim) then d.channels[c].(state := Done) else d.channels[c])
            && CallsOf(calls, c) == (if EndsTransfer(cis, cim) && d.channels[c].callback != 0
                                     then [Call(c, d.channels[c].callback, d.channels[c].arg)] else [])
  {
    assert Reached(d, d.regs.gis, 0, c);
    WordsComplete(cis, cim);
    HandlerIsExact(d);
    HandlerCallsAreExact(d);
    CallsOfLoop(d, d.regs.gis, d.regs.gs, 0, c);
  }

  /** A channel that is still enabled keeps its state, and gets one call of its own exactly
      when its status, masked or not, shows the end of a block. */
  lemma {:induction false} RunningChannel(d: Driver, c: nat, cis: uint32)
    requires Valid(d) && Handled(d, c) && c in d.regs.gs && d.regs.ch[c].cis == Named(cis)
    requires forall a: nat :: !FlagReaches(d, a, c)
    ensures var (e, calls) := Handler(d);
            && Valid(e) && e.channels[c] == d.channels[c]
            && CallsOf(calls, c) == if Coef(cis, 0) then [Call(c, d.channels[c].callback, d.channels[c].arg)] else []
  {
    assert Reached(d, d.regs.gis, 0, c);
    NamedByBit(cis, BlockEnd);
    HandlerIsExact(d);
    HandlerCallsAreExact(d);
    CallsOfLoop(d, d.regs.gis, d.regs.gs, 0, c);
    CarriedIff(d, c);
  }
}
