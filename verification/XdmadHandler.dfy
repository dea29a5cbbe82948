/** The exact effect of one run of the DMA interrupt handler, on the states, the
    registers and the callbacks. */
module XdmadHandler {
  import opened XdmacModel
  import opened XdmadModel

  /** The loop, started at channel i, gets to handle c: c is pending and neither it nor a
      pending channel before it is free. */
  predicate Reached(d: Driver, gis: set<nat>, i: nat, c: nat)
    requires Valid(d)
  {
    i <= c < d.numChannels && c in gis && forall j :: i <= j <= c && j in gis ==> d.channels[j].state != Free
  }

  predicate BecomesDone(d: Driver, gis: set<nat>, gs: set<nat>, i: nat, c: nat)
    requires Valid(d)
  {
    Reached(d, gis, i, c) && c !in gs && CompletesAt(d, c)
  }

  /** The driver after the handler, said of each channel on its own. */
  predicate IsEffect(d: Driver, gis: set<nat>, gs: set<nat>, i: nat, e: Driver)
    requires Valid(d)
  {
    && Valid(e)
    && (forall c :: 0 <= c < CHANNEL_NUM ==>
          e.channels[c] == if BecomesDone(d, gis, gs, i, c) then d.channels[c].(state := Done) else d.channels[c])
    && (forall c :: 0 <= c < CHANNEL_NUM ==>
          e.regs.ch[c] == if Reached(d, gis, i, c) then d.regs.ch[c].(cis := {}) else d.regs.ch[c])
    && e.regs.(ch := d.regs.ch) == d.regs
    && e.numChannels == d.numChannels && e.polling == d.polling
  }

  lemma ReachedShift(d: Driver, e: Driver, gis: set<nat>, i: nat, c: nat)
    requires Valid(d) && Valid(e) && d.numChannels == e.numChannels && c != i
    requires forall j :: i < j < CHANNEL_NUM ==> d.channels[j].state == e.channels[j].state
    requires i in gis && i < d.numChannels ==> d.channels[i].state != Free
    ensures Reached(d, gis, i, c) == Reached(e, gis, i + 1, c)
  {
    if Reached(e, gis, i + 1, c) {
      forall j | i <= j <= c && j in gis ensures d.channels[j].state != Free {
        if j != i { assert e.channels[j].state != Free; }
      }
    }
    if Reached(d, gis, i, c) {
      forall j | i + 1 <= j <= c && j in gis ensures e.channels[j].state != Free {
        assert d.channels[j].state != Free;
      }
    }
  }

  lemma RoundThenEffect(d: Driver, gis: set<nat>, gs: set<nat>, i: nat, e: Driver)
    requires Valid(d) && i < d.numChannels && i in gis && d.channels[i].state != Free
    requires IsEffect(Round(d, gs, i), gis, gs, i + 1, e)
    ensures IsEffect(d, gis, gs, i, e)
  {
    var m := Round(d, gs, i);
    forall c | 0 <= c < CHANNEL_NUM && c != i ensures Reached(d, gis, i, c) == Reached(m, gis, i + 1, c) {
      ReachedShift(d, m, gis, i, c);
    }
    assert Reached(d, gis, i, i) && !Reached(m, gis, i + 1, i);
  }

  /** The loop's effect, whatever the registers and the carried flag. */
  lemma {:induction false} LoopEffect(d: Driver, gis: set<nat>, gs: set<nat>, i: nat, bExec: bool)
    requires Valid(d)
    ensures IsEffect(d, gis, gs, i, HandlerFrom(d, gis, gs, i, bExec).0)
    decreases d.numChannels - i
  {
    if i >= d.numChannels {
    } else if i !in gis {
      LoopEffect(d, gis, gs, i + 1, bExec);
      forall c | 0 <= c < CHANNEL_NUM ensures Reached(d, gis, i, c) == Reached(d, gis, i + 1, c) {
        if c != i { ReachedShift(d, d, gis, i, c); }
      }
    } else if d.channels[i].state == Free {
      assert forall c :: i <= c < CHANNEL_NUM ==> !Reached(d, gis, i, c);
    } else {
      var carried := RoundFlag(d, gs, i, bExec);
      LoopEffect(Round(d, gs, i), gis, gs, i + 1, carried);
      RoundThenEffect(d, gis, gs, i, HandlerFrom(Round(d, gs, i), gis, gs, i + 1, carried).0);
    }
  }

  /** A channel becomes done exactly when its status bit is set, no pending channel up to
      it is free, it is no longer enabled, and its unmasked status ends a transfer; its
      status register is cleared exactly when it was handled; all else stays. */
  lemma HandlerIsExact(d: Driver)
    requires Valid(d)
    ensures IsEffect(d, d.regs.gis, d.regs.gs, 0, Handler(d).0)
  {
    LoopEffect(d, d.regs.gis, d.regs.gs, 0, false);
    if !exists c :: c in d.regs.gis && c < CHANNEL_NUM {
      assert forall c :: 0 <= c < CHANNEL_NUM ==> !Reached(d, d.regs.gis, 0, c);
    }
  }

  // ---- callbacks ------------------------------------------------------------------

  /** The flag as the loop finds it at channel c: what the last pending channel before c
      that was not enabled left in it. */
  predicate Carried(d: Driver, gis: set<nat>, gs: set<nat>, i: nat, bExec: bool, c: nat)
    requires Valid(d) && i <= c <= d.numChannels
    decreases c
  {
    if c == i then bExec
    else if c - 1 in gis && c - 1 !in gs then CompletesAt(d, c - 1)
    else Carried(d, gis, gs, i, bExec, c - 1)
  }

  /** The calls made for channel c, from the state on entry alone. */
  function CallsFor(d: Driver, gis: set<nat>, gs: set<nat>, i: nat, bExec: bool, c: nat): seq<Call>
    requires Valid(d) && i <= c < d.numChannels
  {
    if !Reached(d, gis, i, c) then []
    else if c !in gs then Calls(c, d.channels[c], false, CompletesAt(d, c))
    else Calls(c, d.channels[c], BlockEnd in d.regs.ch[c].cis, Carried(d, gis, gs, i, bExec, c))
  }

  /** The calls for channels k and up, in ascending order. */
  function CallsFrom(d: Driver, gis: set<nat>, gs: set<nat>, i: nat, bExec: bool, k: nat): seq<Call>
    requires Valid(d) && i <= k
    decreases d.numChannels - k
  {
    if k >= d.numChannels then []
    else CallsFor(d, gis, gs, i, bExec, k) + CallsFrom(d, gis, gs, i, bExec, k + 1)
  }

  lemma {:induction false} CarriedShift(d: Driver, e: Driver, gis: set<nat>, gs: set<nat>, i: nat, b: bool, b': bool, c: nat)
    requires Valid(d) && Valid(e) && d.numChannels == e.numChannels && i < c <= d.numChannels
    requires forall j :: i < j < CHANNEL_NUM ==> d.regs.ch[j] == e.regs.ch[j]
    requires b' == if i in gis && i !in gs then CompletesAt(d, i) else b
    ensures Carried(d, gis, gs, i, b, c) == Carried(e, gis, gs, i + 1, b', c)
    decreases c
  {
    if c > i + 1 { CarriedShift(d, e, gis, gs, i, b, b', c - 1); }
  }

  lemma {:induction false} CallsShift(d: Driver, e: Driver, gis: set<nat>, gs: set<nat>, i: nat, b: bool, b': bool, k: nat)
    requires Valid(d) && Valid(e) && d.numChannels == e.numChannels && i < k
    requires forall j :: i < j < CHANNEL_NUM ==> d.regs.ch[j] == e.regs.ch[j] && d.channels[j] == e.channels[j]
    requires i in gis ==> i < d.numChannels && d.channels[i].state != Free
    requires b' == if i < d.numChannels && i in gis && i !in gs then CompletesAt(d, i) else b
    ensures CallsFrom(d, gis, gs, i, b, k) == CallsFrom(e, gis, gs, i + 1, b', k)
    decreases d.numChannels - k
  {
    if k < d.numChannels {
      CallsShift(d, e, gis, gs, i, b, b', k + 1);
      CarriedShift(d, e, gis, gs, i, b, b', k);
      ReachedShift(d, e, gis, i, k);
    }
  }

  lemma {:induction false} NoCallsBehindFree(d: Driver, gis: set<nat>, gs: set<nat>, i: nat, b: bool, k: nat)
    requires Valid(d) && i <= k && i in gis && i < d.numChannels && d.channels[i].state == Free
    ensures CallsFrom(d, gis, gs, i, b, k) == []
    decreases d.numChannels - k
  {
    if k < d.numChannels {
      NoCallsBehindFree(d, gis, gs, i, b, k + 1);
      assert !Reached(d, gis, i, k);
    }
  }

  /** The loop's calls, in order, from the state on entry alone. */
  lemma {:induction false} LoopCalls(d: Driver, gis: set<nat>, gs: set<nat>, i: nat, bExec: bool)
    requires Valid(d)
    ensures HandlerFrom(d, gis, gs, i, bExec).1 == CallsFrom(d, gis, gs, i, bExec, i)
    decreases d.numChannels - i
  {
    if i >= d.numChannels {
    } else if i !in gis {
      LoopCalls(d, gis, gs, i + 1, bExec);
      CallsShift(d, d, gis, gs, i, bExec, bExec, i + 1);
      assert !Reached(d, gis, i, i);
    } else if d.channels[i].state == Free {
      NoCallsBehindFree(d, gis, gs, i, bExec, i);
    } else {
      var carried := RoundFlag(d, gs, i, bExec);
      var e := Round(d, gs, i);
      LoopCalls(e, gis, gs, i + 1, carried);
      assert CallsFrom(e, gis, gs, i + 1, carried, i + 1) == CallsFrom(d, gis, gs, i, bExec, i + 1) by {
        CallsShift(d, e, gis, gs, i, bExec, carried, i + 1);
      }
      assert CallsFor(d, gis, gs, i, bExec, i) == RoundCalls(d, gs, i, bExec) by { assert Reached(d, gis, i, i); }
    }
  }

  /** One handler run calls back, in ascending channel order, exactly as CallsFor says. */
  lemma {:induction false} HandlerCallsAreExact(d: Driver)
    requires Valid(d)
    ensures Handler(d).1 == CallsFrom(d, d.regs.gis, d.regs.gs, 0, false, 0)
  {
    if exists c :: c in d.regs.gis && c < CHANNEL_NUM {
      LoopCalls(d, d.regs.gis, d.regs.gs, 0, false);
    } else {
      NothingPending(d, 0);
    }
  }

  lemma {:induction false} NothingPending(d: Driver, k: nat)
    requires Valid(d) && !exists c :: c in d.regs.gis && c < CHANNEL_NUM
    ensures CallsFrom(d, d.regs.gis, d.regs.gs, 0, false, k) == []
    decreases d.numChannels - k
  {
    if k < d.numChannels { NothingPending(d, k + 1); }
  }

  lemma {:induction false} CallMembers(d: Driver, gis: set<nat>, gs: set<nat>, k: nat, x: Call)
    requires Valid(d)
    ensures x in CallsFrom(d, gis, gs, 0, false, k)
        <==> k <= x.channel < d.numChannels && x in CallsFor(d, gis, gs, 0, false, x.channel)
    decreases d.numChannels - k
  {
    if k < d.numChannels { CallMembers(d, gis, gs, k + 1, x); }
  }

  /** The handler calls through a NULL pointer exactly when a channel it handles is still
      enabled, shows the end of a block, and has no callback. */
  lemma NullCalls(d: Driver)
    requires Valid(d)
    ensures (exists x :: x in Handler(d).1 && x.callback == NULL)
        <==> exists c :: 0 <= c < d.numChannels && Reached(d, d.regs.gis, 0, c) && c in d.regs.gs
                         && BlockEnd in d.regs.ch[c].cis && d.channels[c].callback == NULL
  {
    var gis, gs := d.regs.gis, d.regs.gs;
    HandlerCallsAreExact(d);
    if x :| x in Handler(d).1 && x.callback == NULL {
      CallMembers(d, gis, gs, 0, x);
    }
    if c :| 0 <= c < d.numChannels && Reached(d, gis, 0, c) && c in gs
            && BlockEnd in d.regs.ch[c].cis && d.channels[c].callback == NULL {
      var x := Call(c, d.channels[c].callback, d.channels[c].arg);
      CallMembers(d, gis, gs, 0, x);
      assert x in CallsFor(d, gis, gs, 0, false, c);
    }
  }

  /** Channel a completes and every pending channel between it and c is still enabled, so
      that the flag a sets is the one the loop finds at c. */
  predicate FlagReaches(d: Driver, a: nat, c: nat)
    requires Valid(d) && c <= d.numChannels
  {
    && a < c && a in d.regs.gis && a !in d.regs.gs && CompletesAt(d, a)
    && forall j :: a < j < c && j in d.regs.gis ==> j in d.regs.gs
  }

  lemma {:induction false} CarriedIff(d: Driver, c: nat)
    requires Valid(d) && c <= d.numChannels
    ensures Carried(d, d.regs.gis, d.regs.gs, 0, false, c) <==> exists a: nat :: FlagReaches(d, a, c)
    decreases c
  {
    if c > 0 {
      var b := c - 1;
      CarriedIff(d, b);
      if b in d.regs.gis && b !in d.regs.gs {
        assert CompletesAt(d, b) ==> FlagReaches(d, b, c);
      } else {
        forall a: nat ensures FlagReaches(d, a, b) == FlagReaches(d, a, c) {
          if FlagReaches(d, a, b) { assert forall j :: a < j < c && j in d.regs.gis ==> j in d.regs.gs; }
        }
      }
    }
  }

  /** The loop handles the enabled channel c, of which no block ended, with a's flag. */
  ghost predicate Leaks(d: Driver, a: nat, c: nat)
    requires Valid(d)
  {
    && c < d.numChannels && Reached(d, d.regs.gis, 0, c) && c in d.regs.gs
    && BlockEnd !in d.regs.ch[c].cis && d.channels[c].callback != NULL
    && FlagReaches(d, a, c)
  }

  /** A call for a channel that is still enabled and of which no block ended. */
  ghost predicate IsUndue(d: Driver, x: Call)
    requires Valid(d)
  {
    x.channel < CHANNEL_NUM && x.channel in d.regs.gs && BlockEnd !in d.regs.ch[x.channel].cis
  }

  /** A running channel is called back for nothing of its own exactly when the loop handles
      it with a flag left by a channel that completed before it in the same run. */
  lemma FlagLeaksIff(d: Driver)
    requires Valid(d)
    ensures (exists x :: x in Handler(d).1 && IsUndue(d, x)) <==> exists a: nat, c: nat :: Leaks(d, a, c)
  {
    HandlerCallsAreExact(d);
    if x :| x in Handler(d).1 && IsUndue(d, x) {
      CallMembers(d, d.regs.gis, d.regs.gs, 0, x);
      CarriedIff(d, x.channel);
      var a: nat :| FlagReaches(d, a, x.channel);
      assert Leaks(d, a, x.channel);
    }
    if a: nat, c: nat :| Leaks(d, a, c) {
      FlagLeaksToRunningChannel(d, a, c);
      assert IsUndue(d, Call(c, d.channels[c].callback, d.channels[c].arg));
    }
  }

  /** The call, and that the handler leaves the channel itself running. */
  lemma FlagLeaksToRunningChannel(d: Driver, a: nat, c: nat)
    requires Valid(d) && c < d.numChannels && Reached(d, d.regs.gis, 0, c) && FlagReaches(d, a, c)
    requires c in d.regs.gs && d.channels[c].callback != NULL
    ensures Call(c, d.channels[c].callback, d.channels[c].arg) in Handler(d).1
    ensures Handler(d).0.channels[c] == d.channels[c]
  {
    var x := Call(c, d.channels[c].callback, d.channels[c].arg);
    HandlerCallsAreExact(d);
    HandlerIsExact(d);
    CarriedIff(d, c);
    CallMembers(d, d.regs.gis, d.regs.gs, 0, x);
    assert x in CallsFor(d, d.regs.gis, d.regs.gs, 0, false, c);
  }
}
