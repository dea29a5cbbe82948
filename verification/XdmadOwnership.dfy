/** Exclusive ownership of channels over every run of the single accesses of XdmadSteps, by
    clients that stop, free and start only channels they hold; and what happens otherwise. */
module XdmadOwnership {
  import opened UInt
  import opened XdmacModel
  import opened XdmadModel
  import opened XdmadHandler
  import opened XdmadSteps

  // ---- the invariant ----------------------------------------------------------------

  ghost predicate IsFree(w: World, c: nat)
    requires Shape(w)
  {
    c < w.d.numChannels && w.d.channels[c].state == Free
  }

  ghost predicate Over(w: World, c: nat)
    requires Shape(w)
  {
    c < w.d.numChannels && w.d.channels[c].state in {Done, Halted}
  }

  ghost predicate Holds(w: World, p: nat, c: nat)
    requires Shape(w)
  {
    p < |w.held| && c in w.held[p]
  }

  /** A channel is held by at most one client, and by one exactly when it is not free. */
  ghost predicate Ownership(w: World)
    requires Shape(w)
  {
    && (forall p, c: nat :: Holds(w, p, c) ==> c < w.d.numChannels && !IsFree(w, c))
    && (forall p, q, c :: Holds(w, p, c) && Holds(w, q, c) ==> p == q)
    && (forall c: nat :: c < w.d.numChannels && !IsFree(w, c) ==> exists p :: Holds(w, p, c))
  }

  /** An access to come: state writes are to held channels, and a channel about to be marked
      free has been found finished or stopped. */
  ghost predicate Rightful(w: World, p: nat, a: Access)
    requires Shape(w)
  {
    && (a.WriteState? ==> Holds(w, p, a.c))
    && (a.WriteState? && a.s == Free ==> Over(w, a.c))
    && (IsTest(a) && (a.op.Begin? || a.op.Release?) ==> Holds(w, p, Index(a.op.dw)))
  }

  ghost predicate PcInv(w: World, p: nat)
    requires Shape(w) && p < |w.pc|
  {
    && (Inside(w.pc[p]) ==> w.lock == LockedBy(p))
    && (w.pc[p].Taking? ==> IsFree(w, w.pc[p].i))
    && (w.pc[p].Calling? ==>
          var todo := w.pc[p].todo;
          && (forall k :: 0 <= k < |todo| ==> Rightful(w, p, todo[k]))
          && (forall k :: 0 <= k < |todo| && todo[k].WriteState? && todo[k].s == Free ==> |todo| == 1))
  }

  ghost predicate Inv(w: World) {
    Shape(w) && Ownership(w) && forall p: nat :: p < |w.pc| ==> PcInv(w, p)
  }

  // ---- the rule ---------------------------------------------------------------------------

  ghost predicate MayUse(w: World, p: nat, dw: uint32)
    requires Shape(w)
  {
    Index(dw) >= w.d.numChannels || Holds(w, p, Index(dw))
  }

  /** Clients stop, free and start only channels they hold, or no channel at all. */
  ghost predicate Follows(w: World, s: Step)
    requires Shape(w)
  {
    s.Enter? && (s.op.Stop? || s.op.Release? || s.op.Begin?) ==> MayUse(w, s.p, s.op.dw)
  }

  ghost predicate Obeys(w: World, ss: seq<Step>, t: Table)
    requires Shape(w) && t.last < |t.entries| && IsRun(w, ss, t)
    decreases |ss|
  {
    ss == [] || (Follows(w, ss[0]) && (DoKeepsShape(w, ss[0], t); Obeys(Do(w, ss[0], t), ss[1..], t)))
  }

  // ---- every step keeps the invariant ----------------------------------------------------

  /** A step of client p, or of nobody, that changes neither who holds what nor what is
      free, and finished channels of others stay finished. */
  lemma QuietStepKeepsInv(w: World, v: World, p: nat)
    requires Inv(w) && Shape(v) && |v.pc| == |w.pc| && v.held == w.held && v.d.numChannels == w.d.numChannels
    requires forall q :: 0 <= q < |w.pc| && q != p ==> v.pc[q] == w.pc[q]
    requires v.lock == w.lock || (w.lock == Unlocked && v.lock == LockedBy(p)) || (w.lock == LockedBy(p) && v.lock == Unlocked)
    requires forall c: nat :: IsFree(v, c) == IsFree(w, c)
    requires forall c: nat :: Over(w, c) && !Holds(w, p, c) ==> Over(v, c)
    requires p < |w.pc| ==> PcInv(v, p)
    ensures Inv(v)
  {
    assert forall q, c :: Holds(v, q, c) == Holds(w, q, c);
    forall q: nat | q < |v.pc| && q != p ensures PcInv(v, q) {
      assert PcInv(w, q);
      if v.pc[q].Calling? {
        var todo := v.pc[q].todo;
        forall k | 0 <= k < |todo| ensures Rightful(v, q, todo[k]) {
          assert Rightful(w, q, todo[k]);
        }
      }
    }
  }

  lemma InterruptKeepsStates(d: Driver, c: nat)
    requires Valid(d) && c < CHANNEL_NUM
    ensures Valid(Handler(d).0)
    ensures Handler(d).0.channels[c].state == if BecomesDone(d, d.regs.gis, d.regs.gs, 0, c) then Done else d.channels[c].state
    ensures BecomesDone(d, d.regs.gis, d.regs.gs, 0, c) ==> d.channels[c].state != Free
  {
    HandlerIsExact(d);
  }

  lemma OutsideKeepsInv(w: World, s: Step, t: Table)
    requires Inv(w) && Enabled(w, s) && (s.Interrupt? || s.Hardware?) && t.last < |t.entries|
    ensures Inv(Do(w, s, t))
  {
    DoKeepsShape(w, s, t);
    var v := Do(w, s, t);
    forall c: nat | c < w.d.numChannels
      ensures IsFree(v, c) == IsFree(w, c) && (Over(w, c) ==> Over(v, c))
    {
      InterruptKeepsStates(w.d, c);
    }
    QuietStepKeepsInv(w, v, |w.pc|);
  }

  lemma AllocationStepKeepsInv(w: World, s: Step, t: Table)
    requires Inv(w) && Enabled(w, s) && (s.Obtain? || s.Test? || s.Fill? || s.Unlock?) && t.last < |t.entries|
    ensures Inv(Do(w, s, t))
  {
    DoKeepsShape(w, s, t);
    assert PcInv(w, s.p);
    var v := Do(w, s, t);
    assert forall c: nat :: IsFree(v, c) == IsFree(w, c) && Over(v, c) == Over(w, c);
    QuietStepKeepsInv(w, v, s.p);
  }

  lemma TakeKeepsInv(w: World, p: nat, t: Table)
    requires Inv(w) && Enabled(w, Take(p)) && t.last < |t.entries|
    ensures Inv(Do(w, Take(p), t))
  {
    DoKeepsShape(w, Take(p), t);
    var v := Do(w, Take(p), t);
    assert PcInv(w, p);
    var i := w.pc[p].i;
    assert IsFree(w, i);
    assert forall c: nat :: IsFree(v, c) == (IsFree(w, c) && c != i) && (Over(w, c) ==> Over(v, c));
    assert forall q, c :: Holds(v, q, c) == (Holds(w, q, c) || (q == p && c == i));
    assert Ownership(v) by {
      forall c: nat | c < v.d.numChannels && !IsFree(v, c) ensures exists q :: Holds(v, q, c) {
        if c == i {
          assert Holds(v, p, i);
        } else {
          var q :| Holds(w, q, c);
          assert Holds(v, q, c);
        }
      }
    }
    forall q: nat | q < |v.pc| ensures PcInv(v, q) {
      assert PcInv(w, q);
      if q != p && v.pc[q].Calling? {
        forall k | 0 <= k < |v.pc[q].todo| ensures Rightful(v, q, v.pc[q].todo[k]) {
          assert Rightful(w, q, v.pc[q].todo[k]);
        }
      }
    }
  }

  /** Marking a channel free gives it up. */
  lemma FreeKeepsInv(w: World, p: nat, c0: nat)
    requires Inv(w) && p < |w.pc| && w.pc[p].Calling? && w.pc[p].todo[0] == WriteState(c0, Free)
    ensures Inv(Execute(w, p))
  {
    ExecuteKeepsShape(w, p);
    var v := Execute(w, p);
    assert PcInv(w, p) && Rightful(w, p, w.pc[p].todo[0]);
    assert w.pc[p].todo[1..] == [];
    assert Holds(w, p, c0);
    assert forall c: nat :: IsFree(v, c) == (IsFree(w, c) || c == c0) && (Over(w, c) && c != c0 ==> Over(v, c));
    assert forall q, c :: Holds(v, q, c) == (Holds(w, q, c) && !(q == p && c == c0));
    assert Ownership(v) by {
      forall c: nat | c < v.d.numChannels && !IsFree(v, c) ensures exists q :: Holds(v, q, c) {
        var q :| Holds(w, q, c);
        assert Holds(v, q, c);
      }
    }
    forall q: nat | q < |v.pc| ensures PcInv(v, q) {
      assert PcInv(w, q);
      if q != p && v.pc[q].Calling? {
        forall k | 0 <= k < |v.pc[q].todo| ensures Rightful(v, q, v.pc[q].todo[k]) {
          assert Rightful(w, q, v.pc[q].todo[k]);
        }
      }
    }
  }

  /** Any other access of a call. */
  lemma AccessKeepsInv(w: World, p: nat)
    requires Inv(w) && p < |w.pc| && w.pc[p].Calling?
    requires var a := w.pc[p].todo[0]; !IsTest(a) && !(a.WriteState? && a.s == Free)
    ensures Inv(Execute(w, p))
  {
    ExecuteKeepsShape(w, p);
    var a, rest, v := w.pc[p].todo[0], w.pc[p].todo[1..], Execute(w, p);
    assert PcInv(w, p) && Rightful(w, p, a) && WellFormed(w.d.numChannels, a);
    assert forall c: nat :: !(a.WriteState? && c == a.c) && c < w.d.numChannels ==> v.d.channels[c].state == w.d.channels[c].state;
    if a.WriteState? { assert Holds(w, p, a.c) && !IsFree(w, a.c); }
    assert forall c: nat :: IsFree(v, c) == IsFree(w, c) && (Over(w, c) && !Holds(w, p, c) ==> Over(v, c));
    assert PcInv(v, p) by {
      forall k | 0 <= k < |rest| ensures Rightful(v, p, rest[k]) {
        assert rest[k] == w.pc[p].todo[k + 1] && Rightful(w, p, w.pc[p].todo[k + 1]);
      }
    }
    QuietStepKeepsInv(w, v, p);
  }

  lemma RightfulWork(w: World, p: nat, a: Access, s: ChannelState)
    requires Shape(w) && IsTest(a) && Rightful(w, p, a) && Index(a.op.dw) < w.d.numChannels
    requires s == w.d.channels[Index(a.op.dw)].state
    ensures var todo := AfterTest(a, s, false);
            && (forall k :: 0 <= k < |todo| ==> Rightful(w, p, todo[k]))
            && (forall k :: 0 <= k < |todo| && todo[k].WriteState? && todo[k].s == Free ==> |todo| == 1)
  {
    NoStateWrites(a.op);
  }

  lemma NoStateWrites(op: Op)
    ensures forall k :: 0 <= k < |Work(op, false)| ==>
              var a := Work(op, false)[k]; !IsTest(a) && (a.WriteState? ==> op.Begin? && a == WriteState(Index(op.dw), Start))
  {
  }

  lemma TestKeepsInv(w: World, p: nat)
    requires Inv(w) && p < |w.pc| && w.pc[p].Calling? && IsTest(w.pc[p].todo[0])
    ensures Inv(Execute(w, p))
  {
    ExecuteKeepsShape(w, p);
    var a, v := w.pc[p].todo[0], Execute(w, p);
    assert PcInv(w, p) && Rightful(w, p, a) && WellFormed(w.d.numChannels, a);
    var s := w.d.channels[Index(a.op.dw)].state;
    RightfulWork(w, p, a, s);
    assert forall c: nat :: IsFree(v, c) == IsFree(w, c) && Over(v, c) == Over(w, c);
    assert PcInv(v, p) by {
      var todo := AfterTest(a, s, false);
      forall k | 0 <= k < |todo| ensures Rightful(v, p, todo[k]) { assert Rightful(w, p, todo[k]); }
    }
    QuietStepKeepsInv(w, v, p);
  }

  lemma EnterKeepsInv(w: World, p: nat, op: Op, t: Table)
    requires Inv(w) && Enabled(w, Enter(p, op)) && Follows(w, Enter(p, op)) && t.last < |t.entries|
    ensures Inv(Do(w, Enter(p, op), t))
  {
    DoKeepsShape(w, Enter(p, op), t);
    var v := Do(w, Enter(p, op), t);
    if v != w {
      assert forall c: nat :: IsFree(v, c) == IsFree(w, c) && Over(v, c) == Over(w, c);
      assert forall q, c :: Holds(v, q, c) == Holds(w, q, c);
      QuietStepKeepsInv(w, v, p);
    }
  }

  lemma DoKeepsInv(w: World, s: Step, t: Table)
    requires Inv(w) && Enabled(w, s) && Follows(w, s) && t.last < |t.entries|
    ensures Inv(Do(w, s, t))
  {
    match s
    case Obtain(_, _, _) => AllocationStepKeepsInv(w, s, t);
    case Test(_) => AllocationStepKeepsInv(w, s, t);
    case Take(p) => TakeKeepsInv(w, p, t);
    case Fill(_) => AllocationStepKeepsInv(w, s, t);
    case Unlock(_) => AllocationStepKeepsInv(w, s, t);
    case Enter(p, op) => EnterKeepsInv(w, p, op, t);
    case Exec(p) =>
      var a := w.pc[p].todo[0];
      if IsTest(a) { TestKeepsInv(w, p); }
      else if a.WriteState? && a.s == Free { FreeKeepsInv(w, p, a.c); }
      else { AccessKeepsInv(w, p); }
    case Interrupt => OutsideKeepsInv(w, s, t);
    case Hardware(_) => OutsideKeepsInv(w, s, t);
  }

  // ---- every run ------------------------------------------------------------------------------

  lemma {:induction false} RunKeepsInv(w: World, ss: seq<Step>, t: Table)
    requires Inv(w) && t.last < |t.entries| && IsRun(w, ss, t) && Obeys(w, ss, t)
    ensures Inv(AfterRun(w, ss, t))
    decreases |ss|
  {
    if ss != [] {
      DoKeepsShape(w, ss[0], t);
      DoKeepsInv(w, ss[0], t);
      RunKeepsInv(Do(w, ss[0], t), ss[1..], t);
    }
  }

  /** As the driver stands after initialisation: everything free, nothing held. */
  ghost predicate Initial(w: World) {
    && Shape(w) && w.lock == Unlocked
    && (forall c :: 0 <= c < w.d.numChannels ==> w.d.channels[c].state == Free)
    && (forall p :: 0 <= p < |w.pc| ==> w.pc[p] == Idle && w.held[p] == {})
  }

  lemma InitialInv(w: World)
    requires Initial(w)
    ensures Inv(w)
  {
    assert forall c: nat :: c < w.d.numChannels ==> IsFree(w, c);
  }

  /** Over every run of clients that follow the rule, however their accesses interleave: no
      channel is held by two clients; a channel is held exactly when it is not free; and the
      channels held by the clients together with the free ones are all the channels. */
  lemma ExclusiveOwnership(w: World, ss: seq<Step>, t: Table)
    requires Initial(w) && t.last < |t.entries| && IsRun(w, ss, t) && Obeys(w, ss, t)
    ensures var v := AfterRun(w, ss, t);
            && (forall p, q, c :: Holds(v, p, c) && Holds(v, q, c) ==> p == q)
            && (forall c: nat :: c < v.d.numChannels ==> (!IsFree(v, c) <==> exists p :: Holds(v, p, c)))
            && TotalHeld(v.held, |v.held|) + |FreeChannels(v)| == w.d.numChannels
  {
    InitialInv(w);
    RunKeepsInv(w, ss, t);
    Balance(AfterRun(w, ss, t));
  }

  ghost function TotalHeld(held: seq<set<nat>>, k: nat): nat
    requires k <= |held|
  {
    if k == 0 then 0 else TotalHeld(held, k - 1) + |held[k - 1]|
  }

  ghost function Union(held: seq<set<nat>>, k: nat): set<nat>
    requires k <= |held|
  {
    if k == 0 then {} else Union(held, k - 1) + held[k - 1]
  }

  ghost function FreeChannels(w: World): set<nat>
    requires Shape(w)
  {
    set c | c in Below(w.d.numChannels) && IsFree(w, c)
  }

  lemma {:induction false} UnionMembers(held: seq<set<nat>>, k: nat, c: nat)
    requires k <= |held|
    ensures c in Union(held, k) <==> exists p :: 0 <= p < k && c in held[p]
  {
    if k > 0 { UnionMembers(held, k - 1, c); }
  }

  lemma {:induction false} DisjointSum(held: seq<set<nat>>, k: nat)
    requires k <= |held|
    requires forall p, q, c :: 0 <= p < |held| && 0 <= q < |held| && c in held[p] && c in held[q] ==> p == q
    ensures |Union(held, k)| == TotalHeld(held, k)
  {
    if k > 0 {
      DisjointSum(held, k - 1);
      var before, last := Union(held, k - 1), held[k - 1];
      assert before !! last by {
        forall c | c in before ensures c !in last { UnionMembers(held, k - 1, c); }
      }
    }
  }

  ghost function Below(n: nat): (s: set<nat>)
    ensures |s| == n && forall c: nat :: c in s <==> c < n
  {
    if n == 0 then {} else Below(n - 1) + {n - 1}
  }

  lemma Balance(w: World)
    requires Shape(w) && Ownership(w)
    ensures TotalHeld(w.held, |w.held|) + |FreeChannels(w)| == w.d.numChannels
  {
    var u := Union(w.held, |w.held|);
    forall p, q, c | 0 <= p < |w.held| && 0 <= q < |w.held| && c in w.held[p] && c in w.held[q] ensures p == q {
      assert Holds(w, p, c) && Holds(w, q, c);
    }
    DisjointSum(w.held, |w.held|);
    var all := Below(w.d.numChannels);
    assert u == all - FreeChannels(w) by {
      forall c: nat ensures c in u <==> c in all - FreeChannels(w) {
        UnionMembers(w.held, |w.held|, c);
        if c in u {
          var p :| 0 <= p < |w.held| && c in w.held[p];
          assert Holds(w, p, c);
        }
        if c in all - FreeChannels(w) {
          var p :| Holds(w, p, c);
        }
      }
    }
  }

  // ---- scans ---------------------------------------------------------------------------------

  /** Step s marks channel c free. */
  ghost predicate Frees(w: World, s: Step, c: nat)
    requires Shape(w) && Enabled(w, s)
  {
    s.Exec? && w.pc[s.p].todo[0] == WriteState(c, Free)
  }

  ghost predicate FreedDuring(w: World, ss: seq<Step>, t: Table, c: nat)
    requires Shape(w) && t.last < |t.entries| && IsRun(w, ss, t)
    decreases |ss|
  {
    ss != [] && (Frees(w, ss[0], c) || (DoKeepsShape(w, ss[0], t); FreedDuring(Do(w, ss[0], t), ss[1..], t, c)))
  }

  lemma NothingFreed(w: World, s: Step, t: Table, c: nat)
    requires Shape(w) && Enabled(w, s) && t.last < |t.entries| && !Frees(w, s, c) && !IsFree(w, c)
    ensures Shape(Do(w, s, t)) && !IsFree(Do(w, s, t), c)
  {
    DoKeepsShape(w, s, t);
    if c < w.d.numChannels { InterruptKeepsStates(w.d, c); }
  }

  /** How far client p's allocation has come past channel c, which was not freed since. */
  ghost predicate Passed(w: World, p: nat, c: nat)
    requires Shape(w) && p < |w.pc|
  {
    match w.pc[p]
    case Scanning(i, _, _) => c < i ==> !IsFree(w, c)
    case Taking(_, _, _) => true
    case Filling(i, _, _) => i != ALLOC_FAILED
    case Leaving(result) => result == ALLOC_FAILED ==> !IsFree(w, c)
    case Idle => false
    case Calling(_) => false
  }

  lemma PassedStep(w: World, s: Step, t: Table, p: nat, c: nat)
    requires Shape(w) && Enabled(w, s) && t.last < |t.entries| && p < |w.pc|
    requires s != Unlock(p) && !Frees(w, s, c) && Passed(w, p, c)
    ensures Shape(Do(w, s, t)) && |Do(w, s, t).pc| == |w.pc| && Passed(Do(w, s, t), p, c)
  {
    DoKeepsShape(w, s, t);
    var v := Do(w, s, t);
    if !IsFree(w, c) { NothingFreed(w, s, t, c); }
    assert PcShape(w.d.numChannels, w.pc[p]);
    if s != Test(p) && s != Take(p) && s != Fill(p) { assert v.pc[p] == w.pc[p]; }
  }

  lemma {:induction false} PassedRun(w: World, ss: seq<Step>, t: Table, p: nat, c: nat)
    requires Shape(w) && t.last < |t.entries| && IsRun(w, ss, t) && p < |w.pc| && Passed(w, p, c)
    requires Unlock(p) !in ss && !FreedDuring(w, ss, t, c)
    ensures Passed(AfterRun(w, ss, t), p, c)
    decreases |ss|
  {
    if ss != [] {
      assert ss[0] in ss;
      PassedStep(w, ss[0], t, p, c);
      PassedRun(Do(w, ss[0], t), ss[1..], t, p, c);
    }
  }

  /** When an allocation of a supported pair has failed, every channel that is free at that
      moment was freed during the allocation, whatever else went on, and by whomever. */
  lemma FailsOnlyWhenFull(w: World, p: nat, src: uint8, dst: uint8, ss: seq<Step>, t: Table, c: nat)
    requires Shape(w) && t.last < |t.entries| && Enabled(w, Obtain(p, src, dst))
    requires IsRun(w, [Obtain(p, src, dst)] + ss, t) && Unlock(p) !in ss
    ensures var all := [Obtain(p, src, dst)] + ss;
            var v := AfterRun(w, all, t);
            v.pc[p] == Leaving(ALLOC_FAILED) && Supported(t.entries, t.last, src, dst) && IsFree(v, c)
            ==> FreedDuring(w, all, t, c)
  {
    var all := [Obtain(p, src, dst)] + ss;
    DoKeepsShape(w, all[0], t);
    assert all[1..] == ss;
    if Supported(t.entries, t.last, src, dst) && !FreedDuring(w, all, t, c) {
      PassedRun(Do(w, all[0], t), ss, t, p, c);
    }
  }

  /** So an allocation during which nothing is freed fails only when clients hold every
      channel. */
  lemma FailsOnlyWhenAllHeld(w: World, p: nat, src: uint8, dst: uint8, ss: seq<Step>, t: Table)
    requires Inv(w) && t.last < |t.entries| && Enabled(w, Obtain(p, src, dst))
    requires IsRun(w, [Obtain(p, src, dst)] + ss, t) && Unlock(p) !in ss
    requires Obeys(w, [Obtain(p, src, dst)] + ss, t)
    requires forall c :: !FreedDuring(w, [Obtain(p, src, dst)] + ss, t, c)
    ensures var v := AfterRun(w, [Obtain(p, src, dst)] + ss, t);
            v.pc[p] == Leaving(ALLOC_FAILED) && Supported(t.entries, t.last, src, dst)
            ==> TotalHeld(v.held, |v.held|) == w.d.numChannels
  {
    var all := [Obtain(p, src, dst)] + ss;
    var v := AfterRun(w, all, t);
    RunKeepsInv(w, all, t);
    Balance(v);
    forall c: nat ensures v.pc[p] == Leaving(ALLOC_FAILED) && Supported(t.entries, t.last, src, dst) ==> !IsFree(v, c) {
      FailsOnlyWhenFull(w, p, src, dst, ss, t, c);
    }
    if v.pc[p] == Leaving(ALLOC_FAILED) && Supported(t.entries, t.last, src, dst) { assert FreeChannels(v) == {}; }
  }

  // ---- why the rule is needed ----------------------------------------------------------------------

  /** A client's call up to its last test, all tests passed: what it will do. */
  lemma CallTested(w: World, q: nat, op: Op, t: Table)
    requires Shape(w) && t.last < |t.entries| && q < |w.pc| && w.pc[q] == Idle
    requires (op.Begin? || op.Prepare? || op.Callback?) && Index(op.dw) < w.d.numChannels
    requires w.d.channels[Index(op.dw)].state in {Allocated, Done, Halted}
    ensures var ss := [Enter(q, op), Exec(q), Exec(q)];
            IsRun(w, ss, t) && AfterRun(w, ss, t) == At(w, q, Calling(Work(op, false)))
  {
    var w1 := Do(w, Enter(q, op), t);
    DoKeepsShape(w, Enter(q, op), t);
    var w2 := Do(w1, Exec(q), t);
    DoKeepsShape(w1, Exec(q), t);
    assert w2 == At(w, q, Calling([SecondTest(op)]));
    var w3 := Do(w2, Exec(q), t);
    assert w3 == At(w, q, Calling(Work(op, false)));
    ThreeSteps(w, Enter(q, op), Exec(q), Exec(q), t);
  }

  lemma FreeDone(w: World, p: nat, dw: uint32, t: Table)
    requires Shape(w) && t.last < |t.entries| && p < |w.pc| && w.pc[p] == Idle
    requires Index(dw) < w.d.numChannels && w.d.channels[Index(dw)].state in {Done, Halted}
    ensures var ss := [Enter(p, Release(dw)), Exec(p), Exec(p)];
            IsRun(w, ss, t)
            && AfterRun(w, ss, t) == w.(d := SetState(w.d, Index(dw), Free), held := w.held[p := w.held[p] - {Index(dw)}])
  {
    var op, c := Release(dw), Index(dw);
    var w1 := Do(w, Enter(p, op), t);
    DoKeepsShape(w, Enter(p, op), t);
    var w2 := Do(w1, Exec(p), t);
    DoKeepsShape(w1, Exec(p), t);
    assert w2 == At(w, p, Calling([WriteState(c, Free)]));
    var w3 := Do(w2, Exec(p), t);
    assert [WriteState(c, Free)][1..] == [];
    assert w3.pc == w.pc;
    ThreeSteps(w, Enter(p, op), Exec(p), Exec(p), t);
  }

  /** A state write that leaves the channel in use keeps ownership exactly when the channel
      is still in use. */
  lemma StateWriteKeepsOwnershipIff(w: World, c: nat, s: ChannelState)
    requires Shape(w) && Ownership(w) && c < w.d.numChannels && s != Free
    ensures var v := w.(d := SetState(w.d, c, s));
            Shape(v) && (Ownership(v) <==> !IsFree(w, c))
  {
    var v := w.(d := SetState(w.d, c, s));
    assert forall k: nat :: IsFree(v, k) == (IsFree(w, k) && k != c);
    assert forall p, k :: Holds(v, p, k) == Holds(w, p, k);
    if IsFree(w, c) {
      assert !IsFree(v, c) && forall p :: !Holds(v, p, c);
    } else {
      forall k: nat | k < v.d.numChannels && !IsFree(v, k) ensures exists p :: Holds(v, p, k) {
        var p :| Holds(w, p, k);
        assert Holds(v, p, k);
      }
    }
  }

  /** A start of a channel held by another client: it passes its tests, the holder frees the
      channel, and the state written last revives it. The channel is started and nobody
      holds it, although only its holder freed it and nobody stopped it. */
  lemma ForeignStartRacesFree(w: World, p: nat, q: nat, dw: uint32, t: Table)
    requires Inv(w) && t.last < |t.entries| && p < |w.pc| && q < |w.pc| && p != q
    requires w.pc[p] == Idle && w.pc[q] == Idle && Holds(w, p, Index(dw)) && Over(w, Index(dw))
    ensures var ss := [Enter(q, Begin(dw)), Exec(q), Exec(q)] + [Enter(p, Release(dw)), Exec(p), Exec(p)] + [Exec(q)];
            IsRun(w, ss, t)
            && var v := AfterRun(w, ss, t);
               && v.d.channels[Index(dw)].state == Start && (forall r :: !Holds(v, r, Index(dw)))
               && TotalHeld(v.held, |v.held|) + |FreeChannels(v)| == w.d.numChannels - 1
  {
    var c := Index(dw);
    var first, second := [Enter(q, Begin(dw)), Exec(q), Exec(q)], [Enter(p, Release(dw)), Exec(p), Exec(p)];
    CallTested(w, q, Begin(dw), t);
    var w1 := AfterRun(w, first, t);
    FreeDone(w1, p, dw, t);
    var w2 := AfterRun(w1, second, t);
    RunConcat(w, first, second, t);
    assert Ownership(w2) && IsFree(w2, c) by { GivenUp(w, w2, p, c); }
    StartRevives(w2, q, dw, t);
    RunConcat(w, first + second, [Exec(q)], t);
  }

  lemma StartRevives(w: World, q: nat, dw: uint32, t: Table)
    requires Shape(w) && Ownership(w) && t.last < |t.entries| && q < |w.pc| && IsFree(w, Index(dw))
    requires w.pc[q] == Calling(Work(Begin(dw), false))
    ensures IsRun(w, [Exec(q)], t)
    ensures var v := AfterRun(w, [Exec(q)], t);
            && v.d.channels[Index(dw)].state == Start && (forall r :: !Holds(v, r, Index(dw)))
            && TotalHeld(v.held, |v.held|) + |FreeChannels(v)| == w.d.numChannels - 1
  {
    assert w.pc[q].todo[0] == WriteState(Index(dw), Start);
    var v := Do(w, Exec(q), t);
    DoKeepsShape(w, Exec(q), t);
    OneMore(w, Exec(q), [], t);
    assert [Exec(q)] + [] == [Exec(q)];
    assert forall k: nat :: IsFree(v, k) == (IsFree(w, k) && k != Index(dw));
    OneShort(w, v, Index(dw));
  }

  /** After the holder's free all is well. */
  lemma GivenUp(w: World, v: World, p: nat, c: nat)
    requires Shape(w) && Ownership(w) && Shape(v) && Holds(w, p, c)
    requires v.d == SetState(w.d, c, Free) && v.held == w.held[p := w.held[p] - {c}]
    ensures Ownership(v) && IsFree(v, c)
  {
    assert c < w.d.numChannels;
    assert forall k: nat :: IsFree(v, k) == (IsFree(w, k) || k == c);
    assert forall r, k :: Holds(v, r, k) == (Holds(w, r, k) && !(r == p && k == c));
    forall k: nat | k < v.d.numChannels && !IsFree(v, k) ensures exists r :: Holds(v, r, k) {
      var r :| Holds(w, r, k);
      assert Holds(v, r, k);
    }
  }

  /** A free channel put to use with no holder leaves the account one short. */
  lemma OneShort(w: World, v: World, c: nat)
    requires Shape(w) && Ownership(w) && Shape(v) && v.held == w.held && v.d.numChannels == w.d.numChannels
    requires IsFree(w, c) && forall k: nat :: IsFree(v, k) == (IsFree(w, k) && k != c)
    ensures TotalHeld(v.held, |v.held|) + |FreeChannels(v)| == w.d.numChannels - 1
    ensures !IsFree(v, c) && forall r :: !Holds(v, r, c)
  {
    assert FreeChannels(v) == FreeChannels(w) - {c};
    Balance(w);
    forall r ensures !Holds(v, r, c) { assert !Holds(w, r, c); }
  }

  /** A stop by whomever keeps the invariant exactly when it names no channel or one that is
      not free. */
  lemma StopKeepsInvIff(w: World, dw: uint32)
    requires Inv(w)
    ensures Inv(w.(d := StopTransfer(w.d, dw).0)) <==> Index(dw) >= w.d.numChannels || !IsFree(w, Index(dw))
  {
    var v, c := w.(d := StopTransfer(w.d, dw).0), Index(dw);
    if c < w.d.numChannels {
      StateWriteKeepsOwnershipIff(w, c, Halted);
      var u := w.(d := SetState(w.d, c, Halted));
      assert forall k: nat :: IsFree(v, k) == IsFree(u, k) && (Over(w, k) ==> Over(v, k));
      assert forall p, k :: Holds(v, p, k) == Holds(u, p, k);
      assert Ownership(v) <==> Ownership(u);
      if !IsFree(w, c) {
        forall p: nat | p < |w.pc| ensures PcInv(v, p) {
          assert PcInv(w, p);
          if v.pc[p].Calling? {
            forall k | 0 <= k < |v.pc[p].todo| ensures Rightful(v, p, v.pc[p].todo[k]) {
              assert Rightful(w, p, v.pc[p].todo[k]);
            }
          }
        }
      }
    }
  }

  /** Stopping a free channel succeeds, and the channel is lost: no longer free, it is held by
      nobody, and the account is one short. */
  lemma StopOnFreeChannelLeaks(w: World, dw: uint32)
    requires Inv(w) && IsFree(w, Index(dw))
    ensures var (e, rc) := StopTransfer(w.d, dw);
            var v := w.(d := e);
            && rc == Ok && Shape(v)
            && !IsFree(v, Index(dw)) && (forall p :: !Holds(v, p, Index(dw)))
            && TotalHeld(v.held, |v.held|) + |FreeChannels(v)| == w.d.numChannels - 1
  {
    var v := w.(d := StopTransfer(w.d, dw).0);
    assert forall k: nat :: IsFree(v, k) == (IsFree(w, k) && k != Index(dw));
    OneShort(w, v, Index(dw));
  }

  /** A free by a client that does not hold the channel keeps the invariant exactly when it
      does nothing: the channel is neither finished nor stopped. */
  lemma ForeignFreeKeepsInvIff(w: World, dw: uint32)
    requires Inv(w)
    ensures Inv(w.(d := FreeChannel(w.d, dw).0)) <==> !Over(w, Index(dw))
  {
    var v, c := w.(d := FreeChannel(w.d, dw).0), Index(dw);
    if Over(w, c) {
      assert !IsFree(w, c);
      var p :| Holds(w, p, c);
      assert Holds(v, p, c) && IsFree(v, c);
    } else if c < w.d.numChannels {
      assert w.d.channels == w.d.channels[c := w.d.channels[c].(state := w.d.channels[c].state)];
      assert v == w;
    }
  }

  /** Freeing a finished channel held by another client succeeds, and the next allocation
      gives the channel away although that client still holds it. */
  lemma ForeignFreeSharesChannel(w: World, p: nat, dw: uint32, src: uint8, dst: uint8, t: Table)
    requires Inv(w) && t.last < |t.entries| && Supported(t.entries, t.last, src, dst)
    requires Holds(w, p, Index(dw)) && Over(w, Index(dw))
    requires forall c: nat :: c < Index(dw) ==> !IsFree(w, c)
    ensures var (e, rc) := FreeChannel(w.d, dw);
            rc == Ok && AllocateChannel(e, t.entries, t.last, src, dst).1 == Index(dw) && Holds(w.(d := e), p, Index(dw))
  {
    var e := FreeChannel(w.d, dw).0;
    forall c | 0 <= c < Index(dw) ensures e.channels[c].state != Free { assert !IsFree(w, c); }
    assert e.channels[Index(dw)].state == Free;
    assert FirstFree(e, 0) == Index(dw);
  }

  /** With a free in between an allocation may fail although a channel is free: the one
      freed behind the scan. */
  lemma ScanMissesFreedChannel(w: World, t: Table, p: nat, q: nat, dw: uint32)
    requires Inv(w) && t.last < |t.entries| && p < |w.pc| && q < |w.pc| && w.pc[q] == Idle
    requires w.pc[p].Scanning? && w.pc[p].i == w.d.numChannels
    requires Holds(w, q, Index(dw)) && Over(w, Index(dw))
    ensures var ss := [Enter(q, Release(dw)), Exec(q), Exec(q)] + [Test(p)];
            IsRun(w, ss, t) && IsFree(AfterRun(w, ss, t), Index(dw))
            && AfterRun(w, ss, t).pc[p] == Leaving(ALLOC_FAILED)
  {
    var first := [Enter(q, Release(dw)), Exec(q), Exec(q)];
    FreeDone(w, q, dw, t);
    var v := AfterRun(w, first, t);
    DoKeepsShape(v, Test(p), t);
    OneMore(v, Test(p), [], t);
    assert [Test(p)] + [] == [Test(p)];
    RunConcat(w, first, [Test(p)], t);
  }
}
