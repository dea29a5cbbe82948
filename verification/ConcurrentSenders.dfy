/** Many tasks sending requests at once: ThreadsCommon_SendRequest taken apart into the queue
    send, the sampling of the count, the comparison with the recorded maximum, the write of
    the maximum and the answer, with other senders, timers and receivers in between. */
module ConcurrentSenders {
  import opened UInt
  import opened RequestQueue

  datatype Pc =
    | Idle
    | HasSent(thread: nat, status: Status)
    | HasSampled(thread: nat, status: Status, count: int)
    | WillWrite(thread: nat, status: Status, count: int)
    | WillAnswer(thread: nat, status: Status)

  datatype Senders = Senders(w: World, pc: seq<Pc>)

  datatype Step =
    | Enqueue(p: nat, message: Message, queue: uint32, thread: nat)
    | TakeSample(p: nat)
    | Compare(p: nat)
    | WriteMaximum(p: nat)
    | Answer(p: nat)
    | Outside(other: Other)

  predicate Shape(s: Senders) {
    && |s.w.interfaceQueue| == |s.w.maximum|
    && (forall p :: 0 <= p < |s.pc| && s.pc[p] != Idle ==> s.pc[p].thread < |s.w.maximum|)
    && (forall p :: 0 <= p < |s.pc| && s.pc[p].WillWrite? ==> s.pc[p].count >= 0)
  }

  predicate Enabled(s: Senders, a: Step) {
    match a
    case Enqueue(p, _, _, thread) => p < |s.pc| && s.pc[p] == Idle && thread < |s.w.maximum|
    case TakeSample(p) => p < |s.pc| && s.pc[p].HasSent?
    case Compare(p) => p < |s.pc| && s.pc[p].HasSampled?
    case WriteMaximum(p) => p < |s.pc| && s.pc[p].WillWrite?
    case Answer(p) => p < |s.pc| && s.pc[p].WillAnswer?
    case Outside(_) => true
  }

  function At(s: Senders, p: nat, pc: Pc): Senders
    requires p < |s.pc|
  {
    s.(pc := s.pc[p := pc])
  }

  function Do(s: Senders, a: Step): (Senders, Trace)
    requires Shape(s) && Enabled(s, a)
  {
    match a
    case Enqueue(p, message, queue, thread) =>
      var (v, t) := QueueSend(s.w, queue, message);
      (At(s, p, HasSent(thread, SendStatus(s.w, queue, message))).(w := v), t)
    case TakeSample(p) =>
      var pc := s.pc[p];
      var count := QueuedItems(s.w, pc.thread);
      (At(s, p, HasSampled(pc.thread, pc.status, count)), [Sampled(pc.thread, count)])
    case Compare(p) =>
      var pc := s.pc[p];
      (At(s, p, if pc.count > -1 && pc.count > s.w.maximum[pc.thread] then WillWrite(pc.thread, pc.status, pc.count)
                else WillAnswer(pc.thread, pc.status)), [])
    case WriteMaximum(p) =>
      var pc := s.pc[p];
      (At(s, p, WillAnswer(pc.thread, pc.status)).(w := s.w.(maximum := s.w.maximum[pc.thread := pc.count])), [])
    case Answer(p) =>
      var pc := s.pc[p];
      (At(s, p, Idle),
       if CallsBack(s.w, pc.status) then [OverflowCallback(pc.thread), Answered(pc.thread, pc.status, true)]
       else [Answered(pc.thread, pc.status, pc.status == Successful)])
    case Outside(other) =>
      var (v, t) := Others(s.w, [other]);
      (s.(w := v), t)
  }

  lemma DoKeepsShape(s: Senders, a: Step)
    requires Shape(s) && Enabled(s, a)
    ensures Shape(Do(s, a).0) && |Do(s, a).0.pc| == |s.pc|
    ensures Do(s, a).0.w.interfaceQueue == s.w.interfaceQueue && |Do(s, a).0.w.maximum| == |s.w.maximum|
    ensures !a.WriteMaximum? ==> Do(s, a).0.w.maximum == s.w.maximum
  {
    if a.Outside? { OthersFrame(s.w, [a.other]); }
  }

  ghost predicate IsRun(s: Senders, run: seq<Step>)
    requires Shape(s)
    decreases |run|
  {
    run == [] || (Enabled(s, run[0]) && (DoKeepsShape(s, run[0]); IsRun(Do(s, run[0]).0, run[1..])))
  }

  ghost function Run(s: Senders, run: seq<Step>): (r: (Senders, Trace))
    requires Shape(s) && IsRun(s, run)
    ensures Shape(r.0) && |r.0.pc| == |s.pc| && |r.0.w.maximum| == |s.w.maximum|
    decreases |run|
  {
    if run == [] then (s, [])
    else
      DoKeepsShape(s, run[0]);
      var (v, t) := Do(s, run[0]);
      var (u, t') := Run(v, run[1..]);
      (u, t + t')
  }

  // ---- conservation and capacity --------------------------------------------------------------

  lemma DoConserves(s: Senders, a: Step, queue: uint32)
    requires Shape(s) && Enabled(s, a)
    ensures Conserves(Items(s.w, queue), Do(s, a).1, Items(Do(s, a).0.w, queue), queue)
  {
    match a
    case Enqueue(_, message, target, _) => SendConserves(s.w, target, message, queue);
    case Outside(other) => OthersConserve(s.w, [other], queue);
    case TakeSample(_) =>
    case Compare(_) =>
    case WriteMaximum(_) =>
    case Answer(_) => AnswerIsQuiet(s, a, queue, 0, 0);
  }

  /** Callbacks and answers show nothing of queues and counts. */
  lemma AnswerIsQuiet(s: Senders, a: Step, queue: uint32, i: nat, m: nat)
    requires Shape(s) && Enabled(s, a) && a.Answer?
    ensures var t := Do(s, a).1;
            AcceptedBy(t, queue) == [] && ReceivedFrom(t, queue) == [] && RunningMax(m, t, i) == m
  {
    Quiet(Do(s, a).1, queue, i, m);
  }

  lemma {:induction false} Quiet(t: Trace, queue: uint32, i: nat, m: nat)
    requires forall e :: e in t ==> e.OverflowCallback? || e.Answered?
    ensures AcceptedBy(t, queue) == [] && ReceivedFrom(t, queue) == [] && RunningMax(m, t, i) == m
  {
    if t != [] {
      assert t[0] in t;
      Quiet(t[1..], queue, i, m);
    }
  }

  /** In every interleaving each queue is first in, first out and loses, repeats and reorders
      nothing. */
  lemma {:induction false} RunConserves(s: Senders, run: seq<Step>, queue: uint32)
    requires Shape(s) && IsRun(s, run)
    ensures Conserves(Items(s.w, queue), Run(s, run).1, Items(Run(s, run).0.w, queue), queue)
    decreases |run|
  {
    if run != [] {
      DoKeepsShape(s, run[0]);
      DoConserves(s, run[0], queue);
      var (v, t) := Do(s, run[0]);
      RunConserves(v, run[1..], queue);
      ConservesConcat(Items(s.w, queue), t, Items(v.w, queue), Run(v, run[1..]).1, Items(Run(v, run[1..]).0.w, queue), queue);
    }
  }

  /** A count a sender carries: sampled, or about to be written. */
  predicate Carries(pc: Pc, i: nat) {
    (pc.HasSampled? || pc.WillWrite?) && pc.thread == i
  }

  ghost predicate WithinCapacity(s: Senders) {
    && Shape(s) && Bounded(s.w)
    && forall p :: 0 <= p < |s.pc| && (s.pc[p].HasSampled? || s.pc[p].WillWrite?)
                   && s.w.interfaceQueue[s.pc[p].thread] in s.w.queues
         ==> s.pc[p].count <= s.w.queues[s.w.interfaceQueue[s.pc[p].thread]].capacity
  }

  lemma DoWithinCapacity(s: Senders, a: Step)
    requires WithinCapacity(s) && Enabled(s, a)
    ensures WithinCapacity(Do(s, a).0) && SameQueues(s.w, Do(s, a).0.w)
  {
    DoKeepsShape(s, a);
    match a
    case Enqueue(_, _, _, _) =>
    case Outside(other) => OthersBounded(s.w, [other]);
    case TakeSample(_) =>
    case Compare(_) =>
    case WriteMaximum(_) =>
    case Answer(_) =>
  }

  /** In every interleaving no queue exceeds its capacity, and no recorded maximum its
      queue's. */
  lemma {:induction false} RunWithinCapacity(s: Senders, run: seq<Step>)
    requires WithinCapacity(s) && IsRun(s, run)
    ensures WithinCapacity(Run(s, run).0) && SameQueues(s.w, Run(s, run).0.w)
    decreases |run|
  {
    if run != [] {
      DoWithinCapacity(s, run[0]);
      RunWithinCapacity(Do(s, run[0]).0, run[1..]);
    }
  }

  // ---- the recorded maximum ---------------------------------------------------------------------

  /** m bounds the recorded maximum and every count carried for thread i. */
  ghost predicate BoundedBy(s: Senders, i: nat, m: nat)
    requires Shape(s) && i < |s.w.maximum|
  {
    s.w.maximum[i] <= m && forall p :: 0 <= p < |s.pc| && Carries(s.pc[p], i) ==> s.pc[p].count <= m
  }

  /** m is recorded, or some sender still carries it. */
  ghost predicate Accounted(s: Senders, i: nat, m: nat)
    requires Shape(s) && i < |s.w.maximum|
  {
    BoundedBy(s, i, m) && (s.w.maximum[i] == m || exists p :: 0 <= p < |s.pc| && Carries(s.pc[p], i) && s.pc[p].count == m)
  }

  /** A write that replaces the largest count recorded by a smaller one, with nobody else
      carrying the largest one. */
  ghost predicate Loses(s: Senders, a: Step, i: nat, m: nat)
    requires Shape(s) && Enabled(s, a) && i < |s.w.maximum|
  {
    && a.WriteMaximum? && s.pc[a.p].thread == i && s.pc[a.p].count < m
    && forall q :: 0 <= q < |s.pc| && Carries(s.pc[q], i) ==> s.pc[q].count < m
  }

  lemma StepTrace(s: Senders, a: Step, i: nat, m: nat)
    requires Shape(s) && Enabled(s, a)
    ensures RunningMax(m, Do(s, a).1, i)
         == if a.TakeSample? && s.pc[a.p].thread == i then Max(m, QueuedItems(s.w, i)) else m
  {
    if a.Outside? {
      OthersSilent(s.w, [a.other]);
      SilentMax(m, Do(s, a).1, i);
    } else if a.Answer? {
      AnswerIsQuiet(s, a, 0, i, m);
    }
  }

  lemma StepBounded(s: Senders, a: Step, i: nat, m: nat)
    requires Shape(s) && Enabled(s, a) && i < |s.w.maximum| && BoundedBy(s, i, m)
    ensures Shape(Do(s, a).0) && i < |Do(s, a).0.w.maximum| && BoundedBy(Do(s, a).0, i, RunningMax(m, Do(s, a).1, i))
  {
    DoKeepsShape(s, a);
    StepTrace(s, a, i, m);
  }

  lemma KeptIfRecorded(s: Senders, a: Step, i: nat, m: nat)
    requires Shape(s) && Enabled(s, a) && i < |s.w.maximum| && BoundedBy(s, i, m) && s.w.maximum[i] == m
    requires !Loses(s, a, i, m)
    ensures var v := Do(s, a).0;
            && |v.w.maximum| == |s.w.maximum|
            && (v.w.maximum[i] == m || exists q :: 0 <= q < |v.pc| && Carries(v.pc[q], i) && v.pc[q].count == m)
  {
    DoKeepsShape(s, a);
    var v := Do(s, a).0;
    if v.w.maximum[i] != m {
      var q :| 0 <= q < |s.pc| && Carries(s.pc[q], i) && s.pc[q].count == m;
      assert a.p != q && v.pc[q] == s.pc[q];
    }
  }

  /** A step keeps the running maximum accounted for exactly when it is not a write that loses
      it. */
  lemma StepAccountedIff(s: Senders, a: Step, i: nat, m: nat)
    requires Shape(s) && Enabled(s, a) && i < |s.w.maximum| && Accounted(s, i, m)
    ensures Shape(Do(s, a).0) && i < |Do(s, a).0.w.maximum|
    ensures Accounted(Do(s, a).0, i, RunningMax(m, Do(s, a).1, i)) <==> !Loses(s, a, i, m)
  {
    StepBounded(s, a, i, m);
    StepTrace(s, a, i, m);
    var v := Do(s, a).0;
    var m' := RunningMax(m, Do(s, a).1, i);
    if Loses(s, a, i, m) {
      assert v.w.maximum[i] < m == m';
    } else if m' != m {
      assert Carries(v.pc[a.p], i) && v.pc[a.p].count == m';
    } else if s.w.maximum[i] == m {
      KeptIfRecorded(s, a, i, m);
    } else {
      var q :| 0 <= q < |s.pc| && Carries(s.pc[q], i) && s.pc[q].count == m;
      if a.Outside? || a.p != q { assert Carries(v.pc[q], i) && v.pc[q].count == m; }
    }
  }

  /** No write of the run loses the running maximum of thread i. */
  ghost predicate NothingLost(s: Senders, run: seq<Step>, i: nat, m: nat)
    requires Shape(s) && IsRun(s, run) && i < |s.w.maximum|
    decreases |run|
  {
    run == []
    || (!Loses(s, run[0], i, m)
        && (DoKeepsShape(s, run[0]); NothingLost(Do(s, run[0]).0, run[1..], i, RunningMax(m, Do(s, run[0]).1, i))))
  }

  /** The running maximum stays accounted for from step to step. */
  ghost predicate AlwaysAccounted(s: Senders, run: seq<Step>, i: nat, m: nat)
    requires Shape(s) && IsRun(s, run) && i < |s.w.maximum|
    decreases |run|
  {
    && Accounted(s, i, m)
    && (run == []
        || (DoKeepsShape(s, run[0]); AlwaysAccounted(Do(s, run[0]).0, run[1..], i, RunningMax(m, Do(s, run[0]).1, i))))
  }

  /** The running maximum is recorded, or still under way to be, all through a run exactly when
      no write of the run loses it. */
  lemma {:induction false} AccountedIffNothingLost(s: Senders, run: seq<Step>, i: nat, m: nat)
    requires Shape(s) && IsRun(s, run) && i < |s.w.maximum| && Accounted(s, i, m)
    ensures AlwaysAccounted(s, run, i, m) <==> NothingLost(s, run, i, m)
    decreases |run|
  {
    if run != [] {
      DoKeepsShape(s, run[0]);
      StepAccountedIff(s, run[0], i, m);
      if !Loses(s, run[0], i, m) {
        AccountedIffNothingLost(Do(s, run[0]).0, run[1..], i, RunningMax(m, Do(s, run[0]).1, i));
      } else {
        NotAccounted(Do(s, run[0]).0, run[1..], i, RunningMax(m, Do(s, run[0]).1, i));
      }
    }
  }

  lemma NotAccounted(s: Senders, run: seq<Step>, i: nat, m: nat)
    requires Shape(s) && IsRun(s, run) && i < |s.w.maximum| && !Accounted(s, i, m)
    ensures !AlwaysAccounted(s, run, i, m)
  {
  }

  /** In every interleaving the recorded maximum is at most the running maximum of the counts
      sampled; and it is that, once no sender of the thread carries a count, if no write lost
      it. */
  lemma {:induction false} MaximumIsRunningMaximum(s: Senders, run: seq<Step>, i: nat, m: nat)
    requires Shape(s) && IsRun(s, run) && i < |s.w.maximum| && BoundedBy(s, i, m)
    ensures var (v, t) := Run(s, run);
            && BoundedBy(v, i, RunningMax(m, t, i))
            && (Accounted(s, i, m) && NothingLost(s, run, i, m) ==> Accounted(v, i, RunningMax(m, t, i)))
            && (Accounted(s, i, m) && NothingLost(s, run, i, m) && (forall p :: 0 <= p < |v.pc| ==> !Carries(v.pc[p], i))
                ==> v.w.maximum[i] == RunningMax(m, t, i))
    decreases |run|
  {
    if run != [] {
      DoKeepsShape(s, run[0]);
      var (v, t) := Do(s, run[0]);
      StepBounded(s, run[0], i, m);
      if Accounted(s, i, m) { StepAccountedIff(s, run[0], i, m); }
      MaximumIsRunningMaximum(v, run[1..], i, RunningMax(m, t, i));
      RunningMaxConcat(m, t, Run(v, run[1..]).1, i);
    }
  }

  // ---- one sender a thread ------------------------------------------------------------------------

  /** At most one task at a time sends for thread i, and what it will write is larger than what
      is recorded. */
  ghost predicate Alone(s: Senders, i: nat)
    requires Shape(s) && i < |s.w.maximum|
  {
    && (forall p, q :: 0 <= p < |s.pc| && 0 <= q < |s.pc| && Sends(s.pc[p], i) && Sends(s.pc[q], i) ==> p == q)
    && (forall p :: 0 <= p < |s.pc| && s.pc[p].WillWrite? && s.pc[p].thread == i ==> s.pc[p].count > s.w.maximum[i])
  }

  predicate Sends(pc: Pc, i: nat) {
    pc != Idle && pc.thread == i
  }

  /** No task starts to send for thread i while another is at it. */
  ghost predicate TakesTurns(s: Senders, run: seq<Step>, i: nat)
    requires Shape(s) && IsRun(s, run)
    decreases |run|
  {
    run == []
    || ((run[0].Enqueue? && run[0].thread == i ==> forall q :: 0 <= q < |s.pc| ==> !Sends(s.pc[q], i))
        && (DoKeepsShape(s, run[0]); TakesTurns(Do(s, run[0]).0, run[1..], i)))
  }

  lemma AloneStep(s: Senders, a: Step, i: nat, m: nat)
    requires Shape(s) && Enabled(s, a) && i < |s.w.maximum| && Alone(s, i) && Accounted(s, i, m)
    requires a.Enqueue? && a.thread == i ==> forall q :: 0 <= q < |s.pc| ==> !Sends(s.pc[q], i)
    ensures Shape(Do(s, a).0) && i < |Do(s, a).0.w.maximum| && Alone(Do(s, a).0, i) && !Loses(s, a, i, m)
  {
    DoKeepsShape(s, a);
    var v := Do(s, a).0;
    forall q | 0 <= q < |v.pc| && Sends(v.pc[q], i) ensures Sends(s.pc[q], i) || (a.Enqueue? && a.p == q) {}
    if a.WriteMaximum? && s.pc[a.p].thread == i { assert Sends(s.pc[a.p], i); }
  }

  /** When the senders of a thread take turns, whatever the others do, no update is lost: the
      recorded maximum is the running maximum whenever nobody is sending for the thread. */
  lemma {:induction false} TurnsLoseNothing(s: Senders, run: seq<Step>, i: nat, m: nat)
    requires Shape(s) && IsRun(s, run) && i < |s.w.maximum| && Alone(s, i) && Accounted(s, i, m) && TakesTurns(s, run, i)
    ensures NothingLost(s, run, i, m)
    decreases |run|
  {
    if run != [] {
      AloneStep(s, run[0], i, m);
      StepAccountedIff(s, run[0], i, m);
      TurnsLoseNothing(Do(s, run[0]).0, run[1..], i, RunningMax(m, Do(s, run[0]).1, i));
    }
  }

  // ---- a lost update --------------------------------------------------------------------------------

  lemma OneMore(s: Senders, a: Step, run: seq<Step>)
    requires Shape(s) && Enabled(s, a) && Shape(Do(s, a).0) && IsRun(Do(s, a).0, run)
    ensures IsRun(s, [a] + run)
    ensures Run(s, [a] + run) == (Run(Do(s, a).0, run).0, Do(s, a).1 + Run(Do(s, a).0, run).1)
  {
    assert ([a] + run)[1..] == run;
  }

  lemma TraceConcat(t: Trace, u: Trace, v: Trace)
    ensures t + (u + v) == (t + u) + v
  {
  }

  lemma {:induction false} RunConcat(s: Senders, a: seq<Step>, b: seq<Step>)
    requires Shape(s) && IsRun(s, a) && IsRun(Run(s, a).0, b)
    ensures IsRun(s, a + b)
    ensures Run(s, a + b) == (Run(Run(s, a).0, b).0, Run(s, a).1 + Run(Run(s, a).0, b).1)
    decreases |a|
  {
    if a == [] {
      assert a + b == b && [] + Run(s, b).1 == Run(s, b).1;
    } else {
      DoKeepsShape(s, a[0]);
      var (v, t) := Do(s, a[0]);
      RunConcat(v, a[1..], b);
      OneMore(s, a[0], a[1..] + b);
      assert a + b == [a[0]] + (a[1..] + b);
      TraceConcat(t, Run(v, a[1..]).1, Run(Run(s, a).0, b).1);
    }
  }

  /** A send up to its comparison that finds a new maximum. */
  lemma UpToCompare(s: Senders, p: nat, message: Message, queue: uint32, i: nat)
    requires Shape(s) && p < |s.pc| && s.pc[p] == Idle && i < |s.w.maximum|
    requires SendStatus(s.w, queue, message) == Successful && s.w.interfaceQueue[i] == queue != ID_NONE
    requires s.w.maximum[i] < |Items(s.w, queue)| + 1
    ensures var run, n := [Enqueue(p, message, queue, i)] + ([TakeSample(p)] + ([Compare(p)] + [])), |Items(s.w, queue)| + 1;
            && IsRun(s, run)
            && Run(s, run).0 == At(s, p, WillWrite(i, Successful, n)).(w := QueueSend(s.w, queue, message).0)
            && Run(s, run).1 == [Accepted(queue, message), Sampled(i, n)]
  {
    var s1 := Do(s, Enqueue(p, message, queue, i)).0;
    DoKeepsShape(s, Enqueue(p, message, queue, i));
    var s2 := Do(s1, TakeSample(p)).0;
    DoKeepsShape(s1, TakeSample(p));
    DoKeepsShape(s2, Compare(p));
    OneMore(s2, Compare(p), []);
    OneMore(s1, TakeSample(p), [Compare(p)] + []);
    OneMore(s, Enqueue(p, message, queue, i), [TakeSample(p)] + ([Compare(p)] + []));
  }

  /** Two tasks send for one thread; the one that sampled the larger count writes first, the
      other over it: the recorded maximum ends below a count that was sampled. */
  lemma LostUpdate(s: Senders, p: nat, q: nat, message: Message, queue: uint32, i: nat) returns (run: seq<Step>)
    requires Shape(s) && p < |s.pc| && q < |s.pc| && p != q && s.pc[p] == Idle && s.pc[q] == Idle && i < |s.w.maximum|
    requires s.w.interfaceQueue[i] == queue != ID_NONE && queue in s.w.queues && |message| <= s.w.queues[queue].maxSize
    requires s.w.maximum[i] <= |Items(s.w, queue)| <= s.w.queues[queue].capacity - 2
    ensures IsRun(s, run)
    ensures var n := |Items(s.w, queue)|;
            && Run(s, run).0.w.maximum[i] == n + 1
            && Sampled(i, n + 2) in Run(s, run).1
            && forall r :: 0 <= r < |Run(s, run).0.pc| ==> !Carries(Run(s, run).0.pc[r], i) || Carries(s.pc[r], i)
  {
    var n := |Items(s.w, queue)|;
    var first := [Enqueue(p, message, queue, i)] + ([TakeSample(p)] + ([Compare(p)] + []));
    UpToCompare(s, p, message, queue, i);
    var s1 := Run(s, first).0;
    var second := [Enqueue(q, message, queue, i)] + ([TakeSample(q)] + ([Compare(q)] + []));
    UpToCompare(s1, q, message, queue, i);
    RunConcat(s, first, second);
    var s2 := Run(s1, second).0;
    TwoWrites(s2, p, q, i);
    var writes := [WriteMaximum(q)] + ([WriteMaximum(p)] + []);
    RunConcat(s, first + second, writes);
    run := first + second + writes;
    assert Run(s1, second).1[1] == Sampled(i, n + 2);
    assert Sampled(i, n + 2) in Run(s, first).1 + Run(s1, second).1;
  }

  lemma TwoWrites(s: Senders, p: nat, q: nat, i: nat)
    requires Shape(s) && p < |s.pc| && q < |s.pc| && p != q && s.pc[p].WillWrite? && s.pc[q].WillWrite?
    requires s.pc[p].thread == i && s.pc[q].thread == i
    ensures var run := [WriteMaximum(q)] + ([WriteMaximum(p)] + []);
            && IsRun(s, run)
            && Run(s, run).0.w.maximum[i] == s.pc[p].count
            && Run(s, run).0.pc == s.pc[q := WillAnswer(i, s.pc[q].status)][p := WillAnswer(i, s.pc[p].status)]
            && Run(s, run).1 == []
  {
    var s1 := Do(s, WriteMaximum(q)).0;
    DoKeepsShape(s, WriteMaximum(q));
    DoKeepsShape(s1, WriteMaximum(p));
    OneMore(s1, WriteMaximum(p), []);
    OneMore(s, WriteMaximum(q), [WriteMaximum(p)] + []);
  }
}
