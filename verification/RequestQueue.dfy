/** Sending requests, ThreadsCommon.c and the queue queries of Monitor.c: bounded
    message queues, a high-water mark a thread, and an overflow callback. */
module RequestQueue {
  import opened UInt

  const ID_NONE: nat := 0

  type Message = seq<bv8>

  datatype Queue = Queue(capacity: nat, maxSize: nat, items: seq<Message>)

  datatype Status = Successful | InvalidId | InvalidSize | TooMany

  /** interfaceQueue, maximum and hasCallback are interface_to_queue_map,
      maximum_queued_items and a non-NULL overflow callback. */
  datatype World = World(queues: map<uint32, Queue>, interfaceQueue: seq<uint32>, maximum: seq<nat>, hasCallback: bool)

  /** What a run shows to the outside, in order. */
  datatype Event =
    | Accepted(queue: uint32, message: Message)
    | Received(queue: uint32, message: Message)
    | Sampled(thread: nat, count: int)
    | OverflowCallback(thread: nat)
    | Answered(thread: nat, status: Status, result: bool)

  type Trace = seq<Event>

  // ---- the RTEMS queue ---------------------------------------------------------

  function SendStatus(w: World, queue: uint32, message: Message): Status {
    if queue !in w.queues then InvalidId
    else if |message| > w.queues[queue].maxSize then InvalidSize
    else if |w.queues[queue].items| >= w.queues[queue].capacity then TooMany
    else Successful
  }

  function QueueSend(w: World, queue: uint32, message: Message): (r: (World, Trace))
    ensures SendStatus(w, queue, message) != Successful ==> r == (w, [])
  {
    if SendStatus(w, queue, message) != Successful then (w, [])
    else
      var q := w.queues[queue];
      (w.(queues := w.queues[queue := q.(items := q.items + [message])]), [Accepted(queue, message)])
  }

  function QueueReceive(w: World, queue: uint32): (World, Trace) {
    if queue !in w.queues || w.queues[queue].items == [] then (w, [])
    else
      var q := w.queues[queue];
      (w.(queues := w.queues[queue := q.(items := q.items[1..])]), [Received(queue, q.items[0])])
  }

  /** What other tasks and timers may do to the queues between two steps of a sender. */
  datatype Other = TimerSend(queue: uint32, message: Message) | Receive(queue: uint32)

  function Others(w: World, os: seq<Other>): (World, Trace)
    decreases |os|
  {
    if os == [] then (w, [])
    else
      var (v, t) := match os[0]
        case TimerSend(queue, message) => QueueSend(w, queue, message)
        case Receive(queue) => QueueReceive(w, queue);
      var (u, t') := Others(v, os[1..]);
      (u, t + t')
  }

  // ---- one request ----------------------------------------------------------------

  /** Monitor_GetQueuedItemsCount. */
  function QueuedItems(w: World, thread: nat): int
    requires thread < |w.interfaceQueue|
  {
    var queue := w.interfaceQueue[thread];
    if queue == ID_NONE || queue !in w.queues then -1 else |w.queues[queue].items|
  }

  function Sample(w: World, thread: nat): World
    requires thread < |w.interfaceQueue| == |w.maximum|
  {
    var count := QueuedItems(w, thread);
    if count > -1 && count > w.maximum[thread]
    then w.(maximum := w.maximum[thread := count]) else w
  }

  predicate CallsBack(w: World, status: Status) {
    status == TooMany && w.hasCallback
  }

  /** ThreadsCommon_SendRequest; between lists what others do after the send and before
      the count is sampled. */
  function Send(w: World, message: Message, queue: uint32, thread: nat, between: seq<Other>): (World, Trace)
    requires thread < |w.interfaceQueue| == |w.maximum|
  {
    var status := SendStatus(w, queue, message);
    var (w1, t1) := QueueSend(w, queue, message);
    OthersFrame(w1, between);
    var (w2, t2) := Others(w1, between);
    var w3 := Sample(w2, thread);
    var callback := if CallsBack(w, status) then [OverflowCallback(thread)] else [];
    (w3, t1 + t2 + [Sampled(thread, QueuedItems(w2, thread))] + callback
         + [Answered(thread, status, CallsBack(w, status) || status == Successful)])
  }

  lemma {:induction false} OthersFrame(w: World, os: seq<Other>)
    ensures var v := Others(w, os).0;
            v.interfaceQueue == w.interfaceQueue && v.maximum == w.maximum && v.hasCallback == w.hasCallback
            && v.queues.Keys == w.queues.Keys
    decreases |os|
  {
    if os != [] {
      match os[0]
      case TimerSend(queue, message) =>
        OthersFrame(QueueSend(w, queue, message).0, os[1..]);
      case Receive(queue) =>
        OthersFrame(QueueReceive(w, queue).0, os[1..]);
    }
  }

  // ---- runs ------------------------------------------------------------------------

  datatype Op = Request(message: Message, queue: uint32, thread: nat, between: seq<Other>) | External(other: Other)

  function Next(w: World, op: Op): (World, Trace)
    requires |w.interfaceQueue| == |w.maximum|
  {
    match op
    case External(other) => Others(w, [other])
    case Request(message, queue, thread, between) =>
      if thread < |w.maximum| then Send(w, message, queue, thread, between) else (w, [])
  }

  lemma NextFrame(w: World, op: Op)
    requires |w.interfaceQueue| == |w.maximum|
    ensures var v := Next(w, op).0;
            v.interfaceQueue == w.interfaceQueue && |v.maximum| == |w.maximum| && v.hasCallback == w.hasCallback
  {
    match op
    case External(other) => OthersFrame(w, [other]);
    case Request(message, queue, thread, between) =>
      OthersFrame(QueueSend(w, queue, message).0, between);
  }

  function Run(w: World, ops: seq<Op>): (World, Trace)
    requires |w.interfaceQueue| == |w.maximum|
    decreases |ops|
  {
    if ops == [] then (w, [])
    else
      NextFrame(w, ops[0]);
      var (v, t) := Next(w, ops[0]);
      var (u, t') := Run(v, ops[1..]);
      (u, t + t')
  }

  // ---- conservation: nothing is lost, duplicated or reordered ------------------------

  function AcceptedBy(t: Trace, queue: uint32): seq<Message> {
    if t == [] then []
    else if t[0].Accepted? && t[0].queue == queue then [t[0].message] + AcceptedBy(t[1..], queue)
    else AcceptedBy(t[1..], queue)
  }

  function ReceivedFrom(t: Trace, queue: uint32): seq<Message> {
    if t == [] then []
    else if t[0].Received? && t[0].queue == queue then [t[0].message] + ReceivedFrom(t[1..], queue)
    else ReceivedFrom(t[1..], queue)
  }

  function Items(w: World, queue: uint32): seq<Message> {
    if queue in w.queues then w.queues[queue].items else []
  }

  lemma AcceptedHead(e: Event, t: Trace, queue: uint32)
    ensures AcceptedBy([e] + t, queue) == AcceptedBy([e], queue) + AcceptedBy(t, queue)
  {
    assert ([e] + t)[1..] == t && [e][1..] == [];
  }

  lemma {:induction false} AcceptedConcat(t: Trace, u: Trace, queue: uint32)
    ensures AcceptedBy(t + u, queue) == AcceptedBy(t, queue) + AcceptedBy(u, queue)
  {
    if t == [] {
      assert t + u == u;
    } else {
      var rest := t[1..];
      AcceptedConcat(rest, u, queue);
      AcceptedHead(t[0], rest, queue);
      AcceptedHead(t[0], rest + u, queue);
      assert t == [t[0]] + rest && t + u == [t[0]] + (rest + u);
    }
  }

  lemma ReceivedHead(e: Event, t: Trace, queue: uint32)
    ensures ReceivedFrom([e] + t, queue) == ReceivedFrom([e], queue) + ReceivedFrom(t, queue)
  {
    assert ([e] + t)[1..] == t && [e][1..] == [];
  }

  lemma {:induction false} ReceivedConcat(t: Trace, u: Trace, queue: uint32)
    ensures ReceivedFrom(t + u, queue) == ReceivedFrom(t, queue) + ReceivedFrom(u, queue)
  {
    if t == [] {
      assert t + u == u;
    } else {
      var rest := t[1..];
      ReceivedConcat(rest, u, queue);
      ReceivedHead(t[0], rest, queue);
      ReceivedHead(t[0], rest + u, queue);
      assert t == [t[0]] + rest && t + u == [t[0]] + (rest + u);
    }
  }

  /** The queue held x, then t happened, and it holds y. */
  predicate Conserves(x: seq<Message>, t: Trace, y: seq<Message>, queue: uint32) {
    x + AcceptedBy(t, queue) == ReceivedFrom(t, queue) + y
  }

  lemma ConservesConcat(x: seq<Message>, t: Trace, y: seq<Message>, u: Trace, z: seq<Message>, queue: uint32)
    requires Conserves(x, t, y, queue) && Conserves(y, u, z, queue)
    ensures Conserves(x, t + u, z, queue)
  {
    AcceptedConcat(t, u, queue);
    ReceivedConcat(t, u, queue);
    var a, b, c, d := AcceptedBy(t, queue), AcceptedBy(u, queue), ReceivedFrom(t, queue), ReceivedFrom(u, queue);
    assert x + (a + b) == (x + a) + b == (c + y) + b == c + (y + b) == c + (d + z) == (c + d) + z;
  }

  lemma SendConserves(w: World, target: uint32, message: Message, queue: uint32)
    ensures var (v, t) := QueueSend(w, target, message); Conserves(Items(w, queue), t, Items(v, queue), queue)
  {
  }

  lemma ReceiveConserves(w: World, target: uint32, queue: uint32)
    ensures var (v, t) := QueueReceive(w, target); Conserves(Items(w, queue), t, Items(v, queue), queue)
  {
  }

  lemma {:induction false} OthersConserve(w: World, os: seq<Other>, queue: uint32)
    ensures var (v, t) := Others(w, os); Conserves(Items(w, queue), t, Items(v, queue), queue)
    decreases |os|
  {
    if os != [] {
      var r := match os[0]
        case TimerSend(target, message) => QueueSend(w, target, message)
        case Receive(target) => QueueReceive(w, target);
      match os[0] {
        case TimerSend(target, message) => SendConserves(w, target, message, queue);
        case Receive(target) => ReceiveConserves(w, target, queue);
      }
      OthersConserve(r.0, os[1..], queue);
      var r' := Others(r.0, os[1..]);
      ConservesConcat(Items(w, queue), r.1, Items(r.0, queue), r'.1, Items(r'.0, queue), queue);
    }
  }

  lemma SendConservesAll(w: World, message: Message, target: uint32, thread: nat, between: seq<Other>, queue: uint32)
    requires thread < |w.interfaceQueue| == |w.maximum|
    ensures var (v, t) := Send(w, message, target, thread, between);
            Conserves(Items(w, queue), t, Items(v, queue), queue)
  {
    var (w1, t1) := QueueSend(w, target, message);
    var (w2, t2) := Others(w1, between);
    OthersFrame(w1, between);
    SendConserves(w, target, message, queue);
    OthersConserve(w1, between, queue);
    ConservesConcat(Items(w, queue), t1, Items(w1, queue), t2, Items(w2, queue), queue);
    var status := SendStatus(w, target, message);
    var s, c, e := [Sampled(thread, QueuedItems(w2, thread))],
                   if CallsBack(w, status) then [OverflowCallback(thread)] else [],
                   [Answered(thread, status, CallsBack(w, status) || status == Successful)];
    var x := Items(w2, queue);
    assert Conserves(x, s, x, queue) && Conserves(x, c, x, queue) && Conserves(x, e, x, queue);
    ConservesConcat(Items(w, queue), t1 + t2, x, s, x, queue);
    ConservesConcat(Items(w, queue), t1 + t2 + s, x, c, x, queue);
    ConservesConcat(Items(w, queue), t1 + t2 + s + c, x, e, x, queue);
  }

  /** Over every run each queue stays first in, first out: what it held at the start and
      accepted since is, in order, what was received from it and what it holds now. */
  lemma {:induction false} RunConserves(w: World, ops: seq<Op>, queue: uint32)
    requires |w.interfaceQueue| == |w.maximum|
    ensures var (v, t) := Run(w, ops); Conserves(Items(w, queue), t, Items(v, queue), queue)
    decreases |ops|
  {
    if ops != [] {
      NextFrame(w, ops[0]);
      var (v, t) := Next(w, ops[0]);
      match ops[0] {
        case External(other) => OthersConserve(w, [other], queue);
        case Request(message, target, thread, between) =>
          if thread < |w.maximum| { SendConservesAll(w, message, target, thread, between, queue); }
      }
      RunConserves(v, ops[1..], queue);
      var (u, t') := Run(v, ops[1..]);
      ConservesConcat(Items(w, queue), t, Items(v, queue), t', Items(u, queue), queue);
    }
  }

  // ---- the high-water mark --------------------------------------------------------------

  function Max(a: nat, b: int): nat {
    if b > a then b else a
  }

  /** The largest of an initial value and the counts sampled for a thread. */
  function RunningMax(m: nat, t: Trace, thread: nat): nat
    decreases |t|
  {
    if t == [] then m
    else RunningMax(if t[0].Sampled? && t[0].thread == thread then Max(m, t[0].count) else m, t[1..], thread)
  }

  lemma {:induction false} RunningMaxConcat(m: nat, t: Trace, u: Trace, thread: nat)
    ensures RunningMax(m, t + u, thread) == RunningMax(RunningMax(m, t, thread), u, thread)
    decreases |t|
  {
    if t == [] {
      assert t + u == u;
    } else {
      assert (t + u)[1..] == t[1..] + u;
      RunningMaxConcat(if t[0].Sampled? && t[0].thread == thread then Max(m, t[0].count) else m, t[1..], u, thread);
    }
  }

  /** Only the sending task itself samples. */
  predicate Silent(t: Trace) {
    forall e :: e in t ==> e.Accepted? || e.Received?
  }

  lemma {:induction false} SilentMax(m: nat, t: Trace, thread: nat)
    requires Silent(t)
    ensures RunningMax(m, t, thread) == m
  {
    if t != [] {
      assert t[0] in t;
      SilentMax(m, t[1..], thread);
    }
  }

  lemma {:induction false} OthersSilent(w: World, os: seq<Other>)
    ensures Silent(Others(w, os).1)
    decreases |os|
  {
    if os != [] {
      match os[0]
      case TimerSend(queue, message) => OthersSilent(QueueSend(w, queue, message).0, os[1..]);
      case Receive(queue) => OthersSilent(QueueReceive(w, queue).0, os[1..]);
    }
  }

  lemma SendMaximum(w: World, message: Message, queue: uint32, thread: nat, between: seq<Other>, i: nat)
    requires thread < |w.interfaceQueue| == |w.maximum| && i < |w.maximum|
    ensures var (v, t) := Send(w, message, queue, thread, between);
            |v.maximum| == |w.maximum| && v.maximum[i] == RunningMax(w.maximum[i], t, i)
  {
    var status := SendStatus(w, queue, message);
    var (w1, t1) := QueueSend(w, queue, message);
    OthersFrame(w1, between);
    var (w2, t2) := Others(w1, between);
    OthersSilent(w1, between);
    var m := w.maximum[i];
    var s := [Sampled(thread, QueuedItems(w2, thread))];
    var c := if CallsBack(w, status) then [OverflowCallback(thread)] else [];
    var e := [Answered(thread, status, CallsBack(w, status) || status == Successful)];
    SilentMax(m, t1 + t2, i);
    RunningMaxConcat(m, t1 + t2, s, i);
    RunningMaxConcat(m, t1 + t2 + s, c, i);
    RunningMaxConcat(m, t1 + t2 + s + c, e, i);
    var m' := RunningMax(m, s, i);
    assert RunningMax(m', c, i) == m' && RunningMax(m', e, i) == m';
  }

  /** Over every run the recorded maximum is the running maximum of the counts sampled
      after each of the thread's sends. */
  lemma {:induction false} MaximumIsRunningMaximum(w: World, ops: seq<Op>, i: nat)
    requires |w.interfaceQueue| == |w.maximum| && i < |w.maximum|
    ensures var (v, t) := Run(w, ops); |v.maximum| == |w.maximum| && v.maximum[i] == RunningMax(w.maximum[i], t, i)
    decreases |ops|
  {
    if ops != [] {
      NextFrame(w, ops[0]);
      var (v, t) := Next(w, ops[0]);
      match ops[0] {
        case External(other) =>
          OthersFrame(w, [other]);
          OthersSilent(w, [other]);
          SilentMax(w.maximum[i], t, i);
        case Request(message, queue, thread, between) =>
          if thread < |w.maximum| { SendMaximum(w, message, queue, thread, between, i); }
      }
      MaximumIsRunningMaximum(v, ops[1..], i);
      RunningMaxConcat(w.maximum[i], t, Run(v, ops[1..]).1, i);
    }
  }

  ghost predicate Bounded(w: World) {
    && |w.interfaceQueue| == |w.maximum|
    && (forall q :: q in w.queues ==> |w.queues[q].items| <= w.queues[q].capacity)
    && (forall i :: 0 <= i < |w.maximum| && w.interfaceQueue[i] in w.queues ==>
          w.maximum[i] <= w.queues[w.interfaceQueue[i]].capacity)
  }

  /** Capacities never change. */
  predicate SameQueues(w: World, v: World) {
    v.queues.Keys == w.queues.Keys && forall q :: q in w.queues ==> v.queues[q].capacity == w.queues[q].capacity
  }

  lemma {:induction false} OthersBounded(w: World, os: seq<Other>)
    requires Bounded(w)
    ensures Bounded(Others(w, os).0) && SameQueues(w, Others(w, os).0)
    decreases |os|
  {
    if os != [] {
      match os[0]
      case TimerSend(queue, message) => OthersBounded(QueueSend(w, queue, message).0, os[1..]);
      case Receive(queue) => OthersBounded(QueueReceive(w, queue).0, os[1..]);
    }
  }

  lemma SendBounded(w: World, message: Message, queue: uint32, thread: nat, between: seq<Other>)
    requires Bounded(w) && thread < |w.maximum|
    ensures Bounded(Send(w, message, queue, thread, between).0)
    ensures SameQueues(w, Send(w, message, queue, thread, between).0)
  {
    var w1 := QueueSend(w, queue, message).0;
    assert Bounded(w1) && SameQueues(w, w1);
    OthersFrame(w1, between);
    OthersBounded(w1, between);
    var w2 := Others(w1, between).0;
    assert Bounded(w2) && SameQueues(w, w2);
    SampleBounded(w2, thread);
  }

  lemma SampleBounded(w: World, thread: nat)
    requires Bounded(w) && thread < |w.maximum|
    ensures Bounded(Sample(w, thread)) && Sample(w, thread).queues == w.queues
  {
  }

  /** No queue ever exceeds its capacity, and no recorded maximum its queue's. */
  lemma {:induction false} NeverBeyondCapacity(w: World, ops: seq<Op>)
    requires Bounded(w)
    ensures Bounded(Run(w, ops).0) && SameQueues(w, Run(w, ops).0)
    decreases |ops|
  {
    if ops != [] {
      NextFrame(w, ops[0]);
      match ops[0] {
        case External(other) => OthersBounded(w, [other]);
        case Request(message, queue, thread, between) =>
          if thread < |w.maximum| { SendBounded(w, message, queue, thread, between); }
      }
      NeverBeyondCapacity(Next(w, ops[0]).0, ops[1..]);
    }
  }

  // ---- what a sender is told ---------------------------------------------------------------

  function Count(t: Trace, p: Event -> bool): nat {
    if t == [] then 0 else (if p(t[0]) then 1 else 0) + Count(t[1..], p)
  }

  function IsCallback(e: Event): bool {
    e.OverflowCallback?
  }

  function IsAnswer(e: Event): bool {
    e.Answered?
  }

  function IsDrop(e: Event): bool {
    e.Answered? && e.status == TooMany
  }

  function IsYes(e: Event): bool {
    e.Answered? && e.result
  }

  function IsSuccess(e: Event): bool {
    e.Answered? && e.status == Successful
  }

  lemma {:induction false} CountConcat(t: Trace, u: Trace, p: Event -> bool)
    ensures Count(t + u, p) == Count(t, p) + Count(u, p)
  {
    if t == [] {
      assert t + u == u;
    } else {
      CountConcat(t[1..], u, p);
      assert (t + u)[1..] == t[1..] + u;
    }
  }

  lemma {:induction false} SilentCount(t: Trace, p: Event -> bool)
    requires Silent(t) && forall e: Event :: e.Accepted? || e.Received? ==> !p(e)
    ensures Count(t, p) == 0
  {
    if t != [] {
      assert t[0] in t;
      SilentCount(t[1..], p);
    }
  }

  /** The books of a trace: a callback for every drop when one is installed, and a yes
      exactly for what was enqueued or reported to the callback. */
  ghost predicate Balanced(w: World, t: Trace) {
    && Count(t, IsCallback) == (if w.hasCallback then Count(t, IsDrop) else 0)
    && Count(t, IsYes) == Count(t, IsSuccess) + Count(t, IsCallback)
  }

  lemma BalancedConcat(w: World, t: Trace, u: Trace)
    requires Balanced(w, t) && Balanced(w, u)
    ensures Balanced(w, t + u) && Count(t + u, IsAnswer) == Count(t, IsAnswer) + Count(u, IsAnswer)
  {
    CountConcat(t, u, IsCallback);
    CountConcat(t, u, IsDrop);
    CountConcat(t, u, IsYes);
    CountConcat(t, u, IsSuccess);
    CountConcat(t, u, IsAnswer);
  }

  lemma SilentBalanced(w: World, t: Trace)
    requires Silent(t)
    ensures Balanced(w, t) && Count(t, IsAnswer) == 0
  {
    SilentCount(t, IsCallback);
    SilentCount(t, IsDrop);
    SilentCount(t, IsYes);
    SilentCount(t, IsSuccess);
    SilentCount(t, IsAnswer);
  }

  /** A request is enqueued, or dropped with exactly one callback, or refused; the answer
      tells the last case from the other two. */
  lemma SendOutcome(w: World, message: Message, queue: uint32, thread: nat, between: seq<Other>)
    requires thread < |w.interfaceQueue| == |w.maximum|
    ensures var (v, t) := Send(w, message, queue, thread, between);
            var status := SendStatus(w, queue, message);
            && Balanced(w, t)
            && Count(t, IsAnswer) == 1
            && t[|t| - 1].Answered? && t[|t| - 1].status == status
            && (status == Successful ==> t[0] == Accepted(queue, message) && t[|t| - 1].result && Count(t, IsCallback) == 0)
            && (status == TooMany && w.hasCallback ==> t[|t| - 1].result && Count(t, IsCallback) == 1)
            && (status != Successful && !(status == TooMany && w.hasCallback) ==>
                  !t[|t| - 1].result && Count(t, IsCallback) == 0)
  {
    var status := SendStatus(w, queue, message);
    var (w1, t1) := QueueSend(w, queue, message);
    var (w2, t2) := Others(w1, between);
    OthersFrame(w1, between);
    OthersSilent(w1, between);
    var s := [Sampled(thread, QueuedItems(w2, thread))];
    var c := if CallsBack(w, status) then [OverflowCallback(thread)] else [];
    var e := [Answered(thread, status, CallsBack(w, status) || status == Successful)];
    SilentBalanced(w, t1 + t2);
    SampleBalanced(w, s[0]);
    BalancedConcat(w, t1 + t2, s);
    AnswerBalanced(w, c, e, thread, status);
    BalancedConcat(w, t1 + t2 + s, c + e);
    CountConcat(t1 + t2, s, IsCallback);
    CountConcat(t1 + t2 + s, c + e, IsCallback);
    assert t1 + t2 + s + c + e == t1 + t2 + s + (c + e);
    SilentCount(t1 + t2, IsCallback);
  }

  /** The answer is yes exactly when the queue exists, the message fits, and there is room or a
      callback to tell. */
  lemma AnswerIff(w: World, message: Message, queue: uint32, thread: nat, between: seq<Other>)
    requires thread < |w.interfaceQueue| == |w.maximum|
    ensures var t := Send(w, message, queue, thread, between).1;
            t != [] && t[|t| - 1].Answered?
            && (t[|t| - 1].result
                <==> && queue in w.queues && |message| <= w.queues[queue].maxSize
                     && (|w.queues[queue].items| < w.queues[queue].capacity || w.hasCallback))
  {
  }

  /** A send with nobody in between appends the message exactly when the queue exists, the
      message fits and there is room, and then compares the maximum with what the thread's own
      queue holds, if it has one. */
  lemma LoneSend(w: World, message: Message, queue: uint32, thread: nat)
    requires thread < |w.interfaceQueue| == |w.maximum|
    ensures var v, own := Send(w, message, queue, thread, []).0, w.interfaceQueue[thread];
            && (if queue in w.queues && |message| <= w.queues[queue].maxSize
                   && |w.queues[queue].items| < w.queues[queue].capacity
                then v.queues == w.queues[queue := w.queues[queue].(items := w.queues[queue].items + [message])]
                else v.queues == w.queues)
            && (if own != 0 && own in v.queues && |v.queues[own].items| > w.maximum[thread]
                then v.maximum == w.maximum[thread := |v.queues[own].items|]
                else v.maximum == w.maximum)
  {
  }

  lemma CountOne(e: Event, p: Event -> bool)
    ensures Count([e], p) == if p(e) then 1 else 0
  {
  }

  lemma SampleBalanced(w: World, e: Event)
    requires e.Sampled?
    ensures Balanced(w, [e]) && Count([e], IsAnswer) == 0 && Count([e], IsCallback) == 0
  {
    CountOne(e, IsCallback);
    CountOne(e, IsDrop);
    CountOne(e, IsYes);
    CountOne(e, IsSuccess);
    CountOne(e, IsAnswer);
  }

  lemma AnswerBalanced(w: World, c: Trace, e: Trace, thread: nat, status: Status)
    requires c == if CallsBack(w, status) then [OverflowCallback(thread)] else []
    requires e == [Answered(thread, status, CallsBack(w, status) || status == Successful)]
    ensures Balanced(w, c + e) && Count(c + e, IsAnswer) == 1
    ensures Count(c + e, IsCallback) == if CallsBack(w, status) then 1 else 0
  {
    CountConcat(c, e, IsCallback);
    CountConcat(c, e, IsDrop);
    CountConcat(c, e, IsYes);
    CountConcat(c, e, IsSuccess);
    CountConcat(c, e, IsAnswer);
  }

  function Requests(ops: seq<Op>, threads: nat): nat {
    if ops == [] then 0 else (if ops[0].Request? && ops[0].thread < threads then 1 else 0) + Requests(ops[1..], threads)
  }

  /** Over every run there is one answer a request, one callback a drop when a callback is
      installed, and a yes exactly for the requests enqueued or reported. */
  lemma {:induction false} RunBalances(w: World, ops: seq<Op>)
    requires |w.interfaceQueue| == |w.maximum|
    ensures Balanced(w, Run(w, ops).1) && Count(Run(w, ops).1, IsAnswer) == Requests(ops, |w.maximum|)
    decreases |ops|
  {
    if ops != [] {
      NextFrame(w, ops[0]);
      var (v, t) := Next(w, ops[0]);
      match ops[0] {
        case External(other) =>
          OthersSilent(w, [other]);
          SilentBalanced(w, t);
        case Request(message, queue, thread, between) =>
          if thread < |w.maximum| { SendOutcome(w, message, queue, thread, between); }
          else { SilentBalanced(w, t); }
      }
      RunBalances(v, ops[1..]);
      BalancedConcat(w, t, Run(v, ops[1..]).1);
    }
  }

  // ---- the state the C code updates ----------------------------------------------------------

  class RequestSender {
    var queues: map<uint32, Queue>
    var interfaceQueue: seq<uint32>
    var hasCallback: bool
    const maximumQueuedItems: array<nat>
    /** Calls made through the overflow callback: the interface of each. */
    var callbacks: seq<nat>

    function Model(): World
      reads this, maximumQueuedItems
    {
      World(queues, interfaceQueue, maximumQueuedItems[..], hasCallback)
    }

    method SendRequest(message: Message, queue: uint32, thread: nat, between: seq<Other>) returns (ok: bool)
      requires thread < |interfaceQueue| == maximumQueuedItems.Length
      modifies this`queues, this`callbacks, maximumQueuedItems
      ensures Model() == old(Send(Model(), message, queue, thread, between).0)
      ensures callbacks == old(callbacks)
              + if old(CallsBack(Model(), SendStatus(Model(), queue, message))) then [thread] else []
      ensures ok == old(CallsBack(Model(), SendStatus(Model(), queue, message))
                        || SendStatus(Model(), queue, message) == Successful)
    {
      ghost var w := Model();
      var status := SendStatus(Model(), queue, message);
      var sent := QueueSend(Model(), queue, message).0;
      OthersFrame(sent, between);
      queues := Others(sent, between).0.queues;
      var count := QueuedItems(Model(), thread);
      if count > -1 && count > maximumQueuedItems[thread] {
        maximumQueuedItems[thread] := count;
      }
      if status == TooMany && hasCallback {
        callbacks := callbacks + [thread];
        return true;
      }
      ok := status == Successful;
    }
  }
}
