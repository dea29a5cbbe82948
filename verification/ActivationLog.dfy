/** The interface activation log of Monitor.c: a cyclic buffer that can be frozen and
    cleared, and the history it abbreviates. */
module ActivationLog {
  import opened UInt

  datatype EntryType = Activation | Deactivation

  datatype Entry = Entry(interface: nat, entryType: EntryType, timestamp: uint64)

  datatype Cyclic = Cyclic(buffer: seq<Entry>, counter: uint64, frozen: bool)

  datatype Op = Indicate(entry: Entry) | Freeze | Unfreeze | Clear

  /** A buffer without room is never unfrozen, so nothing is divided by its size. */
  predicate WellFormed(s: Cyclic) {
    |s.buffer| < TWO_32 && (s.buffer == [] ==> s.frozen && s.counter == 0)
  }

  /** The new state and the value returned. */
  function Next(s: Cyclic, op: Op): (Cyclic, bool)
    requires WellFormed(s)
  {
    match op
    case Indicate(entry) =>
      if s.frozen then (s, false)
      else (s.(buffer := s.buffer[s.counter % |s.buffer| := entry], counter := Wrap64(s.counter + 1)), true)
    case Freeze => if s.buffer == [] then (s, false) else (s.(frozen := true), true)
    case Unfreeze => if s.buffer == [] then (s, false) else (s.(frozen := false), true)
    case Clear => if s.buffer == [] then (s, false) else (s.(counter := 0), true)
  }

  function After(s: Cyclic, ops: seq<Op>): (t: Cyclic)
    requires WellFormed(s)
    ensures WellFormed(t) && |t.buffer| == |s.buffer|
    decreases |ops|
  {
    if ops == [] then s else After(Next(s, ops[0]).0, ops[1..])
  }

  // ---- the history --------------------------------------------------------------

  /** Every entry logged since the last clear. */
  datatype History = History(log: seq<Entry>, frozen: bool)

  function Record(h: History, op: Op, room: bool): History {
    match op
    case Indicate(entry) => if h.frozen then h else h.(log := h.log + [entry])
    case Freeze => if room then h.(frozen := true) else h
    case Unfreeze => if room then h.(frozen := false) else h
    case Clear => if room then h.(log := []) else h
  }

  function RecordAll(h: History, ops: seq<Op>, room: bool): History
    decreases |ops|
  {
    if ops == [] then h else RecordAll(Record(h, ops[0], room), ops[1..], room)
  }

  function Min(a: nat, b: nat): nat {
    if a < b then a else b
  }

  /** Each of the last entries that fit lies in its slot. */
  ghost predicate Refines(s: Cyclic, h: History) {
    var n, size := |h.log|, |s.buffer|;
    && WellFormed(s)
    && s.frozen == h.frozen
    && s.counter == n
    && forall j :: n - Min(n, size) <= j < n ==> s.buffer[j % size] == h.log[j]
  }

  lemma NoMultipleBetween(k: int, size: nat)
    requires size > 0
    ensures k * size <= 0 || k * size >= size
  {
  }

  lemma SlotsDiffer(j: nat, n: nat, size: nat)
    requires j < n < j + size
    ensures j % size != n % size
  {
    var p, q := j / size, n / size;
    assert j == p * size + j % size && n == q * size + n % size;
    assert q * size - p * size == (q - p) * size;
    NoMultipleBetween(q - p, size);
  }

  lemma NextRefines(s: Cyclic, h: History, op: Op)
    requires Refines(s, h) && |h.log| + 1 < TWO_64
    ensures Refines(Next(s, op).0, Record(h, op, s.buffer != []))
  {
    var size, n := |s.buffer|, |h.log|;
    if op.Indicate? && !s.frozen {
      var t, k := Next(s, op).0, Record(h, op, true);
      forall j | n + 1 - Min(n + 1, size) <= j < n + 1 ensures t.buffer[j % size] == k.log[j] {
        if j < n { SlotsDiffer(j, n, size); }
      }
    }
  }

  /** After any sequence of indications, freezes, unfreezes and clears the buffer agrees
      with the history. */
  lemma {:induction false} RunRefines(s: Cyclic, h: History, ops: seq<Op>)
    requires Refines(s, h) && |h.log| + |ops| < TWO_64
    ensures Refines(After(s, ops), RecordAll(h, ops, s.buffer != []))
    decreases |ops|
  {
    if ops != [] {
      NextRefines(s, h, ops[0]);
      RunRefines(Next(s, ops[0]).0, Record(h, ops[0], s.buffer != []), ops[1..]);
    }
  }

  // ---- what is reported ---------------------------------------------------------------

  /** Latest index and size: the index is computed in 64 bits and stored in 32. */
  function Report(s: Cyclic): (uint32, uint32)
    requires WellFormed(s)
  {
    if s.counter == 0 then (0, 0)
    else (Wrap32(Wrap64(s.counter % |s.buffer| - 1)), if s.counter > |s.buffer| then |s.buffer| else s.counter)
  }

  lemma SizeIsWhatIsKept(s: Cyclic, h: History)
    requires Refines(s, h)
    ensures Report(s).1 == Min(|h.log|, |s.buffer|)
  {
  }

  lemma PreviousSlot(n: nat, size: nat)
    requires size > 0 && n > 0
    ensures (n - 1) % size == if n % size == 0 then size - 1 else n % size - 1
  {
    var q, r := n / size, n % size;
    assert n == q * size + r;
    if r == 0 {
      assert n - 1 == (q - 1) * size + (size - 1);
      SlotOf(q - 1, size, size - 1);
    } else {
      assert n - 1 == q * size + (r - 1);
      SlotOf(q, size, r - 1);
    }
  }

  lemma SlotOf(q: int, size: nat, r: nat)
    requires r < size
    ensures (q * size + r) % size == r
  {
    var x := q * size + r;
    assert x == (x / size) * size + x % size;
    var d := q - x / size;
    assert d * size == x % size - r;
    assert (-d) * size == -(d * size);
    NoMultipleBetween(d, size);
    NoMultipleBetween(-d, size);
  }

  lemma LatestValue(r: uint32)
    ensures Wrap32(Wrap64(r - 1)) == if r == 0 then 0xFFFF_FFFF else r - 1
  {
  }

  /** The reported index is the newest entry's slot exactly when the number of entries is
      not a multiple of the buffer size; at a multiple it is 0xFFFFFFFF. */
  lemma {:induction false} LatestIndex(s: Cyclic, h: History)
    requires Refines(s, h) && h.log != []
    ensures Report(s).0 == (|h.log| - 1) % |s.buffer| <==> |h.log| % |s.buffer| != 0
    ensures |h.log| % |s.buffer| == 0 ==> Report(s).0 == 0xFFFF_FFFF
    ensures |h.log| % |s.buffer| != 0 ==> s.buffer[Report(s).0] == h.log[|h.log| - 1]
  {
    var n, size := |h.log|, |s.buffer|;
    PreviousSlot(n, size);
    LatestValue(n % size);
    var slot := (n - 1) % size;
    if n % size != 0 {
      assert Report(s).0 == slot && s.buffer[slot] == h.log[n - 1];
    }
  }

  /** The entries kept, oldest first. */
  function Kept(s: Cyclic): (k: seq<Entry>)
    requires WellFormed(s)
  {
    var size := Report(s).1;
    seq(size, i requires 0 <= i < size => s.buffer[(s.counter - size + i) % |s.buffer|])
  }

  /** Read oldest first, the buffer is the tail of the history. */
  lemma KeptIsTheTail(s: Cyclic, h: History)
    requires Refines(s, h)
    ensures Kept(s) == h.log[|h.log| - Min(|h.log|, |s.buffer|)..]
  {
  }

  // ---- the state the C code updates -----------------------------------------------------

  class ActivationEntryLog {
    const buffer: array<Entry>
    var counter: uint64
    var isFrozen: bool
    ghost var history: seq<Entry>

    ghost predicate Valid()
      reads this, buffer
    {
      Refines(Model(), History(history, isFrozen))
    }

    function Model(): Cyclic
      reads this, buffer
    {
      Cyclic(buffer[..], counter, isFrozen)
    }

    constructor (memory: array<Entry>)
      requires memory.Length < TWO_32
      ensures Valid() && buffer == memory && isFrozen && history == []
    {
      buffer := memory;
      counter := 0;
      isFrozen := true;
      history := [];
    }

    method HandleActivationLogCyclicBuffer(interface: nat, entryType: EntryType, timestamp: uint64) returns (logged: bool)
      requires Valid() && |history| + 1 < TWO_64
      modifies this`counter, this`history, buffer
      ensures Valid() && logged == !isFrozen
      ensures history == old(history) + if logged then [Entry(interface, entryType, timestamp)] else []
      ensures !logged ==> buffer[..] == old(buffer[..]) && counter == old(counter)
    {
      if isFrozen {
        return false;
      }
      ghost var s, h := Model(), History(history, isFrozen);
      ghost var entry := Entry(interface, entryType, timestamp);
      NextRefines(s, h, Indicate(entry));
      var slot := counter % buffer.Length;
      buffer[slot] := buffer[slot].(interface := interface);
      buffer[slot] := buffer[slot].(entryType := entryType);
      buffer[slot] := buffer[slot].(timestamp := timestamp);
      counter := Wrap64(counter + 1);
      history := history + [entry];
      assert Model() == Next(s, Indicate(entry)).0;
      logged := true;
    }

    method GetInterfaceActivationEntryLog() returns (latest: uint32, size: uint32)
      requires Valid()
      ensures size == Min(|history|, buffer.Length)
      ensures history == [] ==> latest == 0
      ensures history != [] ==> buffer.Length > 0
      ensures history != [] && |history| % buffer.Length != 0 ==>
        latest < buffer.Length && buffer[latest] == history[|history| - 1]
      ensures history != [] && |history| % buffer.Length == 0 ==> latest == 0xFFFF_FFFF
    {
      ghost var h := History(history, isFrozen);
      SizeIsWhatIsKept(Model(), h);
      if counter == 0 {
        latest, size := 0, 0;
      } else {
        LatestIndex(Model(), h);
        latest := Wrap32(Wrap64(counter % buffer.Length - 1));
        if counter > buffer.Length {
          size := buffer.Length;
        } else {
          size := counter;
        }
      }
    }

    method FreezeInterfaceActivationLogging() returns (ok: bool)
      requires Valid()
      modifies this`isFrozen
      ensures Valid() && ok == (buffer.Length > 0) && isFrozen
    {
      if buffer.Length <= 0 {
        return false;
      }
      isFrozen := true;
      ok := true;
    }

    method UnfreezeInterfaceActivationLogging() returns (ok: bool)
      requires Valid()
      modifies this`isFrozen
      ensures Valid() && ok == (buffer.Length > 0) && isFrozen == !ok
    {
      if buffer.Length <= 0 {
        return false;
      }
      isFrozen := false;
      ok := true;
    }

    method ClearInterfaceActivationLog() returns (ok: bool)
      requires Valid()
      modifies this`counter, this`history
      ensures Valid() && ok == (buffer.Length > 0) && history == []
    {
      if buffer.Length <= 0 {
        return false;
      }
      counter := 0;
      history := [];
      ok := true;
    }
  }
}
