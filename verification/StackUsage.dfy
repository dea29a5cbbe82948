/** The stack high-water mark of Monitor.c: a scan for the first word of a painted stack
    that no longer holds the paint. */
module StackUsage {
  import opened Options
  import opened UInt

  const PATTERN: uint32 := 0xA5A5_A5A5

  /** Words a scan in steps of four reads within size bytes. */
  function WordCount(size: nat): nat {
    (size + 3) / 4
  }

  /** The first word from i on that lost its paint, or the word count. */
  function FirstUnpainted(words: seq<uint32>, i: nat): (k: nat)
    requires i <= |words|
    ensures i <= k <= |words|
    ensures forall j :: i <= j < k ==> words[j] == PATTERN
    ensures k < |words| ==> words[k] != PATTERN
    decreases |words| - i
  {
    if i == |words| || words[i] != PATTERN then i else FirstUnpainted(words, i + 1)
  }

  /** What is reported for a stack of size bytes; nothing when all paint is intact. */
  function Used(words: seq<uint32>, size: nat): nat
    requires |words| == WordCount(size)
  {
    var k := FirstUnpainted(words, 0);
    if k == |words| then 0 else size - 4 * k
  }

  // ---- writes to a painted stack --------------------------------------------------

  datatype Write = Write(index: nat, value: uint32)

  function Painted(n: nat): (words: seq<uint32>)
    ensures |words| == n && forall j :: 0 <= j < n ==> words[j] == PATTERN
  {
    seq(n, i => PATTERN)
  }

  predicate InRange(writes: seq<Write>, n: nat) {
    forall i :: 0 <= i < |writes| ==> writes[i].index < n
  }

  function Apply(words: seq<uint32>, writes: seq<Write>): (r: seq<uint32>)
    requires InRange(writes, |words|)
    ensures |r| == |words|
  {
    if writes == [] then words
    else
      var last := writes[|writes| - 1];
      Apply(words, writes[..|writes| - 1])[last.index := last.value]
  }

  /** The lowest word ever written, or n when none was. */
  function Lowest(writes: seq<Write>, n: nat): nat {
    if writes == [] then n
    else
      var m := Lowest(writes[..|writes| - 1], n);
      var k := writes[|writes| - 1].index;
      if k < m then k else m
  }

  /** The distance in bytes from the lowest word written to the end of the stack. */
  function Depth(writes: seq<Write>, size: nat): nat {
    var low := Lowest(writes, WordCount(size));
    if low == WordCount(size) then 0 else if size < 4 * low then 0 else size - 4 * low
  }

  lemma {:induction false} BelowLowestIsPaint(writes: seq<Write>, n: nat)
    requires InRange(writes, n)
    ensures Lowest(writes, n) <= n && (writes != [] ==> Lowest(writes, n) < n)
    ensures forall j :: 0 <= j < Lowest(writes, n) ==> Apply(Painted(n), writes)[j] == PATTERN
  {
    if writes != [] { BelowLowestIsPaint(writes[..|writes| - 1], n); }
  }

  /** Whatever is written, the report never exceeds the true depth or the stack, and it is
      the true depth exactly when the lowest word written does not hold the pattern again. */
  lemma {:induction false} UsedAgainstDepth(writes: seq<Write>, size: nat)
    requires InRange(writes, WordCount(size))
    ensures var words, low := Apply(Painted(WordCount(size)), writes), Lowest(writes, WordCount(size));
            && Used(words, size) <= Depth(writes, size) <= size
            && (Used(words, size) == Depth(writes, size) <==> writes == [] || words[low] != PATTERN)
  {
    var n := WordCount(size);
    var words := Apply(Painted(n), writes);
    BelowLowestIsPaint(writes, n);
    var k := FirstUnpainted(words, 0);
    assert k >= Lowest(writes, n);
    if writes == [] { assert k == n; }
  }

  predicate NeverPaints(writes: seq<Write>) {
    forall i :: 0 <= i < |writes| ==> writes[i].value != PATTERN
  }

  lemma {:induction false} LowestLosesPaint(writes: seq<Write>, n: nat)
    requires InRange(writes, n) && NeverPaints(writes) && writes != []
    ensures Lowest(writes, n) < n && Apply(Painted(n), writes)[Lowest(writes, n)] != PATTERN
  {
    var p := writes[..|writes| - 1];
    BelowLowestIsPaint(writes, n);
    if p != [] { LowestLosesPaint(p, n); }
  }

  /** With writes that never store the pattern the report is the true depth; with no
      write it is zero. */
  lemma {:induction false} UsedIsDepth(writes: seq<Write>, size: nat)
    requires InRange(writes, WordCount(size)) && NeverPaints(writes)
    ensures Used(Apply(Painted(WordCount(size)), writes), size) == Depth(writes, size)
  {
    UsedAgainstDepth(writes, size);
    if writes != [] { LowestLosesPaint(writes, WordCount(size)); }
  }

  lemma {:induction false} LowestShrinks(earlier: seq<Write>, later: seq<Write>, n: nat)
    ensures Lowest(earlier + later, n) <= Lowest(earlier, n)
    decreases |later|
  {
    if later == [] {
      assert earlier + later == earlier;
    } else {
      LowestShrinks(earlier, later[..|later| - 1], n);
      assert (earlier + later)[..|earlier + later| - 1] == earlier + later[..|later| - 1];
    }
  }

  /** The report never decreases as a run of such writes goes on. */
  lemma UsedNeverDecreases(earlier: seq<Write>, later: seq<Write>, size: nat)
    requires InRange(earlier + later, WordCount(size)) && NeverPaints(earlier + later)
    requires InRange(earlier, WordCount(size))
    ensures Used(Apply(Painted(WordCount(size)), earlier), size)
         <= Used(Apply(Painted(WordCount(size)), earlier + later), size)
  {
    assert forall i :: 0 <= i < |earlier| ==> earlier[i] == (earlier + later)[i];
    UsedIsDepth(earlier, size);
    UsedIsDepth(earlier + later, size);
    LowestShrinks(earlier, later, WordCount(size));
    BelowLowestIsPaint(earlier, WordCount(size));
    BelowLowestIsPaint(earlier + later, WordCount(size));
  }

  // ---- the scan ------------------------------------------------------------------------

  /** Byte offset of the mark from the start of the stack. */
  method FindHighWaterMark(stack: array<uint32>, size: nat) returns (mark: Option<nat>)
    requires stack.Length == WordCount(size)
    ensures mark == if FirstUnpainted(stack[..], 0) == stack.Length then None
                    else Some(4 * FirstUnpainted(stack[..], 0))
  {
    var pointer := 0;
    while pointer < size
      invariant pointer % 4 == 0 && pointer / 4 <= stack.Length
      invariant FirstUnpainted(stack[..], 0) == FirstUnpainted(stack[..], pointer / 4)
      decreases size - pointer
    {
      if stack[pointer / 4] != PATTERN {
        return Some(pointer);
      }
      pointer := pointer + 4;
    }
    mark := None;
  }

  function CalculateUsedStack(size: nat, mark: nat): nat
    requires mark <= size
  {
    size - mark
  }

  /** A thread as the visitor sees it; without RTEMS stack checking the area is missing. */
  datatype Thread = Thread(id: uint32, area: Option<array<uint32>>, size: uint32)

  /** The first thread with an identifier, or the number of threads. */
  function FirstThread(threads: seq<Thread>, id: uint32): (k: nat)
    ensures k <= |threads| && (forall j :: 0 <= j < k ==> threads[j].id != id)
    ensures k < |threads| ==> threads[k].id == id
  {
    if threads == [] || threads[0].id == id then 0 else 1 + FirstThread(threads[1..], id)
  }

  ghost predicate AreasFit(threads: seq<Thread>) {
    forall t :: t in threads && t.area.Some? ==> t.area.value.Length == WordCount(t.size)
  }

  /** The conversion of a 32-bit word to a signed one. */
  function ToInt32(x: nat): int {
    if x % 0x1_0000_0000 < 0x8000_0000 then x % 0x1_0000_0000 else x % 0x1_0000_0000 - 0x1_0000_0000
  }

  /** The signed word congruent to x; x itself below 2^31. */
  lemma SignedWord(x: nat)
    ensures -0x8000_0000 <= ToInt32(x) < 0x8000_0000 && (x - ToInt32(x)) % 0x1_0000_0000 == 0
    ensures x < 0x8000_0000 ==> ToInt32(x) == x
  {
  }

  lemma UsedIsBelowSize(words: seq<uint32>, size: uint32)
    requires |words| == WordCount(size)
    ensures Used(words, size) <= size
  {
  }

  /** The first thread with the interface's identifier decides; -1 without one, without its
      stack area, or in a build that does not measure stacks. */
  method GetMaximumStackUsage(measures: bool, threads: seq<Thread>, id: uint32) returns (usage: int)
    requires AreasFit(threads)
    ensures var k := FirstThread(threads, id);
            usage == if !measures || k == |threads| || threads[k].area.None? then -1
                     else ToInt32(Used(threads[k].area.value[..], threads[k].size))
    ensures var k := FirstThread(threads, id);
            measures && k < |threads| && threads[k].area.Some? && threads[k].size < 0x8000_0000 ==>
              usage == Used(threads[k].area.value[..], threads[k].size)
  {
    if !measures {
      return -1;
    }
    for i := 0 to |threads|
      invariant forall j :: 0 <= j < i ==> threads[j].id != id
    {
      var t := threads[i];
      if t.id == id {
        if t.area.None? {
          return -1;
        }
        var used := 0;
        var mark := FindHighWaterMark(t.area.value, t.size);
        if mark.Some? {
          used := CalculateUsedStack(t.size, mark.value);
        }
        UsedIsBelowSize(t.area.value[..], t.size);
        return ToInt32(used);
      }
    }
    usage := -1;
  }
}
