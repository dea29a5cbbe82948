/** The death report of DeathReportWriter.c and DeathReport.h: the stack copy, the
    fields the writer sets, and a check sum over its image in memory. */
module DeathReport {
  import opened UInt
  import opened Gf2
  import opened Register16
  import opened Crc
  import opened CrcPeriod
  import opened CrcProperties

  /** Capacity of the stack trace, in words. */
  const STACK_TRACE_SIZE: nat := 128

  /** r0 to control, then cfsr, hfsr, mmar and bfar. */
  const SAVED_REGISTERS: nat := 26

  /** sizeof of the structure, which has no gaps. */
  const REPORT_SIZE: nat := 632

  /** Where the stack copy begins. */
  const STACK_OFFSET: nat := 120

  // ---- the little-endian image ---------------------------------------

  function HighByte(c: bv16): bv8 {
    ((c >> 8) & 0xFF) as bv8
  }

  function LowByte(c: bv16): bv8 {
    (c & 0xFF) as bv8
  }

  /** The bytes a word is stored as, least significant first. */
  function WordDigits(w: uint32): (d: seq<uint8>)
    ensures |d| == 4
  {
    [w % 0x100, w / 0x100 % 0x100, w / 0x1_0000 % 0x100, w / 0x100_0000]
  }

  function WordsDigits(ws: seq<uint32>): (d: seq<uint8>)
    ensures |d| == 4 * |ws|
  {
    if ws == [] then [] else WordDigits(ws[0]) + WordsDigits(ws[1..])
  }

  function Bytes(digits: seq<uint8>): (b: seq<bv8>)
    ensures |b| == |digits| && forall i :: 0 <= i < |b| ==> b[i] == digits[i] as bv8
  {
    seq(|digits|, i requires 0 <= i < |digits| => digits[i] as bv8)
  }

  function WordsBytes(ws: seq<uint32>): (b: seq<bv8>)
    ensures |b| == 4 * |ws|
  {
    Bytes(WordsDigits(ws))
  }

  /** The check sum stored in an image's first two bytes. */
  function StoredChecksum(image: seq<bv8>): nat
    requires |image| >= 2
  {
    0x100 * ByteValue(image[1]) + ByteValue(image[0])
  }

  /** What a reader of the report checks: the stored check sum is that of the rest. */
  predicate Consistent(image: seq<bv8>) {
    |image| >= 2 && StoredChecksum(image) == Run(0xFFFF, image[2..])
  }

  lemma JoinBytes(c: bv16)
    ensures c == ((HighByte(c) as bv16) << 8) ^ (LowByte(c) as bv16)
  {
  }

  lemma JoinedValue(h: bv8, l: bv8)
    ensures Value(((h as bv16) << 8) ^ (l as bv16)) == 0x100 * ByteValue(h) + ByteValue(l)
  {
    var high := (h as bv16) << 8;
    ValueXor(high, l as bv16);
    assert Value(high) == Shl(ByteValue(h), 8) by { ValueByte(h); }
    ByteBound(l);
    AddDisjoint(ByteValue(h), ByteValue(l), 8);
    ShlEight(ByteValue(h));
  }

  lemma StoredValue(c: bv16)
    ensures 0x100 * ByteValue(HighByte(c)) + ByteValue(LowByte(c)) == Value(c)
  {
    JoinBytes(c);
    JoinedValue(HighByte(c), LowByte(c));
  }

  // ---- which changes of a written report are noticed -----------------------

  /** Any change confined to two adjacent bytes after the check sum. */
  lemma AdjacentChangeDetected(image: seq<bv8>, changed: seq<bv8>, i: nat)
    requires Consistent(image) && |changed| == |image| && changed != image
    requires changed[..2] == image[..2]
    requires forall k :: 0 <= k < |image| && k != i && k != i + 1 ==> changed[k] == image[k]
    ensures !Consistent(changed)
  {
    var a, b := image[2..], changed[2..];
    assert image == image[..2] + a && changed == changed[..2] + b;
    var w := if i < 2 then 0 else 8 * (i - 2);
    forall s: nat | s < 8 * |a| && !(w <= s < w + 16) ensures StreamBit(a, s) == StreamBit(b, s) {
      assert a[s / 8] == image[s / 8 + 2] && b[s / 8] == changed[s / 8 + 2];
    }
    Pow2Values();
    BurstsAreDetected(0xFFFF, a, b, w);
    assert StoredChecksum(image) == StoredChecksum(changed) by {
      assert image[0] == image[..2][0] == changed[0] && image[1] == image[..2][1] == changed[1];
    }
  }

  /** The report with its check sum moved behind the bytes it covers, high byte first. */
  function Codeword(image: seq<bv8>): (w: seq<bv8>)
    requires |image| >= 2
    ensures |w| == |image|
  {
    image[2..] + [image[1], image[0]]
  }

  /** A report checks exactly when its codeword runs to zero. */
  lemma ConsistentIffZero(image: seq<bv8>)
    requires |image| >= 2
    ensures Consistent(image) <==> Run(0xFFFF, Codeword(image)) == 0
  {
    Pow2Values();
    ResidueIsZero(0xFFFF, image[2..], image[1], image[0]);
  }

  /** A changed report still checks exactly when the change, check sum field included, is a
      multiple of the generator. */
  lemma ChangeGoesUnnoticedIff(image: seq<bv8>, changed: seq<bv8>)
    requires Consistent(image) && |changed| == |image|
    ensures Consistent(changed) <==> Divides(GENERATOR, Add(Message(Codeword(image)), Message(Codeword(changed))))
  {
    Pow2Values();
    ConsistentIffZero(image);
    ConsistentIffZero(changed);
    CollisionIffMultiple(0xFFFF, Codeword(image), Codeword(changed));
  }

  /** Moving the check sum moves its flipped bits along. */
  lemma FlippedCodeword(image: seq<bv8>, changed: seq<bv8>)
    requires |image| == |changed| >= 2
    ensures Flipped(Codeword(image), Codeword(changed)) == Flipped(image, changed)
  {
    var a0, a1, a, b0, b1, b := [image[0]], [image[1]], image[2..], [changed[0]], [changed[1]], changed[2..];
    assert image == a0 + (a1 + a) && changed == b0 + (b1 + b);
    FlippedConcat(a0, b0, a1 + a, b1 + b);
    FlippedConcat(a1, b1, a, b);
    assert Codeword(image) == a + (a1 + a0) && Codeword(changed) == b + (b1 + b0);
    FlippedConcat(a, b, a1 + a0, b1 + b0);
    FlippedConcat(a1, b1, a0, b0);
  }

  /** Any odd number of flipped bits, anywhere in the report. */
  lemma OddChangeDetected(image: seq<bv8>, changed: seq<bv8>)
    requires Consistent(image) && |changed| == |image| && Flipped(image, changed) % 2 == 1
    ensures !Consistent(changed)
  {
    Pow2Values();
    ConsistentIffZero(image);
    ConsistentIffZero(changed);
    FlippedCodeword(image, changed);
    OddFlipsAreDetected(0xFFFF, Codeword(image), Codeword(changed));
  }

  /** Any one, two or three flipped bits, anywhere in the report. */
  lemma FewFlipsDetected(image: seq<bv8>, changed: seq<bv8>)
    requires Consistent(image) && |image| == REPORT_SIZE && |changed| == |image| && 1 <= Flipped(image, changed) <= 3
    ensures !Consistent(changed)
  {
    Pow2Values();
    ConsistentIffZero(image);
    ConsistentIffZero(changed);
    FlippedCodeword(image, changed);
    FewFlipsAreDetected(0xFFFF, Codeword(image), Codeword(changed));
  }

  /** The stored check sum determines its two bytes. */
  lemma ChecksumBytes(image: seq<bv8>, changed: seq<bv8>)
    requires |image| == |changed| >= 2 && StoredChecksum(image) == StoredChecksum(changed)
    ensures image[0] == changed[0] && image[1] == changed[1]
  {
    ByteBound(image[0]);
    ByteBound(changed[0]);
    Pow2Values();
    assert ByteValue(image[1]) == ByteValue(changed[1]) && ByteValue(image[0]) == ByteValue(changed[0]);
    ByteValueInjective(image[0], changed[0]);
    ByteValueInjective(image[1], changed[1]);
  }

  /** Any change of the check sum field itself. */
  lemma ChecksumChangeDetected(image: seq<bv8>, changed: seq<bv8>)
    requires Consistent(image) && |changed| == |image| && changed[2..] == image[2..] && changed != image
    ensures !Consistent(changed)
  {
    assert image == [image[0], image[1]] + image[2..];
    assert changed == [changed[0], changed[1]] + changed[2..];
    if Consistent(changed) { ChecksumBytes(image, changed); }
  }

  /** A report marked as seen without a new check sum no longer checks. */
  lemma MarkingSeenBreaksTheReport(image: seq<bv8>)
    requires Consistent(image) && |image| > 2 && image[2] == 0
    ensures !Consistent(image[2 := 1])
  {
    AdjacentChangeDetected(image, image[2 := 1], 2);
  }

  // ---- the stack copy -------------------------------------------------------

  /** Bytes between the stack pointer and the end of the stack, in 32-bit arithmetic. */
  function Distance(stackEnd: uint32, pointer: uint32): uint32 {
    Wrap32(stackEnd - pointer)
  }

  /** The recorded length: the byte distance, capped at 128, is used as a word count. */
  function TraceLength(stackEnd: uint32, pointer: uint32): uint32 {
    if Distance(stackEnd, pointer) < STACK_TRACE_SIZE then Distance(stackEnd, pointer) else STACK_TRACE_SIZE
  }

  /** The recorded length in numbers: the bytes up to the end of the stack, or to the same
      address a whole 2^32 on when the pointer is past it, but no more than 128. */
  lemma LengthIsDistance(stackEnd: uint32, pointer: uint32)
    ensures var bytes := if pointer <= stackEnd then stackEnd - pointer else 0x1_0000_0000 - (pointer - stackEnd);
            TraceLength(stackEnd, pointer) == if bytes < 128 then bytes else 128
  {
  }

  function WordAddress(pointer: uint32, i: nat): uint32 {
    Wrap32(pointer + 4 * i)
  }

  /** A little-endian word load. */
  function LoadWord(memory: uint32 -> uint8, a: uint32): uint32 {
    memory(a) + 0x100 * memory(Wrap32(a + 1)) + 0x1_0000 * memory(Wrap32(a + 2)) + 0x100_0000 * memory(Wrap32(a + 3))
  }

  lemma LastDigit(b: uint8, q: nat)
    ensures (b + 0x100 * q) % 0x100 == b && (b + 0x100 * q) / 0x100 == q
  {
  }

  lemma Quotients(w: nat)
    ensures w / 0x1_0000 == w / 0x100 / 0x100
    ensures w / 0x100_0000 == w / 0x1_0000 / 0x100
  {
  }

  lemma FourDigits(b0: uint8, b1: uint8, b2: uint8, b3: uint8)
    ensures var w := b0 + 0x100 * b1 + 0x1_0000 * b2 + 0x100_0000 * b3;
            w < 0x1_0000_0000 && WordDigits(w) == [b0, b1, b2, b3]
  {
    LastDigit(b0, b1 + 0x100 * (b2 + 0x100 * b3));
    LastDigit(b1, b2 + 0x100 * b3);
    LastDigit(b2, b3);
    Quotients(b0 + 0x100 * b1 + 0x1_0000 * b2 + 0x100_0000 * b3);
  }

  lemma FourInARow(memory: uint32 -> uint8, a: uint32, j: nat)
    requires j < 4
    ensures [memory(a), memory(Wrap32(a + 1)), memory(Wrap32(a + 2)), memory(Wrap32(a + 3))][j] == memory(Wrap32(a + j))
  {
    assert a == Wrap32(a + 0);
  }

  lemma LoadedDigit(memory: uint32 -> uint8, a: uint32, j: nat)
    requires j < 4
    ensures WordDigits(LoadWord(memory, a))[j] == memory(Wrap32(a + j))
  {
    FourInARow(memory, a, j);
    FourDigits(memory(a), memory(Wrap32(a + 1)), memory(Wrap32(a + 2)), memory(Wrap32(a + 3)));
  }

  lemma {:induction false} DigitsOfWords(ws: seq<uint32>, j: nat)
    requires j < 4 * |ws|
    ensures WordsDigits(ws)[j] == WordDigits(ws[j / 4])[j % 4]
    decreases |ws|
  {
    if j >= 4 {
      DigitsOfWords(ws[1..], j - 4);
      assert (j - 4) / 4 == j / 4 - 1 && (j - 4) % 4 == j % 4;
    }
  }

  lemma WrapTwice(x: nat, b: nat)
    ensures Wrap32(Wrap32(x) + b) == Wrap32(x + b)
  {
  }

  lemma DigitAt(memory: uint32 -> uint8, pointer: uint32, w: uint32, k: nat, b: nat)
    requires w == LoadWord(memory, WordAddress(pointer, k)) && b < 4
    ensures WordDigits(w)[b] == memory(Wrap32(pointer + (4 * k + b)))
  {
    LoadedDigit(memory, WordAddress(pointer, k), b);
    WrapTwice(pointer + 4 * k, b);
  }

  lemma DigitOf(memory: uint32 -> uint8, pointer: uint32, w: uint32, j: nat)
    requires w == LoadWord(memory, WordAddress(pointer, j / 4))
    ensures WordDigits(w)[j % 4] == memory(Wrap32(pointer + j))
  {
    var k, b := j / 4, j % 4;
    DigitAt(memory, pointer, w, k, b);
    assert 4 * k + b == j;
  }

  lemma CopiedDigits(memory: uint32 -> uint8, pointer: uint32, words: seq<uint32>, j: nat)
    requires j < 4 * |words| && words[j / 4] == LoadWord(memory, WordAddress(pointer, j / 4))
    ensures WordsDigits(words)[j] == memory(Wrap32(pointer + j))
  {
    DigitsOfWords(words, j);
    DigitOf(memory, pointer, words[j / 4], j);
  }

  /** The n bytes of memory from a pointer on. */
  function Contents(memory: uint32 -> uint8, pointer: uint32, n: nat): (b: seq<uint8>)
    ensures |b| == n && forall j :: 0 <= j < n ==> b[j] == memory(Wrap32(pointer + j))
    decreases n
  {
    if n == 0 then [] else Contents(memory, pointer, n - 1) + [memory(Wrap32(pointer + (n - 1)))]
  }

  /** Words loaded one after the other and stored again hold the bytes of memory one after the
      other. */
  lemma CopiedMemory(memory: uint32 -> uint8, pointer: uint32, words: seq<uint32>)
    requires forall i: nat :: i < |words| ==> words[i] == LoadWord(memory, WordAddress(pointer, i))
    ensures WordsBytes(words) == Bytes(Contents(memory, pointer, 4 * |words|))
  {
    var expected := Contents(memory, pointer, 4 * |words|);
    forall j | 0 <= j < 4 * |words| ensures WordsDigits(words)[j] == expected[j] {
      CopiedDigits(memory, pointer, words, j);
    }
    assert WordsDigits(words) == expected;
  }

  lemma {:induction false} WordsBytesConcat(a: seq<uint32>, b: seq<uint32>)
    ensures WordsBytes(a + b) == WordsBytes(a) + WordsBytes(b)
    decreases |a|
  {
    DigitsConcat(a, b);
  }

  lemma DigitsHead(w: uint32, rest: seq<uint32>)
    ensures WordsDigits([w] + rest) == WordDigits(w) + WordsDigits(rest)
  {
    assert ([w] + rest)[1..] == rest;
  }

  lemma {:induction false} DigitsConcat(a: seq<uint32>, b: seq<uint32>)
    ensures WordsDigits(a + b) == WordsDigits(a) + WordsDigits(b)
    decreases |a|
  {
    if a == [] {
      assert a + b == b;
    } else {
      DigitsConcat(a[1..], b);
      DigitsHead(a[0], a[1..] + b);
      assert a + b == [a[0]] + (a[1..] + b);
      assert WordDigits(a[0]) + (WordsDigits(a[1..]) + WordsDigits(b)) == (WordDigits(a[0]) + WordsDigits(a[1..])) + WordsDigits(b);
    }
  }

  /** Word i of the copy lies wholly below the end of the stack. */
  predicate WordOnStack(stackEnd: uint32, pointer: uint32, i: nat) {
    4 * i + 4 <= Distance(stackEnd, pointer)
  }

  /** With the pointer not past the end, such a word is loaded from the bytes 4 * i to
      4 * i + 3 above it, all below the end. */
  lemma OnStackIsBelowEnd(stackEnd: uint32, pointer: uint32, i: nat)
    requires pointer <= stackEnd
    ensures WordOnStack(stackEnd, pointer, i) <==> pointer + 4 * i + 3 < stackEnd
    ensures WordOnStack(stackEnd, pointer, i) ==> WordAddress(pointer, i) == pointer + 4 * i
  {
  }

  /** Two words of a copy share no byte, wherever the pointer is. */
  lemma WordsAreDisjoint(pointer: uint32, i: nat, k: nat, b: nat, c: nat)
    requires i < k < STACK_TRACE_SIZE && b < 4 && c < 4
    ensures Wrap32(WordAddress(pointer, i) + b) != Wrap32(WordAddress(pointer, k) + c)
  {
    WrapTwice(pointer + 4 * i, b);
    WrapTwice(pointer + 4 * k, c);
    WrapsApart(pointer + 4 * i + b, (4 * k + c) - (4 * i + b));
  }

  lemma WrapsApart(x: nat, d: nat)
    requires 0 < d < TWO_32
    ensures Wrap32(x) != Wrap32(x + d)
  {
  }

  /** The copy stays on the stack exactly when nothing or at least 512 bytes lie
      between the pointer and the end: below that, bytes counted as words run past it. */
  lemma CopyStaysOnStack(stackEnd: uint32, pointer: uint32)
    ensures (forall i: nat :: i < TraceLength(stackEnd, pointer) ==> WordOnStack(stackEnd, pointer, i))
        <==> Distance(stackEnd, pointer) == 0 || Distance(stackEnd, pointer) >= 4 * STACK_TRACE_SIZE
  {
    var n, d := TraceLength(stackEnd, pointer), Distance(stackEnd, pointer);
    if 0 < d < 4 * STACK_TRACE_SIZE {
      assert !WordOnStack(stackEnd, pointer, n - 1);
    }
  }

  class DeathReportWriter {
    var checksum: bv16
    var wasSeen: bv8
    var padding: bv8
    var exceptionId: uint32
    var registers: seq<uint32>
    var stackTracePointer: uint32
    var stackTraceLength: uint32
    const stackTrace: array<uint32>

    ghost predicate Valid()
      reads this
    {
      stackTrace.Length == STACK_TRACE_SIZE && |registers| == SAVED_REGISTERS
    }

    /** The bytes behind the check sum. */
    function Body(): seq<bv8>
      reads this, stackTrace
    {
      [wasSeen, padding] + WordsBytes([exceptionId] + registers + [stackTracePointer, stackTraceLength])
      + WordsBytes(stackTrace[..])
    }

    /** The whole structure as it lies in memory. */
    function Image(): (image: seq<bv8>)
      requires Valid()
      reads this, stackTrace
      ensures |image| == REPORT_SIZE
    {
      [LowByte(checksum), HighByte(checksum)] + Body()
    }

    /** The structure's fields in their order, without gaps. */
    lemma Layout()
      requires Valid()
      ensures StoredChecksum(Image()) == Value(checksum) && Image()[2] == wasSeen && Image()[3] == padding
      ensures Image()[4..120] == WordsBytes([exceptionId] + registers + [stackTracePointer, stackTraceLength])
      ensures Image()[120..] == WordsBytes(stackTrace[..])
    {
      StoredValue(checksum);
    }

    /** The stack copy closes the image and holds the bytes of memory in their order. */
    lemma StackInImage(memory: uint32 -> uint8)
      requires Valid() && stackTraceLength <= STACK_TRACE_SIZE
      requires WordsBytes(stackTrace[..stackTraceLength]) == Bytes(Contents(memory, stackTracePointer, 4 * stackTraceLength))
      ensures Image()[STACK_OFFSET..STACK_OFFSET + 4 * stackTraceLength] == Bytes(Contents(memory, stackTracePointer, 4 * stackTraceLength))
    {
      var words := stackTrace[..stackTraceLength];
      assert stackTrace[..] == words + stackTrace[stackTraceLength..];
      WordsBytesConcat(words, stackTrace[stackTraceLength..]);
      assert Image()[STACK_OFFSET..] == WordsBytes(stackTrace[..]);
      assert Image()[STACK_OFFSET..STACK_OFFSET + 4 * stackTraceLength] == Image()[STACK_OFFSET..][..4 * stackTraceLength];
    }

    method SaveStack(stackEnd: uint32, memory: uint32 -> uint8)
      requires Valid()
      modifies this`stackTraceLength, stackTrace
      ensures stackTraceLength == TraceLength(stackEnd, stackTracePointer)
      ensures forall i: nat :: i < stackTraceLength ==> stackTrace[i] == LoadWord(memory, WordAddress(stackTracePointer, i))
      ensures forall i: nat :: stackTraceLength <= i < STACK_TRACE_SIZE ==> stackTrace[i] == old(stackTrace[i])
      ensures stackTraceLength <= STACK_TRACE_SIZE
      ensures WordsBytes(stackTrace[..stackTraceLength]) == Bytes(Contents(memory, stackTracePointer, 4 * stackTraceLength))
    {
      if Wrap32(stackEnd - stackTracePointer) < STACK_TRACE_SIZE {
        stackTraceLength := Wrap32(stackEnd - stackTracePointer);
      } else {
        stackTraceLength := STACK_TRACE_SIZE;
      }
      for i := 0 to stackTraceLength
        invariant stackTraceLength == TraceLength(stackEnd, stackTracePointer)
        invariant forall j: nat :: j < i ==> stackTrace[j] == LoadWord(memory, WordAddress(stackTracePointer, j))
        invariant forall j: nat :: i <= j < STACK_TRACE_SIZE ==> stackTrace[j] == old(stackTrace[j])
      {
        stackTrace[i] := LoadWord(memory, WordAddress(stackTracePointer, i));
      }
      CopiedMemory(memory, stackTracePointer, stackTrace[..stackTraceLength]);
    }

    method CalculateReportCrc(image: seq<bv8>) returns (crc: bv16)
      requires |image| >= 2
      ensures Value(crc) == Run(0xFFFF, image[2..])
    {
      crc := CalculateCrc(image[2..]);
    }

    /** For every earlier content of the memory, the report written checks itself. */
    method GenerateDeathReport(stackEnd: uint32, memory: uint32 -> uint8) returns (done: bool)
      requires Valid()
      modifies this`stackTraceLength, this`padding, this`wasSeen, this`checksum, stackTrace
      ensures done && Valid() && Consistent(Image())
      ensures wasSeen == 0 && padding == 0
      ensures stackTraceLength == TraceLength(stackEnd, stackTracePointer) <= STACK_TRACE_SIZE
      ensures forall i: nat :: i < stackTraceLength ==> stackTrace[i] == LoadWord(memory, WordAddress(stackTracePointer, i))
      ensures forall i: nat :: stackTraceLength <= i < STACK_TRACE_SIZE ==> stackTrace[i] == old(stackTrace[i])
      ensures Image()[STACK_OFFSET..STACK_OFFSET + 4 * stackTraceLength] == Bytes(Contents(memory, stackTracePointer, 4 * stackTraceLength))
    {
      SaveStack(stackEnd, memory);
      padding := 0;
      wasSeen := 0;
      ghost var body := Body();
      var crc := CalculateReportCrc(Image());
      assert Image()[2..] == body;
      checksum := crc;
      assert Body() == body && Image()[2..] == body;
      StoredValue(checksum);
      StackInImage(memory);
      done := true;
    }
  }
}
