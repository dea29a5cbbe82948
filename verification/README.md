# A verified model of the runtime's hard parts

The repository is the hardware-dependent part of an RTEMS runtime for the SAMV71
microcontroller. This project models five pieces of it in Dafny and proves what they
guarantee, for all inputs and all runs. Where clients, readers and interrupts act at once,
in the DMA driver and the timer, a run is any interleaving of their single accesses.

Each piece is written twice. Functions on values say what one call does to the state; a
class or method does it the way the C code does, updating fields, arrays and registers in
place, and its `ensures` ties it to those functions. The theorems are lemmas about the
functions and about runs of them.

**Death report** (`Gf2`, `Register16`, `Crc`, `CrcProperties`, `WordProduct`, `CrcPeriod`,
`DeathReport`). The bitwise
check sum is the frame error control code of section 4.1.6.2 of CCSDS 132.0-B. Polynomials
over GF(2) are numbers whose bits are coefficients. The byte and bit loops are shown to
compute the remainder of a division, and from that which errors go unnoticed and which
never do: x has order 32767 modulo the generator, so two flipped bits go unnoticed exactly
at distances that are multiples of 32767, and no change of up to three bits of a report,
its check sum field included, does. The report that is written always checks, and its stack
copy is the memory behind the stack pointer, byte for byte.

**Elapsed time** (`ElapsedTime`). A 16-bit counter, an overflow interrupt and any number of
readers are a state machine whose actions are single accesses. Two assumptions are part of
it: an overflow that precedes a reader's counter read is serviced before that reader looks
at the flag, and the interrupt is taken before the counter wraps again. The flag is shared,
so the guarantee is for passes in which no other reader reset it: every report of every run
is consistent exactly when there is at most one reader, and the flag is reliable exactly
when the overflow has been serviced.

**Requests** (`CyclicRequests`, `RequestQueue`, `ConcurrentSenders`, `ExecutionStatistics`,
`RequestProcessing`). Periodic release in 32-bit modular time, bounded queues with a
high-water mark and an overflow callback, and incremental statistics in exact reals.
`RequestQueue` treats one sender at a time; `ConcurrentSenders` takes a send apart into its
queue send, its sample, the comparison and the write, with other senders in between.

**Monitoring** (`ActivationLog`, `StackUsage`). A cyclic log that must agree with the history
it abbreviates, and a scan that must agree with the deepest write.

**DMA driver** (`XdmacModel`, `XdmacBits`, `Xdmac`, `XdmaHardwareInterface`, `XdmadModel`,
`Xdmad`, `XdmadConfigure`, `XdmadHandler`, `XdmadOperations`, `XdmadTransfers`, `XdmadSteps`,
`XdmadRefinement`, `XdmadOwnership`, `XdmadRuns`, `XdmadLock`, `XdmadCallbacks`). The register file with its set, clear and clear-on-read registers; the channel
table and every driver call on it; the interrupt handler as one atomic step, stated channel
by channel. `XdmadOperations` says what each call promises in bits, states and table entries
alone, and `XdmadTransfers` follows a transfer from setting the callback to the answer that it
is done. `XdmadSteps` takes every call of every client apart into its single reads and
writes of the channel table and the registers, with interrupts, hardware activity and other
clients between any two of them; only allocation holds the lock. `XdmadRefinement` shows that
a call left alone does what `XdmadModel` says of it in one step. The theorems about ownership,
about the lock on a started channel, about callback pairs and about interrupted stops are
about runs of the single accesses. `StartedIsLocked`, `ReallocationAnswersDone`,
`RefusedConfigureLosesCompletion`, `StopSilences`, `PrepareThenConfigure`,
`ConfigureAloneMask`, the results of `XdmadOperations` and `XdmadTransfers`, and the lemmas on
foreign stops and frees (`StopKeepsInvIff`, `StopOnFreeChannelLeaks`, `ForeignFreeKeepsInvIff`,
`ForeignFreeSharesChannel`) are about calls taken as one step each.

Where the code does something other than its comments or names suggest, the model follows
the code:

- `save_stack` compares a distance in bytes with a number of words and copies that many
  words; `CopyStaysOnStack` says when the copy stays on the stack.
- Setting `was_seen` in a written report, which its comment announces, makes the report
  fail its own check (`MarkingSeenBreaksTheReport`).
- The counter period is 65536 ticks, but a reload counts as 65535; the 32-bit product
  overflows after 65537 reloads (`LagIsTheReloadCount`, `ReportFallsBack`).
- A timer callback that is exactly one interval late leaves the timer unarmed, and one that
  is later arms it almost 2^32 ticks ahead (`LateCallback`).
- The reported minimum execution time is a measured one only if the field did not start
  below all of them (`MinimumIsASample`); a field that starts at zero stays there.
- The latest log index is 0xFFFFFFFF whenever the number of entries is a multiple of the
  buffer size (`LatestIndex`).
- `XDMAD_StopTransfer` turns even a free channel into a halted one
  (`StopKeepsInvIff`, `StopOnFreeChannelLeaks`), and it writes HALTED before it empties the
  mask, so that an interrupt in between can leave the channel DONE (`StopOutcome`,
  `StopMayEndDone`); `XDMAD_StartTransfer` tests and writes the state without the lock, so
  that starting another client's channel can revive a freed one (`ForeignStartRacesFree`);
  a call that passed its tests before a start goes on writing after it, and can leave the
  started channel muted for good (`TouchableIff`, `PrepareRacesStart`);
  `XDMAD_SetCallback` writes callback and argument apart, so that a completion in between
  calls with half of each (`CallbackTears`, `CallIsWholeIff`) and two callers can leave a mix
  in the table (`UnruledCallersMix`);
  `XDMAD_ConfigureTransfer` discards a pending completion of a
  channel it then refuses (`RefusedConfigureLosesCompletion`), and for a single transfer
  keeps interrupts enabled earlier (`ConfigureAloneMask`); `XDMAD_IsTransferDone` answers OK
  for an allocated channel that never transferred anything (`ReallocationAnswersDone`);
  `bExec` survives into later enabled channels (`FlagLeaksIff`), and the
  end-of-block call has no NULL check (`NullCalls`). The driver never sets `IN_XFR`
  (`InTransferIsUnreachable`).
- `ThreadsCommon_SendRequest` compares with the recorded maximum and writes it without a lock,
  so that a smaller count can overwrite a larger one (`LostUpdate`).

## Model

| member | source | states |
|---|---|---|
| Crc.CalculateCrc | src/FaultHandler/DeathReportWriter.c:49-64 | The word loops hold, as a polynomial, exactly the run specified on polynomials, from the preset 0xFFFF. |
| CrcProperties.CrcIsRemainder | src/FaultHandler/DeathReportWriter.c:23-64 | The check sum is the remainder of message times x^16 with the preset folded in, modulo x^16+x^12+x^5+1, and nothing else is that remainder. |
| CrcProperties.CollisionIffMultiple | src/FaultHandler/DeathReportWriter.c:49-64 | Two messages of one length have the same check sum exactly when the polynomial of their difference is a multiple of the generator. |
| CrcProperties.BurstsAreDetected | src/FaultHandler/DeathReportWriter.c:49-64 | Different messages of any one length that differ only inside one window of 16 consecutive bits have different check sums. |
| CrcProperties.OddFlipsAreDetected | src/FaultHandler/DeathReportWriter.c:49-64 | An odd number of flipped bits, wherever they are, changes the check sum. |
| CrcPeriod.CycleIff | src/FaultHandler/DeathReportWriter.c:55-60 | x^n is 1 modulo the generator exactly when n is a multiple of 32767. |
| CrcPeriod.TwoFlipsUndetectedIff | src/FaultHandler/DeathReportWriter.c:49-64 | Two flipped bits leave the check sum unchanged exactly when their distance is a multiple of 32767, at every length. |
| CrcPeriod.FewFlipsAreDetected | src/FaultHandler/DeathReportWriter.c:49-64 | In messages of at most 32767 bits every change of one, two or three bits changes the check sum. |
| CrcProperties.MessageCoef | src/FaultHandler/DeathReportWriter.c:53-56 | The message polynomial's coefficients are the stream's bits, most significant bit of each byte first. |
| CrcProperties.MessageInjective | src/FaultHandler/DeathReportWriter.c:53-54 | Messages of one length with equal polynomials are equal. |
| CrcProperties.RunConcat | src/FaultHandler/DeathReportWriter.c:49-64 | The check sum of a concatenation is the second part's run started from the first part's register. |
| CrcProperties.RunXor | src/FaultHandler/DeathReportWriter.c:49-64 | The register is linear in preset and message together. |
| CrcProperties.CrcAffine | src/FaultHandler/DeathReportWriter.c:49-64 | crc(a xor b) is crc(a) xor crc(b) xor crc of as many zero bytes. |
| CrcProperties.ResidueIsZero | src/FaultHandler/DeathReportWriter.c:49-64 | Two bytes appended to a message make the run end in zero exactly when they are its check sum, high byte first. |
| DeathReport.DeathReportWriter.SaveStack | src/FaultHandler/DeathReportWriter.c:30-47 | Never more than 128 words for any stack pointer, wrap-around included; the copied words hold the bytes of memory from the pointer on, in order, and the rest of the buffer stays. |
| DeathReport.DeathReportWriter.Layout | src/FaultHandler/DeathReport.h:39-86 | In the image the fields lie in their order without gaps: check sum, was_seen, padding, words from byte 4, stack copy from byte 120. |
| DeathReport.CopiedMemory | src/FaultHandler/DeathReportWriter.c:42-46 | Words loaded at successive word addresses, 32-bit wrap-around included, and stored again are the bytes of memory one after the other. |
| DeathReport.LengthIsDistance | src/FaultHandler/DeathReportWriter.c:32-40 | The recorded length is the number of bytes up to the end of the stack, modulo 2^32, capped at 128. |
| DeathReport.WordsAreDisjoint | src/FaultHandler/DeathReportWriter.c:42-46 | No two words of the copy share a byte of memory, wherever the pointer is. |
| DeathReport.OnStackIsBelowEnd | src/FaultHandler/DeathReportWriter.c:42-46 | With the pointer not past the end, word i is on the stack exactly when all four bytes from pointer + 4i on are below the end. |
| DeathReport.CopyStaysOnStack | src/FaultHandler/DeathReportWriter.c:32-46 | The copy reads only below the stack's end exactly when the distance is zero or at least 512 bytes. |
| DeathReport.DeathReportWriter.CalculateReportCrc | src/FaultHandler/DeathReportWriter.c:66-74 | The check sum covers every byte after the check sum field. |
| DeathReport.DeathReportWriter.GenerateDeathReport | src/FaultHandler/DeathReportWriter.c:81-94 | Whatever the memory held, the finished report's stored check sum is that of all its later bytes, its flags are zero, and the bytes from offset 120 on are those of memory from the stack pointer on, in order, for the recorded number of words. |
| DeathReport.AdjacentChangeDetected | src/FaultHandler/DeathReportWriter.c:66-91 | Any later change confined to two adjacent bytes after the check sum field makes the report fail its check. |
| DeathReport.OddChangeDetected | src/FaultHandler/DeathReportWriter.c:66-91 | So does any odd number of flipped bits anywhere in the report, the check sum field included. |
| DeathReport.FewFlipsDetected | src/FaultHandler/DeathReportWriter.c:66-91 | So do any one, two or three flipped bits anywhere in the report, the check sum field included. |
| DeathReport.ConsistentIffZero | src/FaultHandler/DeathReportWriter.c:66-91 | A report checks exactly when its later bytes followed by its check sum, high byte first, run to zero. |
| DeathReport.ChangeGoesUnnoticedIff | src/FaultHandler/DeathReportWriter.c:66-91 | Any change of a good report, of the check sum field too, goes unnoticed exactly when the generator divides the sum of the two codeword polynomials. |
| DeathReport.ChecksumChangeDetected | src/FaultHandler/DeathReport.h:40 | So does any change of the check sum field alone. |
| DeathReport.MarkingSeenBreaksTheReport | src/FaultHandler/DeathReport.h:41 | Setting was_seen without a new check sum makes a good report fail. |
| ElapsedTime.LagIsTheReloadCount | src/Hal/Hal.c:166-167 | The reported total lags the true tick count by exactly the number of reloads if and only if there were at most 65537. |
| ElapsedTime.ReportNeverDecreases | src/Hal/Hal.c:166-167 | Within that range a later sample never reports less, even across a reload. |
| ElapsedTime.ReportFallsBack | src/Hal/Hal.c:166-167 | At the 65538th reload the report falls. |
| ElapsedTime.SnapshotConsistent | src/Hal/Hal.c:110-164 | In every interleaving, a pair leaving the loop whose last pass no other reader disturbed was held by the hardware at one instant, that of the counter read. |
| ElapsedTime.SuccessiveReportsNeverDecrease | src/Hal/Hal.c:155-167 | Over every run within the range one reader's successive totals never decrease and lag by the number of reloads. |
| ElapsedTime.OneReaderAlwaysConsistent | src/Hal/Hal.c:155-164 | With a single reader every report of every run is such a snapshot. |
| ElapsedTime.AlwaysConsistentIffOneReader | src/Hal/Hal.c:155-164 | From any start, every report of every run is a snapshot of one instant exactly when there is at most one reader. |
| ElapsedTime.SecondReaderHidesReload | src/Hal/Hal.c:161-164 | From any start with two readers there is a run in which the second one's reset hides a reload and the first reports a pair that never was. |
| ElapsedTime.FlagIsReliableIffServiced | src/Hal/Hal.c:161-164 | In an undisturbed pass with the flag down at the check, the pair is a snapshot exactly when every overflow before the counter read has been serviced. |
| ElapsedTime.LateInterruptTearsThePair | src/Hal/Hal.c:161-164 | From any start with a reader there is a run to such a moment at which it is not. |
| ElapsedTime.ElapsedTimer.TimerIrqHandler | src/Hal/Hal.c:110-117 | The interrupt counts one reload modulo 2^32 and raises the flag. |
| ElapsedTime.ElapsedTimer.GetTotalTicks | src/Hal/Hal.c:155-167 | Whatever ticks pass between its accesses, the loop's total is that of one instant within the call. |
| CyclicRequests.FirstDeadline | src/ThreadsCommon/ThreadsCommon.c:121-131 | The first deadline is offset + interval exactly when the request is created before it and less than 2^32 ticks ahead of it. |
| CyclicRequests.TicksAreMilliseconds | src/ThreadsCommon/ThreadsCommon.c:121-131 | A time in nanoseconds becomes its whole milliseconds modulo 2^32, one a tick. |
| CyclicRequests.FirstDeadlineInTime | src/ThreadsCommon/ThreadsCommon.c:104-136 | So a request of offset and interval in milliseconds is first armed for their sum exactly when it is created before it and less than 2^32 ticks ahead. |
| CyclicRequests.NextDeadline | src/ThreadsCommon/ThreadsCommon.c:54-77 | A callback arms the deadline one interval after the last one exactly when it runs less than one interval late; the delta then lies in 1 to interval. |
| CyclicRequests.LateCallback | src/ThreadsCommon/ThreadsCommon.c:59-65 | What a later callback leaves armed: nothing at one interval late, a deadline 2^32 ticks too far beyond that. |
| CyclicRequests.NoDrift | src/ThreadsCommon/ThreadsCommon.c:54-77 | Over every run with each callback less than one interval late, after k callbacks the timer is armed for offset + (k+1) * interval, and the stored wake-up is that modulo 2^32. |
| CyclicRequests.OneRequestPerPeriod | src/ThreadsCommon/ThreadsCommon.c:68-77 | Over every such run the number of requests sent is the number of periods passed, or one less while a callback is pending. |
| CyclicRequests.CyclicDispatcher.ScheduleNextTick | src/ThreadsCommon/ThreadsCommon.c:54-66 | Advances and re-arms one entry in 32-bit arithmetic and touches no other. |
| CyclicRequests.CyclicDispatcher.CreateCyclicRequest | src/ThreadsCommon/ThreadsCommon.c:104-136 | Refuses when the table is full or no timer is left, changing no entry; otherwise appends one armed entry. |
| CyclicRequests.CyclicDispatcher.TimerCallback | src/ThreadsCommon/ThreadsCommon.c:68-77 | Sends one request and re-arms its own entry only, whether or not its creation has counted it yet. |
| RequestQueue.RunConserves | src/ThreadsCommon/ThreadsCommon.c:160-183 | Over every run of sends, timer sends and receives each queue is first in, first out and loses, repeats and reorders nothing it accepted. |
| RequestQueue.MaximumIsRunningMaximum | src/ThreadsCommon/ThreadsCommon.c:168-173 | Over every run with one sender of a thread at a time the recorded maximum is the running maximum of the counts sampled after that thread's sends. |
| RequestQueue.NeverBeyondCapacity | src/ThreadsCommon/ThreadsCommon.c:168-173 | No queue and no recorded maximum ever exceeds the capacity. |
| RequestQueue.SendOutcome | src/ThreadsCommon/ThreadsCommon.c:160-183 | A request is enqueued, or dropped with exactly one callback, or refused; the answer is false exactly in the last case. |
| RequestQueue.AnswerIff | src/ThreadsCommon/ThreadsCommon.c:175-183 | The answer is true exactly when the queue exists, the message fits and there is room or an installed callback. |
| RequestQueue.LoneSend | src/ThreadsCommon/ThreadsCommon.c:160-173 | Left alone, a send appends the message exactly when it is valid and there is room, and raises the maximum to the length of the thread's own queue exactly when that is larger. |
| RequestQueue.RunBalances | src/ThreadsCommon/ThreadsCommon.c:160-183 | Over every run: one answer a request, one callback a drop when a callback is installed, and a yes exactly for what was enqueued or reported. |
| RequestQueue.RequestSender.SendRequest | src/ThreadsCommon/ThreadsCommon.c:160-183 | The stateful call has the queues, the maxima, the callbacks and the answer of the specification, whatever others do between its two queue calls. |
| ConcurrentSenders.RunConserves | src/ThreadsCommon/ThreadsCommon.c:160-183 | The same conservation over every interleaving of the single steps of many senders, timers and receivers. |
| ConcurrentSenders.RunWithinCapacity | src/ThreadsCommon/ThreadsCommon.c:160-183 | In every interleaving no queue, no recorded maximum and no count under way exceeds the capacity. |
| ConcurrentSenders.StepAccountedIff | src/ThreadsCommon/ThreadsCommon.c:168-173 | A single step keeps the running maximum of the sampled counts recorded or under way to be, exactly when it is not a write of a smaller count while no other sender carries the maximum. |
| ConcurrentSenders.AccountedIffNothingLost | src/ThreadsCommon/ThreadsCommon.c:168-173 | So it stays all through a run exactly when the run has no such write. |
| ConcurrentSenders.MaximumIsRunningMaximum | src/ThreadsCommon/ThreadsCommon.c:168-173 | In every interleaving the recorded maximum is at most the running maximum of the sampled counts; without such a write it equals it once no sender carries a count. |
| ConcurrentSenders.TurnsLoseNothing | src/ThreadsCommon/ThreadsCommon.c:168-173 | When the senders of one thread take turns, whatever the others do, no write loses that thread's maximum. |
| ConcurrentSenders.LostUpdate | src/ThreadsCommon/ThreadsCommon.c:168-173 | Two senders of one thread, from any state with room for two, have a run that records one less than a count that was sampled. |
| ExecutionStatistics.MeanIsExact | src/ThreadsCommon/ThreadsCommon.c:94-101 | The incremental mean times the count is the sum of all samples, whatever the mean field held at first. |
| ExecutionStatistics.ExtremesAreExact | src/ThreadsCommon/ThreadsCommon.c:82-92 | Minimum and maximum are those of the initial values and all samples. |
| ExecutionStatistics.MinimumIsASample | src/ThreadsCommon/ThreadsCommon.c:82-86 | The minimum is a sample exactly when some sample is not above the initial value. |
| ExecutionStatistics.MeanIsBetween | src/ThreadsCommon/ThreadsCommon.c:79-102 | From the first sample on the mean lies between minimum and maximum. |
| ExecutionStatistics.ThreadsInfo.UpdateExecutionTimeData | src/ThreadsCommon/ThreadsCommon.c:79-102 | Updates one thread's entry in place and no other's. |
| RequestProcessing.RequestProcessor.ProcessRequest | src/ThreadsCommon/ThreadsCommon.c:138-158 | Adds one activation and one deactivation entry unless the log is frozen, and the measured time, modulo 2^64, to that thread's statistics. |
| RequestProcessing.RecordsTimeTaken | src/ThreadsCommon/ThreadsCommon.c:152-155 | The recorded time added to the first reading gives the second modulo 2^64, and is their difference when the clock did not wrap; it is what the statistics take. |
| RequestProcessing.BusyAndIdle | src/ThreadsCommon/ThreadsCommon.c:146-155 | For requests done one after the other, execution times and the gaps between requests add up to exactly the time from first start to last end. |
| RequestProcessing.ProcessingIsUpdating | src/ThreadsCommon/ThreadsCommon.c:152-155 | Processing any sequence of requests leaves the statistics of the times they took. |
| RequestProcessing.BusyTimeFits | src/ThreadsCommon/ThreadsCommon.c:146-153 | The times of requests done one after the other add up to no more than the time from first start to last end. |
| RequestProcessing.MeanLoadFits | src/ThreadsCommon/ThreadsCommon.c:146-155 | Hence the mean times the count never exceeds that time. |
| ActivationLog.RunRefines | src/Monitor/Monitor.c:58-79 | After any sequence of indications, freezes, unfreezes and clears, slot j mod N holds entry j for each of the last min(n, N) entries since the last clear, and a frozen log did not change. |
| ActivationLog.SizeIsWhatIsKept | src/Monitor/Monitor.c:296-308 | The reported size is min(n, N). |
| ActivationLog.LatestIndex | src/Monitor/Monitor.c:300-301 | The reported index is the newest entry's slot exactly when N does not divide n, and 0xFFFFFFFF when it does. |
| ActivationLog.KeptIsTheTail | src/Monitor/Monitor.c:58-79 | Read oldest first, the buffer is the last min(n, N) entries of the history. |
| ActivationLog.ActivationEntryLog.HandleActivationLogCyclicBuffer | src/Monitor/Monitor.c:58-79 | Appends to the history the buffer stands for, or, frozen, answers false and changes nothing. |
| ActivationLog.ActivationEntryLog.GetInterfaceActivationEntryLog | src/Monitor/Monitor.c:286-312 | Reports size and latest index as functions of the history alone. |
| ActivationLog.ActivationEntryLog.FreezeInterfaceActivationLogging | src/Monitor/Monitor.c:314-327 | Freezes without touching entries; refused without a buffer. |
| ActivationLog.ActivationEntryLog.UnfreezeInterfaceActivationLogging | src/Monitor/Monitor.c:329-342 | Unfreezes likewise; without a buffer the log stays frozen. |
| ActivationLog.ActivationEntryLog.ClearInterfaceActivationLog | src/Monitor/Monitor.c:344-357 | Empties the history; refused without a buffer. |
| StackUsage.UsedAgainstDepth | src/Monitor/Monitor.c:115-154 | On a painted stack the report never exceeds the true depth or the stack size, and is the true depth exactly when the lowest word written does not hold the pattern again. |
| StackUsage.UsedIsDepth | src/Monitor/Monitor.c:115-184 | With writes that never store the pattern the report is the true depth; with none it is zero. |
| StackUsage.UsedNeverDecreases | src/Monitor/Monitor.c:115-184 | The report never decreases as such a run goes on. |
| StackUsage.FindHighWaterMark | src/Monitor/Monitor.c:115-140 | Finds the first word that lost its paint, or none. |
| StackUsage.SignedWord | src/Monitor/Monitor.c:142-154 | The reported int32_t is congruent to the usage modulo 2^32 and equal to it below 2^31. |
| StackUsage.GetMaximumStackUsage | src/Monitor/Monitor.c:156-244 | Reports the first matching thread's usage, converted to 32 bits with sign, or -1 without one, without its stack area, or in a build that does not measure stacks. |
| XdmaHardwareInterface.InterfaceIsFirstMatch | src/Xdmac/xdma_hardware_interface.c:120-131 | A lookup gives the first matching entry's interface, and 0xFF exactly when the specification finds none. |
| XdmaHardwareInterface.GetChannelNumber | src/Xdmac/xdma_hardware_interface.c:120-131 | The search loop returns that interface. |
| XdmaHardwareInterface.IsValidatedPeripherOnDma | src/Xdmac/xdma_hardware_interface.c:142-157 | True exactly for memory and the peripherals listed up to the last index. |
| XdmacBits.EnableItBits | src/Xdmac/xdmac.c:308-314 | Writing the enable register sets, in that channel's mask, exactly the interrupts whose bits are set in the word, and clears none in any channel. |
| XdmacBits.DisableItBits | src/Xdmac/xdmac.c:323-329 | Writing the disable register clears exactly those and sets none. |
| Xdmac.Controller.GetMaskChannelIsr | src/Xdmac/xdmac.c:363-372 | Returns the status restricted to the mask and clears the status. |
| XdmacBits.DescriptorAddrBits | src/Xdmac/xdmac.c:411-418 | Bits 2 and up of the register are the address's, the two below the interface's. |
| XdmacBits.DescriptorControlBits | src/Xdmac/xdmac.c:428-433 | Bits 0 to 7 of the control word reach the register, no others. |
| XdmacBits.MicroblockBits | src/Xdmac/xdmac.c:442-447 | Bits 0 to 23 of the length reach the register, no others. |
| XdmacBits.BlockBits | src/Xdmac/xdmac.c:456-461 | Bits 0 to 11 of the length reach the register, no others. |
| XdmacBits.StrideBits | src/Xdmac/xdmac.c:512-534 | Bits 0 to 23 of each stride reach its register, no others. |
| XdmadConfigure.PrepareThenConfigure | src/Xdmac/xdmad.c:277-310 | Prepare then configure succeeds and gives every register of the channel. Bit 0 of the descriptor word clear: all from the parameters, with their widths, and no descriptor. Bit 0 set: addresses and configuration from the parameters when bits 3 and 4 are clear, the configuration alone when only bit 3 is set, the descriptor registers from the descriptor address and word, and the rest as before. No other channel and no state changes. |
| XdmadConfigure.ConfigureAloneMask | src/Xdmac/xdmad.c:426-482 | Without prepare the interrupt mask is the parameter exactly when bit 0 of the descriptor word is set or no other interrupt was enabled before. |
| XdmadOperations.CompletionIff | src/Xdmac/xdmad.c:337-387 | A handled channel that is no longer enabled becomes DONE exactly when status and mask words share bit 1 or bit 2, or bit 0 with mask bit 1 clear; its callback is called exactly once then, if there is one, and not at all otherwise. |
| XdmadOperations.RegisterWord | src/Xdmac/xdmad.c:343 | Every status and mask the model can hold is that of some byte, so that this covers all of them. |
| XdmadOperations.RunningChannel | src/Xdmac/xdmad.c:375-387 | A handled channel that is still enabled, with no flag reaching it, keeps its state and is called back exactly once when status bit 0 is set and not at all otherwise. |
| XdmadOperations.StartEnables | src/Xdmac/xdmad.c:489-512 | For every channel j: an accepted start enables only its own, withdraws only its own disable request, and turns on only its own global interrupt, exactly outside polling mode; any other start changes nothing. |
| XdmadOperations.StopDisables | src/Xdmac/xdmad.c:519-536 | For every channel and interrupt: a stop requests the disabling of its own channel, clears its own mask and status, and leaves all others, the enabled channels and the global mask. |
| XdmadOperations.PrepareDisables | src/Xdmac/xdmad.c:277-310 | For every channel and interrupt: a prepare turns off only its own global interrupt, requests only its own disabling, and clears only its own mask and status; answers by state. |
| XdmadOperations.FreeOutcome | src/Xdmac/xdmad.c:226-243 | A channel becomes FREE with OK exactly when it is DONE, HALTED or FREE; ALLOCATED, START and IN_XFR answer BUSY and stay. |
| XdmadOperations.TransferDoneAnswers | src/Xdmac/xdmad.c:399-419 | OK exactly for DONE and ALLOCATED, ERROR exactly for FREE or no channel; a BUSY answer in polling mode, and nothing else, runs the handler. |
| XdmadOperations.AllocatesIff | src/Xdmac/xdmad.c:104-149 | An allocation succeeds exactly when one side is memory, the other is memory or listed up to the last index, and some channel is FREE. |
| XdmadOperations.AllocationRecords | src/Xdmac/xdmad.c:128-146 | It takes the lowest FREE channel and records the pair and the interfaces of the first table entries: direction 0 as transmit, 1 as receive, for source and destination each, 0xFF without an entry. |
| XdmadTransfers.LaunchOutcome | src/Xdmac/xdmad.c:252-512 | Setting the callback, preparing, configuring and starting an idle channel all answer OK and leave exactly it enabled, with the mask asked for, no old status, no disable request, and its global interrupt on exactly outside polling mode. |
| XdmadTransfers.TransferDoneIff | src/Xdmac/xdmad.c:252-512 | After that, once the hardware is done and the handler has run, transfer-done answers OK exactly when the status word ends a transfer under the interrupts asked for, and exactly then the given callback is called once with the given argument. |
| XdmadTransfers.PollTwice | src/Xdmac/xdmad.c:413-416 | In polling mode the question that finds the transfer finished answers BUSY, runs the handler and makes that call; the next one answers OK under the same condition. |
| XdmadTransfers.CommonMasks | src/Xdmac/xdmad.c:344-372 | With the block interrupt alone the end of a block ends the transfer; with the list interrupt, alone or added, only the end of the list does. |
| XdmadHandler.HandlerIsExact | src/Xdmac/xdmad.c:318-391 | A channel becomes DONE if and only if it is pending, no pending channel up to it is FREE, it is not enabled and its masked status ends a transfer; status is cleared exactly where a channel was handled; all else stays. |
| XdmadHandler.HandlerCallsAreExact | src/Xdmac/xdmad.c:378-387 | The callback trace is, in ascending order, exactly what the state on entry determines, with bExec carried from the last disabled pending channel. |
| XdmadHandler.NullCalls | src/Xdmac/xdmad.c:378-381 | The handler calls through NULL exactly when a handled, enabled channel shows end of block and has no callback. |
| XdmadHandler.FlagLeaksIff | src/Xdmac/xdmad.c:341-387 | A running channel is called back without an end of block of its own exactly when it is handled, has a callback, and some lower pending channel completed with only enabled ones pending between them. |
| XdmadHandler.FlagLeaksToRunningChannel | src/Xdmac/xdmad.c:341-387 | That call is made with the running channel's own callback and argument, and the channel is left running. |
| XdmadRefinement.CallAlone | src/Xdmac/xdmad.c:226-536 | The single accesses of each call, run without anything in between, leave the driver as the call does in one step. |
| XdmadRefinement.AllocationAlone | src/Xdmac/xdmad.c:205-219 | So do those of an allocation: lowest FREE channel, or failure. |
| XdmadRuns.StateStep | src/Xdmac/xdmad.c:104-536 | The driver's state machine, access by access: a state changes by a completing handler run, by the taking of a channel, or by the one state write of a free, start or stop, and to nothing else. |
| XdmadRuns.MaskStep | src/Xdmac/xdmad.c:300-531 | A channel's interrupt mask changes only by the write that empties it and the one that adds to it. |
| XdmadRuns.StartedIsLocked | src/Xdmac/xdmad.c:226-512 | Calls taken as one step each: from START, free, set-callback, prepare, configure and start answer BUSY and change nothing but the status that configure reads. |
| XdmadLock.StartedIsUntouched | src/Xdmac/xdmad.c:226-536 | Over every run of single accesses of clients that call only for channels they hold: while a channel is started, only the hardware changes its registers (but the status), mask, callback or description, or takes away its enabling or global interrupt, and only a completion or a stop's state write ends that state. |
| XdmadLock.TouchableIff | src/Xdmac/xdmad.c:226-536 | After any run of any clients, a started channel can still be touched before it leaves that state exactly when some call is past its tests on it. |
| XdmadLock.PrepareRacesStart | src/Xdmac/xdmad.c:277-310 | Under the rule for stops, frees and starts alone, another client's prepare that passed its tests ends after the start has returned: the channel is started with its interrupts off, and no handler run can complete it whatever the hardware does. |
| XdmadRuns.LeavingStart | src/Xdmac/xdmad.c:226-536 | Among clients that stop, free and start only what they hold, START is left only by a handler completion, to DONE, or by a stop's state write, to HALTED, even in the middle of calls. |
| XdmadRuns.InTransferIsUnreachable | src/Xdmac/xdmad.h:92-99 | No run of any clients ever reaches IN_XFR. |
| XdmadRuns.DoneMeansCompleted | src/Xdmac/xdmad.c:399-419 | Over every run of any clients from a started, stopped or free channel, transfer-done answers OK only if since then a handler run saw an unmasked completing status of the channel, or an allocation took it. |
| XdmadRuns.AnswersOkIff | src/Xdmac/xdmad.c:399-419 | Over every run of any clients from any state the answer is OK exactly when the last event on the channel, a completion, a taking or a state write, is a completion or a taking; with no event it is what it was. |
| XdmadRuns.ReallocationAnswersDone | src/Xdmac/xdmad.c:409-410 | Stopped, freed and allocated again, the channel answers OK with no completion. |
| XdmadRuns.RefusedConfigureLosesCompletion | src/Xdmac/xdmad.c:436-442 | After a configure refused with BUSY the next handler run leaves the channel in the state it would have without it exactly when no completion was pending; a pending one is discarded. |
| XdmadCallbacks.CallbackTears | src/Xdmac/xdmad.c:264-265 | When a channel completes between the two writes, the handler does call the new callback with the old argument. |
| XdmadCallbacks.CallIsWholeIff | src/Xdmac/xdmad.c:252-268 | Over every run of clients that set callbacks only on channels they hold, a handler call carries the pair of the last finished set-callback (or the initial one), or that of the one being made, exactly when no client stands between its two writes with both halves new; a torn call has the new callback and the argument of the last finished one. |
| XdmadCallbacks.PairStays | src/Xdmac/xdmad.c:252-268 | Whatever any clients do, the pair in the table stays until the next set-callback for the channel. |
| XdmadCallbacks.UnruledCallersMix | src/Xdmac/xdmad.c:264-265 | Two clients setting the callback of one channel have a run that leaves the second one's callback with the first one's argument. |
| XdmadRuns.StopSilences | src/Xdmac/xdmad.c:519-536 | A stop that nothing interrupts leaves the channel HALTED with an empty interrupt mask. |
| XdmadRuns.StopOutcome | src/Xdmac/xdmad.c:519-536 | Whatever interrupts, hardware activity and other clients' accesses come inside a stop, short of configuring the channel, it ends with an empty mask, in DONE if a handler run completed the channel after the state write and in HALTED otherwise, and nothing under way can revive the channel. |
| XdmadRuns.StopMayEndDone | src/Xdmac/xdmad.c:527-531 | An interrupt between the state write and the mask, with a completion pending, does end a stop in DONE. |
| XdmadRuns.StoppedStaysHalted | src/Xdmac/xdmad.c:318-536 | A channel a stop left HALTED stays so through any run of accesses by any clients until one of them enters a configure, start or free of it. |
| XdmadOwnership.ExclusiveOwnership | src/Xdmac/xdmad.c:104-536 | Over every run of the single accesses of clients that stop, free and start only what they hold: no channel has two holders, a channel has a holder exactly when it is not FREE, and held plus FREE is the number of channels. |
| XdmadOwnership.DoKeepsInv | src/Xdmac/xdmad.c:104-536 | Every single access of such a client, the handler and the hardware keep exclusive ownership, the lock discipline, and the rightfulness of every state write still to come. |
| XdmadOwnership.ForeignStartRacesFree | src/Xdmac/xdmad.c:498-506 | Without the rule for starts: a client passes a start's tests on another's finished channel, the holder frees it, and the state write leaves it started with no holder. |
| XdmadOwnership.StateWriteKeepsOwnershipIff | src/Xdmac/xdmad.c:506-527 | The state write of a start or stop keeps ownership exactly when the channel is not FREE at that moment. |
| XdmadOwnership.FailsOnlyWhenFull | src/Xdmac/xdmad.c:128-148 | When an allocation of a supported pair has failed, every channel that is FREE was marked free during that allocation, whatever else any client did. |
| XdmadOwnership.FailsOnlyWhenAllHeld | src/Xdmac/xdmad.c:128-148 | So with no free in between it fails only when clients hold every channel. |
| XdmadOwnership.ScanMissesFreedChannel | src/Xdmac/xdmad.c:128-148 | With a free behind the scan it fails although a channel is FREE. |
| XdmadOwnership.StopKeepsInvIff | src/Xdmac/xdmad.c:527 | A stop by any client keeps the invariant exactly when it names no channel or one that is not FREE. |
| XdmadOwnership.StopOnFreeChannelLeaks | src/Xdmac/xdmad.c:527 | Stopping a FREE channel loses it: nobody holds it and the account is one short. |
| XdmadOwnership.ForeignFreeKeepsInvIff | src/Xdmac/xdmad.c:232-241 | A free by a client that does not hold the channel keeps the invariant exactly when the channel is neither DONE nor HALTED. |
| XdmadOwnership.ForeignFreeSharesChannel | src/Xdmac/xdmad.c:237-239 | Freeing another client's finished channel succeeds and the next allocation gives it to a second holder. |
| Xdmad.Dmad.Initialize | src/Xdmac/xdmad.c:162-195 | The first call makes every channel FREE, takes the mode, and takes as count one more than the low five bits of the type register; later calls change nothing. |
| Xdmad.Dmad.AllocateXdmacChannel | src/Xdmac/xdmad.c:104-149 | The checks and the scan take the lowest FREE channel for a supported pair and no other, or fail and change nothing. |
| Xdmad.Dmad.AllocateChannel | src/Xdmac/xdmad.c:205-219 | The same under the lock; without it, failure and no change. |
| Xdmad.Dmad.FreeChannel | src/Xdmac/xdmad.c:226-243 | Only a DONE or HALTED channel becomes FREE; answers as specified. |
| Xdmad.Dmad.SetCallback | src/Xdmac/xdmad.c:252-268 | Sets callback and argument, refused on FREE and START. |
| Xdmad.Dmad.PrepareChannel | src/Xdmac/xdmad.c:277-310 | The whole register file after the call is the specified one. |
| Xdmad.Dmad.Handler | src/Xdmac/xdmad.c:318-391 | The loop has the specified states, registers and calls, early return and carried bExec included. |
| Xdmad.Dmad.HandleChannel | src/Xdmac/xdmad.c:339-387 | One round of it. |
| Xdmad.Dmad.IsTransferDone | src/Xdmac/xdmad.c:399-419 | The answer of each state; in polling mode a busy answer has run the handler. |
| Xdmad.Dmad.ConfigureTransfer | src/Xdmac/xdmad.c:426-482 | The whole register file and answer are the specified ones, the status being cleared even when refused. |
| Xdmad.Dmad.StartTransfer | src/Xdmac/xdmad.c:489-512 | State, enabled channels and, outside polling mode, interrupt mask as specified. |
| Xdmad.Dmad.StopTransfer | src/Xdmac/xdmad.c:519-536 | Any state becomes HALTED; disable request, empty mask, cleared status. |

## Left out

- ExclusiveOwnership: is for interrupt mode; in polling mode the handler runs in a client and is not atomic. Without the rule it is false, by the three lemmas that break it.
- LeavingStart: assumes the same rule; `ForeignStartRacesFree` shows a start and a free that race without it.
- PrepareThenConfigure: is about the two calls left alone; `CallAlone` ties them to their single accesses.
- StopOutcome: excludes other clients configuring the channel during the stop, which would fill its mask again.
- SnapshotConsistent: assumes that an overflow preceding the counter read is serviced before the flag check; `FlagIsReliableIffServiced` says that this is exactly what it needs.
- MeanIsExact: exact reals instead of C doubles, so rounding is not covered.
- MeanIsBetween: the same.
- MeanLoadFits: the same.
- UpdateExecutionTimeData: the same.
- RunRefines: one writer. The log is written without a lock by every thread; indications that race between the slot and the counter are not modelled.
- HandleActivationLogCyclicBuffer: the same.
- GetMaximumStackUsage: the thread list and the stack areas are parameters.
- CalculateCrc: the C loop index is an int, so messages of 2^31 bytes and more are outside the model.
- SendRequest: one sender at a time; `ConcurrentSenders` has many. Counts stay below 2^31, so the cast to int32_t changes nothing.
- MaximumIsRunningMaximum: in `RequestQueue` for one sender of a thread at a time; in `ConcurrentSenders` for many, with the write that loses a count.
- StartedIsLocked: calls taken as one step each; `StartedIsUntouched` and `TouchableIff` are the statements about single accesses.
- StartedIsUntouched: assumes that clients call only for channels they hold; `PrepareRacesStart` shows what happens otherwise, and `TouchableIff` when.
- CallIsWholeIff: a change of only one half cannot be told from a whole one, so a call between writes that share a half with the last pair counts as whole.
- ProcessRequest: a user function that freezes or clears the log itself, or sends requests, is not modelled; its running time is a pair of clock readings.
- GenerateDeathReport: `bsp_section_rtemsstack_end` and the memory the stack pointer points to are parameters; bus errors of that read are not modelled.
- Initialize: requires at most 24 channels; the five-bit hardware field could say 32, beyond the array.
- AllocateChannel: whether the lock was obtained in time is a parameter.
- GetChannelNumber: the last index comes from a hardware register and is required to lie in the table; the table itself is a parameter.
- An allocation's six descriptive fields are written in one step, after the state and before the lock is released; nobody else reads them.
- The interrupt handler is one step: it is an interrupt service routine on a single processor.
- The lock's, semaphores', timers' and queues' own behaviour is assumed as RTEMS documents it; `ConcurrentAccessFlag` is a boolean.
- A disable request keeps a channel's status bit up for as long as the hardware likes; `disabling` records the request.
- Callbacks that call back into the driver: calls are recorded in a trace.
- Peripheral clock and data cache calls, handler entry counters, the unused interrupt owner field, and the check of the driver pointer after its first use in `XDMAD_PrepareChannel`.
- The conversion of ticks to nanoseconds and sleeping, in floating point.
- Register saving in assembly, exception vectors, watchdog, memory protection, core clock arithmetic, the broker lock, the boot helper and the HAL semaphores: short sequences of hardware or RTEMS calls.
- Idle CPU usage: a running mean like that of the execution times.
