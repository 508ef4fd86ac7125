# Microwatt core, firmware and debug tools: a verified model

A Dafny model of the hardest state machines of the Microwatt POWER core, its firmware helpers and its host debug tool,
with proofs of what they are for. Clocked VHDL processes are modelled twice: as a next-state function (`Next`, `Step`)
over which runs of any length are reasoned about, and as a class whose `Clock` method follows the statements of the
process and is proved equal to that function. C code is modelled as methods with loops. The neighbours of each unit are
an explicit contract.

| files | what they model |
|---|---|
| `Wrappers` | what several modules share |
| `Rows`, `CacheRam`, `DCache`, `DCacheUnit`, `DCacheWay` | the data cache: write-through, critical word first, store forwarding, store merging, snoops, reservations |
| `DCacheBus` | the other side of its ports: in-order pipelined memory, other masters, the load/store unit; the processor's view of memory |
| `DCacheControl`, `DCacheData` | the control and data invariants, each kept by every cycle |
| `DCacheTheorems`, `DCacheReserve`, `DCacheVerdict`, `DCacheForeign`, `DCacheRefill`, `DCacheComplete`, `DCacheProgress` | flat memory, store-conditional atomicity and verdicts, loads under foreign writes, refill order, acknowledgement counting, unique ways, completion order, progress |
| `DCacheLarx` | a run in which a load-and-reserve completes without a reservation |
| `Scoreboard`, `ScoreboardUnit`, `ScoreboardProof`, `ScoreboardFlow` | issue control and operand capture; conservation of instructions, and what they wait for |
| `Divider`, `DividerProof` | the divider with zero skipping |
| `BitSort`, `BitSortProof` | pdepd, pextd and cfuged, one bit per cycle |
| `DmiTransport`, `DmiHost` | the debug transport across two clocks, and the host's polling loop over it |
| `LogRing`, `LogPort`, `LogDump`, `LogRunning` | the trace log, its debug port, log_stop and log_dump on the host, and log_dump on a log that is still running |
| `LogLink`, `LogSession`, `LogRemote`, `LogReach` | the log's debug port driven by the transport, host calls over both, log_dump over the whole way, and that every call can return |
| `ByteMemory`, `PageTable`, `RadixWalk`, `PageTableProof` | zero_memory and the radix page-table builder, the hardware walk of an effective address, and a TLB |
| `Numerals`, `Printf`, `PrintFormat`, `PrintMeaning` | strtoul and formatting, and what each conversion means |
| `Uart`, `UartLine` | the simulated UART, both directions on one line, and the transmitter on a line of exact frames |

The data cache is modelled in real mode, privileged, for permitted cacheable loads, stores, lwarx/ldarx and
stwcx./stdcx. The numbers of ways, lines and rows per line are unspecified constants, page numbers are unbounded, and the
victim way is any way. Its surroundings keep the bus from the first accepted strobe until `cyc` drops, never acknowledge
a strobe in the cycle it is presented, and let another master write only while the cache does not own the bus, each such
write being snooped; snoops without a write are allowed.

The slave at the other end of the debug transport raises ack only under req and drops it only after req; its data may
move at any time, as core_debug's does on registers that are live.

## Findings

Where the code does not do what is wanted of it for all inputs, the model follows the code and a lemma says exactly when
it does.

- `uart_tx` samples at `BITWIDTH/2` ticks before the end of a bit. With `BITWIDTH` 1 that is the first tick of the next
  bit: a 0x00 that is read is written as 0x80 (`UartLine.LateSample`). Bytes come through unchanged exactly when
  `BITWIDTH` is at least 2 or all of them are 0xFF (`Uart.LoopbackCorrect`).
- On a line of frames of exactly `BITWIDTH` ticks per bit, `uart_tx` writes a byte twice exactly when the next start bit
  follows its stop bit at once (`UartLine.FrameThen`, `UartLine.BackToBack`). The idle ticks of `uart_rx` keep this out
  of the loopback.
- `zero_memory` never ends when the range is not empty, does not lie within one partial cache line and does not end on a
  line boundary (`ByteMemory.NeverFinishes`); otherwise it clears exactly the range (`ByteMemory.ZeroMemory`).
- `log_dump` reads the write pointer before it stops the log. On a log that has wrapped and whose last entries are
  distinct, the dump is oldest first exactly when the number of entries logged since that read is a multiple of the
  length (`LogDump.DumpIff`). On a log that was stopped before, by its address register, a trigger or the core's read
  address, that number is zero (`LogDump.FrozenNone`); for every length from two entries up there is a running log on
  which the dump is not oldest first (`LogRunning.RunningDump`).
- At the bare debug port, a read of LOG_DATA increments the log address in the second clock after the request drops,
  unless a new request rises in that clock (`LogPort.LostIncrement`). Over the transport of dmi_dtm_ecp5.vhdl that does
  not arise: a request stays low for two clocks at least (`LogLink.TwoLowEdges`), so no increment is lost in any run
  (`LogLink.NoIncrementLost`). With five clocks between accesses every read returns the next doubleword
  (`LogPort.ReadDataAccess`), and a host whose polls last at least five system clocks gives it these
  (`LogRemote.RemoteLogDump`).
- A load-and-reserve that completes straight from stage 0 on an arriving refill row takes a reservation only if the
  previous request in stage 1 was one too (`DCacheReserve.ReservedIff`); with two rows per line or more, five cycles from
  reset lead there (`DCacheLarx.LarxUnreserved`). A later store-conditional then fails, so atomicity holds regardless.
- `print_format` stores one character more than the room it was given exactly for %c with a width above that room
  (`PrintFormat.TextFits`); `PrintFormat.WideChar` is "%5c" with room for four.

## Model

| member | source | states |
|---|---|---|
| CacheRam.Ram.Clock | cache_ram.vhdl:38-71 | one clock of the RAM: the selected bytes of the written row change and no others, and the read register gets the row from before the write |
| DCacheUnit.FindHit | dcache.vhdl:1008-1063 | the search loop over the ways returns the set of ways whose valid tag matches and the last of them |
| DCacheUnit.ForwardBytes | dcache.vhdl:1294-1307 | the byte loop of one way: this cycle's store, else the previous cycle's write, else the RAM output, lane by lane |
| DCacheUnit.SelectData | dcache.vhdl:1343-1351 | the or-multiplexer loop over the ways returns the data of the load |
| DCacheUnit.ClockRams | dcache.vhdl:1247-1284 | per-way RAM writes and reads in one clock, for all ways |
| DCacheWay.ClockWay | dcache.vhdl:1262-1324 | one clock of one way's block RAM, instantiated as the cache does, is that way's next rows and output register |
| DCacheUnit.ClockValids | dcache.vhdl:1470-1491 | snooped ways lose their valid bit and the allocated way gains it, in that order |
| DCacheUnit.IdleState | dcache.vhdl:1588-1697 | everything state IDLE changes |
| DCacheUnit.ReloadState | dcache.vhdl:1699-1767 | everything state RELOAD_WAIT_ACK changes, including the reservation taken on the arriving row |
| DCacheUnit.StoreState | dcache.vhdl:1769-1838 | everything state STORE_WAIT_ACK changes, including merging of later stores |
| DCacheUnit.StcxState | dcache.vhdl:1840-1869 | everything state DO_STCX changes |
| DCacheUnit.LatchRequest | dcache.vhdl:1353-1360 | the stored request, the write to forward in the next cycle, and the ack count |
| DCacheUnit.LatchStage1 | dcache.vhdl:1410-1586 | the whole stage 1 register, given what the state machine assigns |
| DCacheUnit.ClockStage1 | dcache.vhdl:1333-1398 | the stage 1 register and the reservation after one clock of dcache_slow and dcache_fast_hit |
| DCacheUnit.ClockStage0 | dcache.vhdl:599-638 | the stage 0 register after one clock |
| DCacheUnit.ClockTags | dcache.vhdl:876-917 | tag RAM and both tag read registers after one clock |
| DCacheUnit.DataCache.Clock | dcache.vhdl:1410-1880 | one clock of the whole cache, process by process, is the next-state function that the theorems are about |
| DCacheControl.ControlStep | dcache.vhdl:1410-1880 | every cycle keeps the control invariant: bus traffic, row bookkeeping, pending requests, ack counting, current tags, at most one valid way per tag |
| DCacheControl.CountStep | dcache.vhdl:1573-1584 | every cycle keeps: outside a refill the delayed 3-bit count is strobes presented minus acks seen, and at most 7 |
| DCacheControl.HitsUnique | dcache.vhdl:1008-1063 | a matching way is the only one |
| DCacheData.ViewStep | dcache.vhdl:1410-1880 | every cycle changes the processor's view of memory by its own store of that cycle and by other masters' writes, nothing else |
| DCacheData.FreshStep | dcache.vhdl:1333-1360 | every cycle keeps each row of each valid line equal to the view, without a foreign write of the previous cycle, which is still in the snoop register |
| DCacheData.InvStep | dcache.vhdl:1410-1880 | every cycle keeps the whole invariant |
| DCacheTheorems.LoadHitValue | dcache.vhdl:995-1006 | a load hit, forwarded or not, in a line being refilled or not, returns the view of its address, without a foreign write of the previous cycle |
| DCacheForeign.LoadSees | dcache.vhdl:899-932 | in every run, whatever other masters write, a load returns the view of its address in the cycle it takes its value or, if its line was written in the cycle before, the view of that cycle with the processor's own store |
| DCacheTheorems.RefillValue | dcache.vhdl:1713-1767 | a load completed by the arriving row returns the view of its address |
| DCacheTheorems.LoadFlow | dcache.vhdl:1410-1880 | loads are conserved: each is handed back once, with the value it had when it issued |
| DCacheTheorems.FlatMemory | dcache.vhdl:1294-1306 | in every run from reset without foreign writes, the loads handed back are, in order, those of a flat memory executing the same program; at most two requests are open |
| DCacheTheorems.FlatMemoryQuiet | dcache.vhdl:1410-1880 | once the cache is quiet, memory equals the flat memory and every load has been handed back |
| DCacheReserve.ResvStep | dcache.vhdl:899-932 | every cycle keeps: a valid reservation means the last load-and-reserve's line is untouched by others and its value current |
| DCacheReserve.ReservedIff | dcache.vhdl:1455-1463 | exactly when a completing load-and-reserve leaves a reservation |
| DCacheLarx.LarxUnreserved | dcache.vhdl:1735-1741 | from every reset state, five cycles of two loads after which a load-and-reserve has completed without one |
| DCacheReserve.StcxAtomic | dcache.vhdl:1840-1869 | in every run, whatever other masters write: a store-conditional that goes out follows a load-and-reserve of its line, with no foreign write since that took its value, memory still holding it, and no store-conditional in between |
| DCacheVerdict.VerdictExact | dcache.vhdl:1840-1869 | in every run, a store-conditional that ends has succeeded exactly if a reservation stands, its line was not snooped in the previous cycle and is the store's; no other request is reported as failed |
| DCacheVerdict.StandsStep | dcache.vhdl:1455-1463 | when a reservation stands, from requests, snoops, delivered rows and completions alone: what sets it, and that a snoop of the line and the end of any store-conditional take it away |
| DCacheVerdict.SnoopHitIff | dcache.vhdl:1008-1063 | on a hit, the snoop compare sees exactly a snoop of that line in the previous cycle |
| DCacheRefill.RefillOrder | dcache.vhdl:1699-1767 | in every run, a refill strobes and receives each row once in wrap-around order from the row of the load that missed, is over exactly at the last ack, and marks exactly the rows received |
| DCacheRefill.ReceivedRows | dcache.vhdl:1713-1767 | in every run, a row marked received in a line not snooped out holds that row's memory data |
| DCacheRefill.StoresAcked | dcache.vhdl:1769-1818 | in every run, the ack count is exact, at most 7, and cyc drops only with every strobe acknowledged |
| DCacheRefill.OneWayHits | dcache.vhdl:1347-1349 | in every run, at most one way hits, so the or-multiplexer yields that way's data |
| DCacheComplete.OneCause | dcache.vhdl:1202-1208 | no two reasons to complete hold in the same cycle |
| DCacheComplete.CompletesOldest | dcache.vhdl:1410-1880 | a completion takes the request in stage 1 or the one leaving stage 0, and a request that goes on waiting is unchanged |
| DCacheComplete.CompletionOrder | dcache.vhdl:1178-1208 | in every run, foreign writes or not, each request completes at most once and in program order, for one reason, with at most two open |
| DCacheProgress.RankStep | dcache.vhdl:1410-1880 | every cycle completes the oldest request or decreases a measure of what is ahead of it |
| DCacheProgress.EveryRequestCompletes | dcache.vhdl:1410-1880 | in every run in which no strobe is stalled, no ack withheld and stage 0 not held for more than n cycles in a row, every request handed over completes within a bound computed from n and the rows per line |
| DCacheProgress.OffersTaken | dcache.vhdl:599-638 | in every such run, a request that is offered is taken within a bounded number of cycles |
| DCacheBus.StoreMeans | cache_ram.vhdl:53-61 | a store changes the selected bytes of its row in memory and nothing else |
| Rows.OrMuxSingle | dcache.vhdl:1286-1326 | or-ing over the ways with one selected gives that way's row |
| Rows.MergeLane | cache_ram.vhdl:53-61 | a byte-selected write, lane by lane |
| ScoreboardUnit.ScanTags | control.vhdl:168-250 | the loop over the tags finds whether an unreleased recent writer of the register exists |
| ScoreboardUnit.IssueControl.Decide | control.vhdl:293-321 | whether the instruction may go, from all the stalls |
| ScoreboardUnit.IssueControl.Capture | decode2.vhdl:677-726 | the decode2 register: operands and CR from bypass port, register file, constant or held copy, busy and serialization flags |
| ScoreboardUnit.IssueControl.Clock | control.vhdl:94-150 | one clock of tag registers, current and previous tags, and the decode2 register is the next-state function |
| ScoreboardProof.OneRecent | control.vhdl:94-130 | at most one tag is valid and recent for a register: that of its youngest outstanding writer |
| ScoreboardProof.OperandSeq | decode2.vhdl:677-710 | a register operand that does not stall gets its sequential value, from a port, the register file or the held copy |
| ScoreboardProof.CrSeq | control.vhdl:261-275 | an instruction that reads or writes CR issues with the sequential CR, its youngest outstanding writer being bypassed or completing |
| ScoreboardProof.OvSeq | control.vhdl:277-283 | an instruction reading the overflow bits issues with their sequential value |
| ScoreboardProof.SerialAlone | control.vhdl:285-313 | a serialized instruction issues only when everything older has completed or completes now |
| ScoreboardProof.InvStep | control.vhdl:94-150 | every cycle keeps the invariant, through stalls, holds, deferrals, completions and flushes |
| ScoreboardProof.IssueCorrect | decode2.vhdl:305-328 | in every run, an issuing instruction carries the register, CR and overflow values of sequential execution, and a serialized one issues alone |
| ScoreboardFlow.NothingLost | decode2.vhdl:305-328 | in every run, the instructions taken from decode1 since the last flush are those issued since, in order, and the one held |
| ScoreboardFlow.IssuesExactly | decode2.vhdl:653-726 | in every run, an instruction goes to execute1 exactly if there is no flush or deferral and no older instruction it must wait for; it is the one that was up, with its tag and the values of sequential execution, alone if its own sgl_pipe or that of the one before is set |
| ScoreboardFlow.RegStallIff | control.vhdl:168-250 | a register operand stalls exactly while its youngest outstanding writer neither completes nor is on a bypass port |
| ScoreboardFlow.CrStallIff | control.vhdl:261-275 | the same for CR, for instructions that read or write it |
| ScoreboardFlow.OvStallIff | control.vhdl:277-283 | the overflow bits stall exactly while their youngest outstanding writer does not complete |
| ScoreboardFlow.SerialStallIff | control.vhdl:285-313 | a serialized instruction stalls exactly while an older one remains |
| Divider.DividerUnit.Iterate | divider.vhdl:60-89 | one running cycle: subtract, shift, or skip eight positions |
| Divider.DividerUnit.Clock | divider.vhdl:36-91 | one clock of the divider registers |
| DividerProof.SkipIsEight | divider.vhdl:75-80 | skipping equals eight single steps of the bit-at-a-time divider |
| DividerProof.MidwayStep | divider.vhdl:60-89 | every running cycle keeps the registers in step with the bit-at-a-time divider and with the overflow flags it implies |
| DividerProof.SerialResult | divider.vhdl:60-89 | 65 single steps give quotient and remainder when there is no overflow |
| DividerProof.RunToEnd | divider.vhdl:60-89 | from any point of a division, the number of cycles left and the final registers |
| DividerProof.QuotientResult | divider.vhdl:93-123 | the signed or unsigned quotient in 32 or 64 bits, or zero and overflow exactly when the divisor is 0 or the quotient does not fit |
| DividerProof.RemainderResult | divider.vhdl:93-123 | for every modulus: the sign-adjusted remainder, or zero and overflow, and exactly when which |
| DividerProof.ModulusFits | divider.vhdl:93-123 | no overflow on the operands of the modulus instructions |
| DividerProof.DivideCorrect | divider.vhdl:36-135 | every division runs 9 to 65 cycles, raises valid once, and returns the right result |
| BitSort.BitSorter.Clock | bitsort.vhdl:60-108 | one clock of the sorter is the next-state function |
| BitSortProof.SortCorrect | bitsort.vhdl:60-108 | done rises exactly 64 cycles after the request, once, with the result of pdepd, pextd or cfuged |
| BitSortProof.CfugePermutes | bitsort.vhdl:84-98 | under cfuged every bit arrives at a position of its own |
| BitSortProof.CfugeStable | bitsort.vhdl:84-98 | bits of one class keep their order |
| BitSortProof.ExtractDeposit | bitsort.vhdl:60-108 | pextd after pdepd keeps the low popcount bits |
| BitSortProof.DepositExtract | bitsort.vhdl:60-108 | pdepd after pextd masks the value |
| BitSortProof.WritersApart | bitsort.vhdl:84-98 | the left and the right writer never reach the same position |
| DmiTransport.DmiDtm.JtagClock | dmi_dtm_ecp5.vhdl:204-296 | one JTAG clock of shifter, request latch and ack synchronizer |
| DmiTransport.DmiDtm.SysClock | dmi_dtm_ecp5.vhdl:188-200 | one system clock of the request synchronizer |
| DmiTransport.LinkStep | dmi_dtm_ecp5.vhdl:188-296 | every tick of either clock, or both, and every slave move keeps the handshake invariant |
| DmiTransport.OnePulseEach | dmi_dtm_ecp5.vhdl:188-234 | under every interleaving, one dmi_req pulse and one exchange per accepted command |
| DmiTransport.StableWhileRequested | dmi_dtm_ecp5.vhdl:226-234 | address, direction and write data are constant while dmi_req is high |
| DmiTransport.TakenUnderAck | dmi_dtm_ecp5.vhdl:274-286 | the JTAG edge that ends an exchange finds request and ack high and takes what the slave drives then |
| DmiTransport.HeldUpdateInert | dmi_dtm_ecp5.vhdl:256-296 | holding update does not start the command again |
| DmiHost.AcceptsOnce | scripts/mw_debug/mw_debug.c:451-485 | during a whole call the transport accepts exactly the request's first update, and no poll |
| DmiHost.ShiftOne | scripts/mw_debug/mw_debug.c:405-437 | a shift moves one captured bit out and one bit of the command in; a whole shift exchanges the words |
| DmiHost.LoopCorrect | scripts/mw_debug/mw_debug.c:451-485 | from a quiescent link, when dmi_read or dmi_write returns, the slave has seen exactly one exchange, as requested, a read returns what the slave drove at the JTAG edge that ended it, however many polls were busy, and the link is quiescent again |
| DmiHost.LoopByBits | scripts/mw_debug/mw_debug.c:421-435 | the same promise on the bits of the command and of the answer: op, data and address fields, status 0 and 3 |
| DmiHost.CommandWord | scripts/mw_debug/mw_debug.c:421-429 | the layout of a command |
| DmiHost.HeldRead | scripts/mw_debug/mw_debug.c:451-467 | with a slave that holds its data under ack, a read returns what it drove when it raised ack |
| LogRing.CoreLog.RegWrite | core_debug.vhdl:206-257 | log address load on a request's edge, increment after the end of a data read, edge detection |
| LogRing.CoreLog.LogBuffer | core_debug.vhdl:386-431 | ring write, write pointer, and the two-stage read pipeline shared with the core's own reads |
| LogRing.CoreLog.Clock | core_debug.vhdl:386-449 | one clock of the log is the next-state function |
| LogRing.RingCorrect | core_debug.vhdl:386-424 | after every run the ring holds the last LENGTH of the entries driven in exactly the clocks in which neither address has bit 31 set and no trigger has fired, the write pointer at the oldest |
| LogRing.RecordsEvery | core_debug.vhdl:386-394 | a run in which nothing stops the log records one entry per clock |
| LogPort.SteadyRun | core_debug.vhdl:420-431 | the fetch of the selected doubleword takes three clocks and then stays |
| LogPort.ReadDataAccess | core_debug.vhdl:246-257 | a spaced read of LOG_DATA returns the selected doubleword at whatever clock it is sampled, and selects the next |
| LogPort.LostIncrement | core_debug.vhdl:208-251 | at the bare port, after a data read the address moves on exactly when no new request rises in the second clock |
| LogPort.WrittenHolds | core_debug.vhdl:389-424 | the ring keeps holding the last LENGTH entries through the clocks of an access |
| LogLink.TwoLowEdges | dmi_dtm_ecp5.vhdl:188-200 | in every run, a request that falls is low at two system clock edges |
| LogLink.NoIncrementLost | core_debug.vhdl:246-257 | in every run over the transport, under every interleaving, the end of a data read moves the address on |
| LogPort.WriteAccess | core_debug.vhdl:234-236 | after a spaced write of LOG_ADDR the doubleword it selects has been fetched |
| LogPort.ReadAddrAccess | core_debug.vhdl:447-449 | a read of LOG_ADDR returns sentinel, write pointer and address, and disturbs nothing |
| LogDump.LogSize | scripts/mw_debug/mw_debug.c:724-728 | the loop finds the power of two that is the highest bit of the write address |
| LogDump.LogStop | scripts/mw_debug/mw_debug.c:691-704 | log_stop stops the log and reports its length and write pointer |
| LogDump.ReadOut | scripts/mw_debug/mw_debug.c:734-744 | the counted loop reads the whole ring once round from the given entry |
| LogDump.LogDump | scripts/mw_debug/mw_debug.c:706-749 | log_dump writes the ring from the pointer it read and restores the address register; once wrapped, oldest first when the entries logged since are a multiple of LENGTH and, for distinct entries, only then; always on a log stopped in any of the three ways |
| LogDump.DumpIff | scripts/mw_debug/mw_debug.c:720-732 | that equivalence, for every log, environment and timing |
| LogDump.FrozenNone | core_debug.vhdl:386-387 | nothing is logged during log_dump on a log stopped by address register, trigger or core read address |
| LogDump.FrozenDump | scripts/mw_debug/mw_debug.c:706-749 | on such a log, wrapped, the dump is exactly the last LENGTH entries oldest first |
| LogRunning.RunningDump | scripts/mw_debug/mw_debug.c:720-728 | for every length from 2, a running log with nine entries logged since the read, whose dump is not oldest first |
| LogSession.CallStep | core_debug.vhdl:143-167 | every event of a host call over transport and log keeps: one request pulse, where the log's read pipeline is, what has been logged, and that the answer is the register when it was taken |
| LogSession.CallEnds | scripts/mw_debug/mw_debug.c:451-485 | when a call returns, its answer is what the log showed when it was taken, and the request has been gone for as long as the read pipeline needs |
| LogRemote.RemoteReadAddr | scripts/mw_debug/mw_debug.c:720 | a whole dmi_read of LOG_ADDR returns sentinel, write pointer and address, and disturbs nothing |
| LogRemote.RemoteReadData | scripts/mw_debug/mw_debug.c:735 | a whole dmi_read of LOG_DATA returns the selected doubleword and selects the next |
| LogRemote.RemoteWrite | scripts/mw_debug/mw_debug.c:732 | a whole dmi_write of LOG_ADDR selects and fetches its doubleword |
| LogRemote.RemoteLogDump | scripts/mw_debug/mw_debug.c:706-749 | log_dump made of whole calls, under every interleaving: the same promises as for the bare port, given that a poll lasts as long as the read pipeline |
| LogReach.CallsReturn | scripts/mw_debug/mw_debug.c:451-485 | from every state in which a call may be made, some run of clocks makes it return |
| LogReach.HostExists | scripts/mw_debug/mw_debug.c:405-437 | so a host as log_dump needs it exists |
| LogDump.OldestFirst | core_debug.vhdl:415-418 | a wrapped ring read once round from its write pointer is the last LENGTH entries, oldest first |
| LogDump.RotationsDiffer | scripts/mw_debug/mw_debug.c:731-735 | with distinct entries, dumps from different entries differ |
| ByteMemory.ZeroMemory | tests/modes/modes.c:92-114 | when it ends, every byte of the range is zero and every other byte is unchanged |
| ByteMemory.NeverFinishes | tests/modes/modes.c:97-113 | for every other range the loop never ends: it stands still with bytes left |
| ByteMemory.BigEndianRoundTrip | tests/modes/modes.c:149-156 | a doubleword stored byte-reversed reads back |
| PageTable.PteFields | tests/modes/modes.c:184-185 | a leaf entry decodes to its frame and attributes |
| PageTable.PageOfInjective | tests/modes/modes.c:160-167 | below 2^39, addresses with the same three indices are in the same page |
| PageTable.Room | tests/modes/modes.c:168-178 | table pages never run past what a directory entry can point to |
| PageTableProof.WalkAgrees | tests/modes/modes.c:126-147 | the hardware walk of every effective address, from PTCR through partition and process table, RTS, RPDS and NLS fields, gives exactly the translation of its page in the tree, a 4kB page |
| PageTableProof.AllocTable | tests/modes/modes.c:168-178 | a new table page keeps the tree, disjoint from all other tables |
| PageTableProof.SetLeaf | tests/modes/modes.c:180-185 | writing one leaf entry changes that translation and no other |
| PageTableProof.Mmu.constructor | tests/modes/modes.c:135-147 | after init_mmu partition and process table lead to an empty tree, whatever memory held |
| PageTableProof.Mmu.Descend | tests/modes/modes.c:168-179 | the tables on the way to a page exist afterwards and no translation has changed |
| PageTableProof.Mmu.Map | tests/modes/modes.c:158-186 | map sets the translation of its page and no other, and the TLB agrees with the tree when it returns |
| PageTableProof.Mmu.Unmap | tests/modes/modes.c:188-205 | unmap removes the translation of its page and no other, and the TLB agrees with the tree when it returns |
| PageTableProof.PagesDecode | tests/modes/modes.c:158-205 | the entry of each effective address below 2^39 is a valid leaf with frame and attributes of the last call for its page, or there is none |
| PageTableProof.Replay | tests/modes/modes.c:135-205 | after any sequence of calls from init_mmu, the walk of every effective address and every TLB entry give frame and attributes of the last call for its page, and nothing for any other |
| Numerals.StrToUl | litedram/gen-src/sdram_init/libc/src/strtoul.c:15-102 | white space, then an optional 0x, then the longest run of digits of the base: its value modulo 2^64 and where it ends; 0 for a bad base |
| Numerals.SpaceIff | litedram/gen-src/sdram_init/libc/src/strtoul.c:34-38 | the four characters that are skipped |
| Numerals.DigitIff | litedram/gen-src/sdram_init/libc/src/strtoul.c:67-86 | the value of every character as a digit |
| Numerals.ParsedUnique | litedram/gen-src/sdram_init/libc/src/strtoul.c:33-101 | that description determines value and end |
| Numerals.DigitsValue | litedram/gen-src/sdram_init/libc/src/vsnprintf.c:93-100 | the printed digits have the printed number's value |
| Numerals.PrintedParses | litedram/gen-src/sdram_init/libc/src/strtoul.c:33-101 | digits after spaces, zeros or 0x parse to the number, to the end |
| Printf.PrintIntLen | litedram/gen-src/sdram_init/libc/src/vsnprintf.c:59-74 | the number of digits |
| Printf.PrintItoa | litedram/gen-src/sdram_init/libc/src/vsnprintf.c:76-105 | stores exactly the digits at the cursor if they fit, and nothing otherwise |
| Printf.PrintFill | litedram/gen-src/sdram_init/libc/src/vsnprintf.c:109-128 | stores the filling that the width asks for, as far as there is room |
| Printf.PrintStr | litedram/gen-src/sdram_init/libc/src/vsnprintf.c:46-57 | stores the string as far as there is room |
| Printf.PrintStrFill | litedram/gen-src/sdram_init/libc/src/vsnprintf.c:26-44 | stores the filling for a string, with the width as a size_t |
| Printf.FieldCorrect | litedram/gen-src/sdram_init/libc/src/vsnprintf.c:109-128 | a field has the larger of width and digit count exactly when there is room, and then parses back |
| PrintFormat.Switch | litedram/gen-src/sdram_init/libc/src/vsnprintf.c:152-239 | one turn of the loop: what it stores, and how it changes width, length modifier and case |
| PrintFormat.PrintFormat | litedram/gen-src/sdram_init/libc/src/vsnprintf.c:131-244 | the buffer holds the text of the specification at the cursor and is otherwise unchanged |
| PrintFormat.FormatScans | litedram/gen-src/sdram_init/libc/src/vsnprintf.c:145-240 | the loop over flag, width, modifier and conversion is one conversion with that width, size and filling |
| PrintFormat.NumberParses | litedram/gen-src/sdram_init/libc/src/vsnprintf.c:131-188 | the text of a number has the larger of width and digit count exactly when there is room, and then parses back |
| PrintMeaning.NumberRoundTrip | litedram/gen-src/sdram_init/libc/src/vsnprintf.c:152-197 | for %u in base 10, %o and %O in 8, %x, %X and %p in 16, any flag, width and modifier: filling ('0' exactly with a flag), prefix and the digits that spell the argument modulo 2^8, 2^16, 2^32 or 2^64 (%u and %p whole); full length exactly with room, and then strtoul in that base returns the value and stops at the end |
| PrintMeaning.LetterCase | litedram/gen-src/sdram_init/libc/src/vsnprintf.c:94-96 | no upper-case letter in the text of %x, no lower-case one in that of %X |
| PrintMeaning.SignedText | litedram/gen-src/sdram_init/libc/src/vsnprintf.c:153-168 | for %d and %i: minus sign by the sign bit of the type, filling, and the digits of the magnitude |
| PrintMeaning.CharText | litedram/gen-src/sdram_init/libc/src/vsnprintf.c:198-204 | %c gives the character to the right of its filling |
| PrintMeaning.WidthMeans | litedram/gen-src/sdram_init/libc/src/vsnprintf.c:116-118 | the width is the decimal number written, as a 32-bit signed one |
| PrintFormat.StringText | litedram/gen-src/sdram_init/libc/src/vsnprintf.c:205-213 | %s gives the string to the right of its filling, all of it exactly when there is room |
| PrintFormat.TextFits | litedram/gen-src/sdram_init/libc/src/vsnprintf.c:198-204 | the text exceeds its room exactly for %c with a larger width, and then by one |
| PrintFormat.WideChar | litedram/gen-src/sdram_init/libc/src/vsnprintf.c:198-204 | the text of "%5c" with room for four characters |
| Uart.Uart.UartRx | verilator/uart-verilator.c:201-253 | one call: new state and line level |
| Uart.Uart.UartTx | verilator/uart-verilator.c:48-132 | one call: new state and the bytes written |
| Uart.SyncStep | verilator/uart-verilator.c:77-120 | every tick keeps both ends in the same phase with the same count and the sampled bits right; a byte is written exactly when its stop bit ends |
| Uart.LoopbackRun | verilator/uart-verilator.c:38-132 | for every BITWIDTH from 1 and every stream, bytes are written once each and in order, no counter underflows and ERROR is never entered |
| Uart.LoopbackCorrect | verilator/uart-verilator.c:79-82 | they are written unchanged exactly when BITWIDTH is at least 2 or all are 0xFF |
| UartLine.FrameHeard | verilator/uart-verilator.c:48-132 | a frame of exact bits leaves uart_tx one tick before the end of its stop bit with the byte complete |
| UartLine.FrameThen | verilator/uart-verilator.c:101-120 | the byte is written once if the line is idle after the frame, twice if it falls at once |
| UartLine.BackToBack | verilator/uart-verilator.c:101-120 | two frames back to back write the first byte twice |
| UartLine.LineHeard | verilator/uart-verilator.c:48-132 | any line of exact frames with at least one idle tick after each writes every byte once and in order |
| UartLine.RxFrame | verilator/uart-verilator.c:201-253 | a byte that uart_rx takes goes out as exactly its frame: start bit, eight bits from the lowest, stop bit, BITWIDTH ticks each |
| UartLine.ErrorIff | verilator/uart-verilator.c:38-46 | uart_tx goes to ERROR exactly on a transition between 0.05 and 0.95 of a bit |
| UartLine.ErrorLasts | verilator/uart-verilator.c:122-128 | for two bits nothing is written, and then uart_tx is idle |
| UartLine.LateSample | verilator/uart-verilator.c:79-82 | with BITWIDTH 1, the loopback that reads 0x00 writes 0x80 |

## Left out

- Data cache: dcbt/dcbtst, dcbz, flush, sync, cache-inhibited accesses, virtual mode and the TLB, requests from the MMU, faulting accesses, quadword atomics, and reset in mid-run.
- Data cache: PLRU replacement; the victim way is arbitrary.
- DCacheTheorems.FlatMemory: is about runs without writes by other masters; runs with them are covered by DCacheForeign.LoadSees, DCacheReserve.StcxAtomic, DCacheRefill.RefillOrder, DCacheRefill.ReceivedRows, DCacheRefill.StoresAcked, DCacheRefill.OneWayHits and DCacheComplete.CompletionOrder.
- Issue control: instruction decoding, debug access to special registers, and the functional units, which appear only as completions and bypass ports.
- Divider: reset and flush in mid-division.
- Bit sorter: bperm. Bit counting (countbits.vhdl) is not part of this model.
- Debug transport: reset in mid-transaction, metastability, the JTAGG primitive and the LUT delay chain.
- DmiHost.LoopCorrect: the host's endless polling loop is a state machine over line events and not a method, because it need not end.
- Host tool: failing JTAG calls, other backends, and every command but dmi_read, dmi_write, log_stop and log_dump.
- LogPort.ReadDataAccess: assumes five clocks between accesses; the transport alone guarantees two, LogRemote.RemoteLogDump derives five from the length of a poll.
- Trace log: the trigger registers, which appear as an arbitrary stop signal; LOG_LENGTH 0; file output and its errors.
- Page table: effective addresses from 2^39 up, whose indices wrap while the TLB invalidation does not; faults and the tests that use the tables.
- ByteMemory.ZeroMemory: covers the ranges on which the loop ends; ByteMemory.NeverFinishes covers the others.
- Formatting: vsnprintf around print_format.
- PrintMeaning.SignedText: the text of a negative number is not parsed back, since strtoul does not read a sign.
- UART: the ratio test of is_error is made on exact numbers instead of floating point; terminal input and output.
- Everything else in the repository: the other execution units, MMU, instruction cache, SoC, simulators, build scripts and instruction tables.
