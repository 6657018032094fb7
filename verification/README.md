# Proofs about the RV32 PC and its accelerators

This project models the algorithms of the RV32 PC repository in Dafny and proves what they
are meant to do. `dafny verify dfyconfig.toml` checks everything.

The model keeps the form of the sources. Clocked Verilog modules and C structures are classes
whose methods update their registers, arrays and memories in place; each method is proved
against a function on a snapshot of that state, and the theorems are about runs of those
functions. Pure encoders, geometry and checks are functions and lemmas. Machine words are
bounded integers with wrap-around written out; bitwise operators are defined bit by bit.

Five groups of files, and their main theorems:

1. **Assembler and machine code** (`Rv32`, `Rv32Meaning`, `Encoding`, `Assembler`, `AsmRun`,
   `PutHex`). The generator's `Program` object appends words, records labels and fixups and
   back-patches them. `AssemblingPreservesMeaning`: every run of the final words is, step for
   step, the run of the symbolic instructions. On top of it `PutHexWordPrints` gives the
   behaviour of a macro's machine code on every value, and `Assemble` is the whole tool in one
   contract.
2. **Triangle rasterizer**, written three times (`Raster`, `GpuLite`, `GpuAgreement`,
   `Emulator`). The inside test is membership in the convex hull; the clocked scan,
   the C loops and the Python reference all paint exactly the pixels of the whole grid that
   pass it (`DrawCommand`, `RasterLoops`, `Rasterize`, `DrawsAgree`). Over any input history
   the hardware shows the accepted commands applied in order (`CommandsApplied`).
3. **Command queue and accelerators** (`EmuSpec`, `Emulator`, `EmuQueue`, `EmuReports`,
   `NpuMeaning`, `QueueDrain`, `CmdqHost`, `CmdqFifo`, `CmdqFrontend`, `AxiFetch`,
   `NpuPayload`, `AxiArbiter`, `AxiRead`, `AxiStatus`, `ResultStore`). Draining is exact,
   descriptors act like register writes, host and device form a FIFO over all interleavings,
   and the hardware steps keep order, ownership and data under arbitrary memory stalls, while
   software and the accelerators change memory. `NpuMeaning`, `EmuReports` and `AxiStatus` say
   what results, registers and memory then show, without the functions that compute them.
4. **Boot loader**, written twice (`BootSpec`, `SpiMacros`, `BootListing`, `BootAsm`,
   `BootPayload`, `BootRun`, `BootAssembles`, `BootMonitor`, `BootProof`). The assembly listing
   assembles (`BootTryAssembles`) and is run on the machine model instruction by instruction,
   for every memory, card and transfer delay, and compared with the C loader; built images
   round-trip; over any number of boot attempts a loaded image is the one of the last attempt,
   and nothing else the monitor does damages it or its record.
5. **UART and text console** (`Uart`, `Console`), against a byte stream and an unscrolled page.

How the pieces meet: `Rv32` executes the sixteen instruction forms the generator emits, plus
its custom dot product, on a bus with SRAM, the UART data register and the SPI master; the SPI
card is an arbitrary byte stream with an arbitrary delay for each transfer. A program is a
list of calls on the assembler object (`Call`), and `Leads` says that the machine gets from
one place in the list to another. Clocked modules are composed by feeding each the others'
outputs of the same cycle.

Points where the code decides the statement:

- A label defined twice silently keeps the later pc, so run theorems assume names are given
  once (`Distinct`); `LabelIsLastMark` says what holds without that.
- `accel_cmdq_host_sync` reloads the cached head, which forgets unsubmitted pushes:
  `SyncKeeps` is an if-and-only-if, `LostPush` says what is overwritten otherwise, and runs
  synchronise only when nothing is unsubmitted.
- Reads of the TAIL register in hardware return the value software wrote
  (`rtl/accel/accel_mmio_regs.v:149`), so the producer is composed with the emulator.
- The frontend fetches one descriptor for each doorbell change that finds it idle with work
  queued (`OneFetchPerDoorbell`) and loses changes while busy (`LostDoorbell`); order and
  integrity are proved for it, not draining.
- The fetch reports the response of its last beat only: `ErrorShowsLastBeats` says when software
  sees an error, `EarlierErrorsLost` gives errors it never sees.
- The tail seed is not reduced modulo n before one is added, so a seed of 2^32 - 1 can move the
  tail to the wrong slot; `TailFollowsSeed` is the exact condition.
- Runs of the read side let memory change between any two cycles. What is read is each word as
  it was in the cycle of its delivery (`RetiresInOrder`); that it is also what memory holds at
  the end needs a memory that keeps the words already delivered to a descriptor not yet retired
  or a payload not yet handed over (`Stable`), which `RetiresCurrent` and `CurrentTransparency`
  assume.
- The arbiter may switch its address while a request is stalled, so addresses are sampled at
  the handshake.
- The boot information block is the first 32 bytes of SRAM; images loaded over it are covered
  by the exact condition of `PayloadIntact`.
- The two loaders store different statuses for two kinds of header; `VerdictsAgree` names them.

## Model

| member | source | states |
|---|---|---|
| Raster.Barycentric | scripts/gpu3d_lite_reference.py:12-13 | For every triangle and every point the three edge values add up to twice the area, and weighting the vertices by them gives the point times twice the area |
| Raster.InsideInBox | scripts/gpu3d_lite_reference.py:17-35 | A point that passes the inside test lies in the bounding box of the vertices, so clipping to the box loses no pixel |
| Raster.InsideIsConvexHull | scripts/gpu3d_lite_reference.py:28-35 | Meaning of the sign tests: for a triangle with area, a point passes exactly when it is a convex combination of the vertices |
| Raster.CoverInvariance | scripts/gpu3d_lite_reference.py:28-37 | Rotating or swapping vertices leaves the covered pixel set unchanged; a triangle without area covers nothing |
| Raster.SixOrders | scripts/gpu3d_lite_reference.py:28-37 | All six vertex orders cover the same pixels |
| Raster.EdgeRange | linux/uio/accel_mmio_demo.c:117-119 | With byte coordinates the differences stay within 255, and both products and the edge value within 255 squared, so neither the C nor the Verilog 32-bit arithmetic overflows |
| Raster.PaintGridPaints | scripts/gpu3d_lite_reference.py:26-37 | Testing all 1024 pixels sets exactly the covered pixels and no other bit |
| Raster.Rasterize | scripts/gpu3d_lite_reference.py:16-39 | For any integer vertices the clipped loops return the area, the clipped box and rows in which exactly the covered pixels of the whole grid are set |
| GpuLite.GpuModule.constructor | rtl/accel/gpu3d_lite_stub.v:129-154 | Construction gives the reset state |
| GpuLite.GpuModule.Clock | rtl/accel/gpu3d_lite_stub.v:128-232 | One clock edge, updating the registers and the framebuffer in place, is one step of the transition function |
| GpuLite.GpuModule.AcceptCommand | rtl/accel/gpu3d_lite_stub.v:158-190 | Accepting CLEAR or DRAW latches its operands; other opcodes do nothing |
| GpuLite.GpuModule.ClearOneRow | rtl/accel/gpu3d_lite_stub.v:193-203 | One clear cycle fills one row and finishes after row 31 |
| GpuLite.GpuModule.DrawOnePixel | rtl/accel/gpu3d_lite_stub.v:204-224 | One draw cycle plots and advances |
| GpuLite.GpuModule.PlotPixel | rtl/accel/gpu3d_lite_stub.v:205-208 | A pixel that passes is ORed into its row and counted |
| GpuLite.GpuModule.AdvanceScan | rtl/accel/gpu3d_lite_stub.v:210-223 | The scan advances in row-major order and completes at the far corner |
| GpuLite.ClampedBox | rtl/accel/gpu3d_lite_stub.v:63-72 | The box clamped at both corners still lies inside the framebuffer and contains every covered pixel |
| GpuLite.TestIsInside | rtl/accel/gpu3d_lite_stub.v:119-124 | The registered test of the hardware equals the inside test of the geometry |
| GpuLite.CoverSize | rtl/accel/gpu3d_lite_stub.v:205-208 | At most 1024 pixels are covered, so the pixel counter does not wrap |
| GpuLite.DrawStep | rtl/accel/gpu3d_lite_stub.v:204-224 | Every busy cycle tests exactly one pixel and lowers the remaining cycle count by one |
| GpuLite.DrawRuns | rtl/accel/gpu3d_lite_stub.v:156-230 | Whatever commands arrive meanwhile, a draw takes exactly box width times height busy cycles, pulses frame_done only at the end, and paints and counts exactly the covered pixels |
| GpuLite.DrawCommand | rtl/accel/gpu3d_lite_stub.v:156-230 | From command to idle: the old framebuffer ORed with every pixel of the full grid that passes the test, and the pixel count is the size of that set |
| GpuLite.DrawReports | rtl/accel/gpu3d_lite_stub.v:178-190 | After a draw: twice the signed area, and the box word with least x, least y, greatest x and greatest y, each capped at 31, in four five-bit fields |
| GpuLite.ScanPosition | rtl/accel/gpu3d_lite_stub.v:210-223 | Busy cycle k of a draw stands on box pixel (k mod width, k div width) |
| GpuLite.EachPixelOnce | rtl/accel/gpu3d_lite_stub.v:204-223 | Every pixel of the box is tested in exactly one busy cycle of the draw |
| GpuLite.ClearCommand | rtl/accel/gpu3d_lite_stub.v:160-203 | A clear stays busy with frame_done low for 32 cycles, then raises it with every row filled |
| GpuLite.ClearReportsEmpty | rtl/accel/gpu3d_lite_stub.v:160-170 | After a clear the pixel count, area and box are zero and the triangle count is unchanged |
| GpuLite.CommandsApplied | rtl/accel/gpu3d_lite_stub.v:128-232 | Over every input sequence from reset: an idle module shows the commands accepted since the last reset applied in order, frame_done was up for one cycle for each completed command, and the frame counter is that number modulo 2^32 |
| GpuAgreement.DrawsAgree | rtl/accel/gpu3d_lite_stub.v:113-226 | From equal framebuffers and vertices the RTL scan and the C loops end with equal framebuffers, pixel counts and areas, although they clamp the box differently |
| GpuAgreement.ClearsAgree | linux/uio/accel_mmio_demo.c:353-366 | The RTL clear and the C clear leave the same framebuffer |
| GpuAgreement.DrawMatchesReference | scripts/gpu3d_lite_reference.py:25-39 | From a blank framebuffer the C loops leave exactly the rows the Python reference returns |
| UnifiedMem.ReadWrite | linux/uio/accel_mmio_demo.c:129-144 | A stored word reads back and disjoint words are unchanged, on byte-addressed little-endian memory |
| EmuSpec.EntryCountLargest | linux/uio/accel_mmio_demo.c:146-156 | The ring has as many entries as fit the configured size, and one if none fits |
| Emulator.Accel.constructor | linux/uio/accel_mmio_demo.c:213-260 | Power-on values, blank framebuffer, zeroed memory |
| Emulator.Accel.UmemRead32 | linux/uio/accel_mmio_demo.c:138-140 | Reads the little-endian word at an offset |
| Emulator.Accel.UmemWrite32 | linux/uio/accel_mmio_demo.c:142-144 | Writes it, touching nothing else |
| Emulator.Accel.LoadNpuOperands | linux/uio/accel_mmio_demo.c:307-319 | Operands come from memory exactly when the buffer is enabled, weights only for runtime models |
| Emulator.Accel.StoreNpuOutput | linux/uio/accel_mmio_demo.c:340-348 | The six result words are stored at the output offset when the buffer is enabled |
| Emulator.Accel.RunNpu | linux/uio/accel_mmio_demo.c:296-351 | One inference: new results, operands and memory as specified, everything else unchanged |
| Emulator.Accel.DotI8 | linux/uio/accel_mmio_demo.c:101-116 | The loop over the four shifts sums the products of signed bytes |
| Emulator.Accel.ChooseWeights | linux/uio/accel_mmio_demo.c:262-294 | The switch over models: two built-in sets, or the registers |
| Emulator.Accel.ComputeResults | linux/uio/accel_mmio_demo.c:322-339 | Scores, hidden values, logits, class and status word, in place |
| NpuMeaning.NpuResults | linux/uio/accel_mmio_demo.c:322-339 | What a run reports of the operands it leaves in the registers: for linear models logit k is, as a signed 32-bit number, the products of the eight signed byte lanes plus the bias; for the two-layer model hidden values are the scores clamped at zero and the logits their difference both ways; class 1 iff logit1 > logit0; the status word holds 0x4E, class, model and the low byte of the length |
| NpuMeaning.NpuOperands | linux/uio/accel_mmio_demo.c:306-320 | With control bits 0 and 1 set, the operands are the two input words, and for runtime models the six weight words, in memory order; otherwise the registers stand |
| NpuMeaning.NpuStores | linux/uio/accel_mmio_demo.c:340-348 | With those bits set, status word, logits, class and hidden values stand in this order in memory at the output offset; otherwise memory is untouched |
| Emulator.Accel.SyncFramebuffer | linux/uio/accel_mmio_demo.c:184-193 | All 32 rows copied to memory at the configured pitch, offsets modulo 2^32 |
| Emulator.Accel.RunGpuClear | linux/uio/accel_mmio_demo.c:353-366 | The clear, proved against its specification |
| Emulator.Accel.RasterLoops | linux/uio/accel_mmio_demo.c:402-420 | The nested loops leave the old rows ORed with every covered pixel of the grid and count them |
| Emulator.Accel.RunGpuDraw | linux/uio/accel_mmio_demo.c:368-427 | The draw, proved against its specification |
| EmuReports.ClearReports | linux/uio/accel_mmio_demo.c:353-366 | Every pixel becomes the low bit of the clear value; count, area and box are zero, one frame more |
| EmuReports.DrawReports | linux/uio/accel_mmio_demo.c:368-427 | Exactly the covered pixels are added and counted; area as a determinant; the box word holds least x, least y, and greatest x and y capped at 31, one a byte |
| EmuReports.VertexBytes | linux/uio/accel_mmio_demo.c:369-374 | A vertex holds x in its low byte and y in its high one |
| Emulator.Accel.ReadDescriptor | linux/include/accel_unified_queue.h:18-27 | The eight words of a descriptor, at offsets 0 to 28 in the order of the structure |
| Emulator.Accel.ExecuteDesc | linux/uio/accel_mmio_demo.c:429-517 | One descriptor: override, run, account, mark, restore |
| Emulator.Accel.Dispatch | linux/uio/accel_mmio_demo.c:445-500 | The switch: what each opcode does to registers, memory and queue counters, and that only unknown opcodes fail |
| Emulator.Accel.ExecuteNpu | linux/uio/accel_mmio_demo.c:452-470 | The NPU branch of a descriptor |
| Emulator.Accel.ExecuteClear | linux/uio/accel_mmio_demo.c:471-481 | The clear branch |
| Emulator.Accel.ExecuteDraw | linux/uio/accel_mmio_demo.c:482-494 | The draw branch |
| Emulator.Accel.RetireOne | linux/uio/accel_mmio_demo.c:531-545 | One pass of the drain loop |
| Emulator.Accel.CmdqProcess | linux/uio/accel_mmio_demo.c:519-554 | The drain loop computes the recursive specification of draining |
| Emulator.Accel.RegWrite | linux/uio/accel_mmio_demo.c:643-766 | One register write, including the runs started by CONTROL and the drain started by the doorbell |
| Emulator.Accel.RegRead | linux/uio/accel_mmio_demo.c:556-622 | Reading any writable register back |
| EmuReports.WriteReadsBack | linux/uio/accel_mmio_demo.c:643-766 | A written register reads back, up to the bits it has, and no other register changes |
| EmuReports.LimitIs | linux/uio/accel_mmio_demo.c:125-127 | Usable memory ends at the configured size or at 64 KiB, whichever comes first |
| EmuReports.StatusReads | linux/uio/accel_mmio_demo.c:561-564 | STATUS: NPU busy and done in bits 0 and 1, GPU busy and done in bits 2 and 3 |
| EmuReports.StatusClears | linux/uio/accel_mmio_demo.c:659-666 | Writing STATUS clears the NPU done flag iff bit 0 and the GPU done flag iff bit 1 is set, and nothing else |
| EmuReports.ControlStarts | linux/uio/accel_mmio_demo.c:645-657 | CONTROL: bit 0 runs the NPU, bit 1 then the GPU, a clear for command 1 and a draw otherwise |
| EmuReports.DoorbellRings | linux/uio/accel_mmio_demo.c:757-763 | The doorbell drains iff control bit 3 is set and the value is not zero |
| Emulator.Accel.WriteControl | linux/uio/accel_mmio_demo.c:645-657 | NPU start before GPU start, clear or draw by opcode |
| EmuQueue.DescriptorMatchesMmio | linux/uio/accel_mmio_demo.c:429-517 | Executing a GPU or NPU descriptor has the same effect on results, framebuffer and memory as writing the registers from its own fields (dst0, model and length of zero standing for the register values and 8) and then CONTROL, except for the flags word of the descriptor |
| EmuReports.OverrideSwitches | linux/uio/accel_mmio_demo.c:453-483 | A descriptor sets control bits 0 and 1, or 0 and 2, and keeps the others |
| EmuReports.RowsStored | linux/uio/accel_mmio_demo.c:184-193 | With control bits 0 and 2 set, every framebuffer row no later row overlaps stands in memory at (offset + row * pitch) modulo 2^32; otherwise memory is untouched |
| EmuReports.DescriptorFramebuffer | linux/uio/accel_mmio_demo.c:471-494 | After a GPU descriptor every row that overlaps neither a later row nor the flags word stands in memory from dst0, or from the register's place if dst0 is zero |
| EmuReports.DispatchReports | linux/uio/accel_mmio_demo.c:445-500 | Dispatch opcode and status, and for inferences input, output, count, model and status of the execution |
| EmuReports.DoneFlagsBits | linux/uio/accel_mmio_demo.c:502-503 | The flags word of an executed descriptor: model byte kept, DONE set, ERROR iff the opcode is unknown, zeros between |
| EmuReports.FetchReports | linux/uio/accel_mmio_demo.c:532-543 | Slot, offset, bus address, sequence, opcode, beats and status of the fetch registers after one pass |
| EmuReports.QueueStatusBits | linux/uio/accel_mmio_demo.c:171-182 | Queue status: processed modulo 2^16, EMPTY iff head equals tail, ERROR iff one was seen |
| EmuReports.IdleDoorbell | linux/uio/accel_mmio_demo.c:519-554 | A doorbell with head equal to tail reports an idle fetch of no beats and an empty queue |
| EmuQueue.SavedRegistersRestored | linux/uio/accel_mmio_demo.c:430-516 | The twelve saved registers, and every other setting, end unchanged for every opcode |
| EmuQueue.EngineKeeps | linux/uio/accel_mmio_demo.c:296-427 | No engine run changes a setting |
| QueueDrain.EngineFootprint | linux/uio/accel_mmio_demo.c:184-193 | An engine run leaves unchanged every byte range that its result words, or every one of the 32 framebuffer rows, misses; for any pitch, wrapping ones included |
| QueueDrain.ExecuteKeepsRing | linux/uio/accel_mmio_demo.c:502-516 | Executing a descriptor whose output misses the ring changes nothing in the ring but its own flags |
| QueueDrain.RetireStep | linux/uio/accel_mmio_demo.c:530-546 | One retirement, from any value of the tail register: the slot tail mod n is executed and is the only one marked, the tail goes to the next index, and the descriptor is counted |
| QueueDrain.DrainCounts | linux/uio/accel_mmio_demo.c:530-546 | For every head and every tail a drain runs exactly as many descriptors as lie before head, or its bound if head is out of reach; the tail ends behind them and every counter grows by the number of its opcodes |
| QueueDrain.DrainMarks | linux/uio/accel_mmio_demo.c:530-546 | For every tail and outputs that miss the ring, the descriptors run are those of the slots visited, in order, and exactly these slots are marked; a slot visited again is found marked |
| QueueDrain.DrainExact | linux/uio/accel_mmio_demo.c:530-546 | The case of a tail in the ring: the descriptors run are the pending ones as they stood, in ring order, and exactly their slots are marked |
| QueueDrain.ProcessExact | linux/uio/accel_mmio_demo.c:519-554 | For every head and every tail: with head in the ring it ends with tail = head after running the (head - tail) mod n pending descriptors, or, from a tail outside the ring, one descriptor more than lie between its next index and head; with head outside and tail elsewhere it runs exactly n and reports ERROR; ERROR is set iff that happens or an opcode is unknown; each counter grows by the number of its opcodes |
| QueueDrain.ProcessMarks | linux/uio/accel_mmio_demo.c:502-546 | For every tail and outputs that miss the ring, exactly the slots visited are marked, DONE always and ERROR iff the opcode is unknown, and the rest of the ring is unchanged |
| QueueDrain.CountsAddUp | linux/uio/accel_mmio_demo.c:448-500 | NOP, NPU, GPU and unknown descriptors partition what was processed |
| CmdqHost.HostQueue.constructor | linux/uio/accel_cmdq_host.c:52-69 | The producer starts synchronised with the device registers |
| CmdqHost.HostQueue.SyncRegs | linux/uio/accel_cmdq_host.c:40-50 | Geometry and both cached indices reloaded |
| CmdqHost.HostQueue.PushDesc | linux/uio/accel_cmdq_host.c:91-117 | Push: the three outcomes, the stored descriptor and the new cached head |
| CmdqHost.HostQueue.SubmitDoorbell | linux/uio/accel_cmdq_host.c:163-171 | HEAD then doorbell, on the emulator object |
| CmdqHost.HostQueue.Reset | linux/uio/accel_cmdq_host.c:71-89 | The cached fields are reloaded; a ring past the mapping returns ERANGE and leaves the device alone; otherwise exactly the bytes of the ring are zeroed, head, tail and doorbell are zero and the status is EMPTY |
| CmdqFifo.PushOutcome | linux/uio/accel_cmdq_host.c:103-116 | A push reports ENOSPC exactly when the ring looks full to the host, and otherwise fills the slot of its cached head; it never reports ERANGE here |
| CmdqFifo.PushKeeps | linux/uio/accel_cmdq_host.c:91-117 | A push never overwrites a pending slot |
| CmdqFifo.SyncKeeps | linux/uio/accel_cmdq_host.c:45-48 | Synchronising keeps the queue consistent if and only if nothing pushed is unsubmitted |
| CmdqFifo.SyncForgets | linux/uio/accel_cmdq_host.c:45-48 | After a synchronisation the queue stands as if the unsubmitted pushes had never been made |
| CmdqFifo.LostPush | linux/uio/accel_cmdq_host.c:45-48 | If something was unsubmitted, the next push after a synchronisation succeeds and overwrites the slot of the first unsubmitted descriptor |
| CmdqFifo.SubmitKeeps | linux/uio/accel_cmdq_host.c:163-171 | Publishing the head keeps the invariant |
| CmdqFifo.RetireKeeps | linux/uio/accel_mmio_demo.c:530-546 | A device retirement executes the oldest pending descriptor and keeps the invariant |
| CmdqFifo.SubmitDrainKeeps | linux/uio/accel_cmdq_host.c:163-171 | A submission whose doorbell drains the ring executes everything pushed, in order |
| CmdqFifo.FifoDelivery | linux/uio/accel_cmdq_host.c:91-171 | Over every interleaving of push, submit, sync, retirement and host writes off the ring, with a possibly stale cached tail: executed descriptors are a prefix of the pushed ones, once each and in order; at most n - 1 wait; an idle device has executed everything submitted |
| CmdqFifo.WriteKeeps | linux/uio/accel_cmdq_host.c:91-117 | Host writes to unified memory outside the ring leave every waiting descriptor as it is |
| CmdqFifo.StartsEmpty | linux/uio/accel_cmdq_host.c:52-69 | A freshly synchronised host over an idle ring starts such runs |
| AxiFetch.FetchModule.Clock | rtl/accel/accel_umem_axi_fetch_stub.v:35-117 | One clock edge of the descriptor fetch |
| NpuPayload.PayloadModule.Clock | rtl/accel/accel_npu_payload_fetch_stub.v:64-258 | One clock edge of the payload fetch (the closing end of the case read as endcase) |
| CmdqFrontend.FrontendModule.Clock | rtl/accel/accel_cmdq_frontend_stub.v:34-91 | One clock edge of the doorbell frontend |
| CmdqFrontend.Entries | rtl/accel/accel_cmdq_frontend_stub.v:29-30 | The entry count is never zero |
| AxiStatus.EntriesAgree | rtl/accel/accel_cmdq_frontend_stub.v:29-30 | The frontend counts entries as the emulator does: as many as fit, and one if none fits |
| AxiStatus.FrontendRests | rtl/accel/accel_cmdq_frontend_stub.v:34-57 | In reset or disabled: no request, no count, no error, tail zero or the seed, the doorbell taken as seen |
| AxiArbiter.ArbiterModule.Clock | rtl/accel/accel_umem_axi_read_arbiter_stub.v:70-87 | One clock edge of the arbiter |
| AxiRead.StepKeeps | rtl/accel/accel_umem_axi_read_arbiter_stub.v:44-87 | Frontend, fetch, payload engine, arbiter and memory together keep the ownership invariant in every cycle, for every stall and every request |
| AxiRead.ServedStep | rtl/accel/accel_umem_axi_read_arbiter_stub.v:44-87 | The same for any content of memory in that cycle: the words a read has collected are those delivered to it, each as memory held it in its own cycle |
| AxiRead.ArbiterTransparency | rtl/accel/accel_umem_axi_read_arbiter_stub.v:44-68 | After every run over a memory that changes at will: at most one burst outstanding, no beat to the client that does not own it, each beat the word memory then holds at the client's own address, payloads ending with their 2 input and 6 weight words and descriptors with their 8 words as delivered, and request and in-flight never both set |
| AxiRead.CurrentTransparency | rtl/accel/accel_umem_axi_read_arbiter_stub.v:44-68 | If memory does not change under words already delivered to an unfinished read, then in every cycle of a run complete payloads and descriptors are what memory holds at their addresses in that cycle |
| AxiRead.RetiresInOrder | rtl/accel/accel_cmdq_frontend_stub.v:58-80 | Over a memory that changes at will, every retired descriptor is the eight words delivered from umem base + ring base + 32 * slot, slots taken in ring order from the seed without gap or repeat, lap after lap; tail shadow and processed count follow |
| AxiRead.RetiresCurrent | rtl/accel/accel_cmdq_frontend_stub.v:58-80 | If memory does not change under words already delivered to an unfinished read, every retired descriptor is what its slot holds in the cycle it is retired, so a refilled slot gives its new descriptor |
| AxiRead.FirstRetirement | rtl/accel/accel_cmdq_frontend_stub.v:73-76 | The first retirement moves the tail shadow to seed + 1 modulo n if and only if adding one to the seed does not wrap 2^32, or n divides 2^32 |
| AxiRead.TailFollowsSeed | rtl/accel/accel_cmdq_frontend_stub.v:40-76 | Over all runs from the disabled frontend, for any head and doorbell registers, tail shadow and processed count follow the retired descriptors if and only if the seed is such a value; otherwise a run to the first retirement that fails is given |
| AxiRead.ErrorShowsLastBeats | rtl/accel/accel_cmdq_frontend_stub.v:73-79 | Over every run the sticky error flag ends set (or is about to be) if and only if it was set before or the last beat of some descriptor burst was not OKAY |
| AxiRead.EarlierErrorsLost | rtl/accel/accel_umem_axi_fetch_stub.v:53-113 | Instance: a burst whose first seven beats carry any errors and whose eighth is OKAY retires with no flag, pulse or status showing them |
| AxiRead.OneFetchPerDoorbell | rtl/accel/accel_cmdq_frontend_stub.v:58-73 | Over every run the descriptors retired or under way are exactly as many as the doorbell changes that found the frontend idle and the queue not empty (plus the one under way at the start), so never more than the changes |
| AxiRead.LostDoorbell | rtl/accel/accel_cmdq_frontend_stub.v:58-73 | Instance: a second doorbell change in the cycle after the first is lost, for any number of waiting descriptors and any continuation without a further change |
| AxiStatus.QueueStatusShows | rtl/accel/accel_cmdq_frontend_stub.v:82-88 | In every cycle of every run: BUSY iff a request or fetch was under way before the edge, EMPTY iff none was and head equalled tail, ERROR iff the sticky flag or the error pulse was up, and the number of descriptors retired modulo 2^16 |
| AxiStatus.RequestTells | rtl/accel/accel_umem_axi_fetch_stub.v:66-83 | Over every run slot, sequence, bus address and status registers describe the descriptor under way |
| AxiStatus.StartTells | rtl/accel/accel_umem_axi_fetch_stub.v:36-53 | It does so from the start |
| AxiStatus.BeatShows | rtl/accel/accel_umem_axi_fetch_stub.v:98-112 | A bad beat shows as ERROR at once, a good last beat as IDLE, any other leaves the status |
| AxiStatus.FetchRests | rtl/accel/accel_umem_axi_fetch_stub.v:36-64 | In reset or disabled the fetch drops request and data |
| AxiStatus.DescriptorFirst | rtl/accel/accel_umem_axi_read_arbiter_stub.v:41-87 | A free port with both clients asking goes to the descriptor fetch, the other keeps asking, and a port asked for is never left idle |
| AxiStatus.DispatchLatches | rtl/accel/accel_npu_payload_fetch_stub.v:136-152 | A dispatch that finds the engine idle latches its request and operands; none other changes the request |
| AxiStatus.PayloadReports | rtl/accel/accel_npu_payload_fetch_stub.v:124-247 | Over every run the counter counts completed payloads, and an error is on record iff one was before, a dispatch overran, or any beat of any payload was not OKAY |
| AxiStatus.PayloadStatus | rtl/accel/accel_npu_payload_fetch_stub.v:124-247 | Error counter and status word in every cycle |
| AxiStatus.PayloadRests | rtl/accel/accel_npu_payload_fetch_stub.v:65-122 | In reset or disabled the engine is idle with request, operands and counters cleared |
| ResultStore.StoreModule.Clock | rtl/accel/accel_npu_result_store_stub.v:70-220 | One clock edge of the result store |
| ResultStore.StepKeeps | rtl/accel/accel_npu_result_store_stub.v:130-202 | The channels always carry the next transfer of the last accepted store |
| ResultStore.EachStoreSentOnce | rtl/accel/accel_npu_result_store_stub.v:130-202 | For every schedule each accepted store sends one address and its six latched words in order, WLAST on the sixth only, and never more |
| ResultStore.HeldWhileStalled | rtl/accel/accel_npu_result_store_stub.v:158-190 | VALID and payload are held while READY is low (section A3.2.1 of the AMBA AXI specification, IHI 0022E), and address and data are never offered together |
| ResultStore.MemoryReceivesResults | rtl/accel/accel_npu_result_store_stub.v:138-191 | A memory on the bus ends with every accepted six-word result at base + offset, in order |
| ResultStore.LastStoreStands | rtl/accel/accel_npu_result_store_stub.v:139-147 | The last accepted store leaves status word, logit0, logit1, class, hidden0 and hidden1, as they were at the inputs when it was accepted, at base + offset + 0, 4, 8, 12, 16 and 20 |
| ResultStore.StoreReports | rtl/accel/accel_npu_result_store_stub.v:125-202 | Over every run: stores accepted, failures, the error flag iff one happened, and offset, address and class of the last request |
| ResultStore.StatusShows | rtl/accel/accel_npu_result_store_stub.v:208-216 | The status word: count modulo 2^16, last class, IDLE, ERROR and BUSY |
| ResultStore.StoreRests | rtl/accel/accel_npu_result_store_stub.v:71-124 | In reset or disabled the engine is idle with its registers cleared |
| Uart.UartModule.Clock | rtl/peripherals/simpleuart.v:55-136 | One clock edge of divider, receiver and transmitter |
| Uart.FrameTiming | rtl/peripherals/simpleuart.v:66-136 | In every cycle of a frame: each bit lasts divider + 2 cycles and the receiver samples it at divider/2 + 2, inside the bit |
| Uart.StreamTransparency | rtl/peripherals/simpleuart.v:66-136 | For every divider from 1 to 2^32 - 3, every schedule of writes and every schedule of reads that never overruns: the bytes read are the bytes accepted, in order, with at most one buffered and one on the line |
| Uart.LoneByte | rtl/peripherals/simpleuart.v:66-136 | For each working divider a run from reset in which a byte is sent alone and arrives |
| Uart.WorkingDividers | rtl/peripherals/simpleuart.v:55-136 | Over runs from reset: what arrives is what was accepted, in order and with at most one byte on the way, if and only if the divider is 1 to 2^32 - 3 or is 2^32 - 1, which never sends; with every byte able to get through, if and only if it is 1 to 2^32 - 3 |
| Uart.DividerBytes | rtl/peripherals/simpleuart.v:55-64 | Each byte lane of the divider is replaced iff its strobe is set; four strobes leave the value written |
| Uart.DividerWritten | rtl/peripherals/simpleuart.v:55-136 | A working divider written while the line rests takes effect whole; for fifteen bit times nothing is accepted; then every schedule that never overruns delivers the bytes accepted, in order |
| Console.TextConsole.constructor | rtl/video/vga_text_console.v:616-619 | Reset clears the screen |
| Console.TextConsole.ClearTextRam | rtl/video/vga_text_console.v:50-57 | The clear loop blanks every cell |
| Console.TextConsole.ScrollTextRam | rtl/video/vga_text_console.v:59-70 | The in-place scroll moves every line up by one and blanks the last |
| Console.TextConsole.PutChar | rtl/video/vga_text_console.v:620-660 | One character, in place |
| Console.PutShows | rtl/video/vga_text_console.v:621-659 | If the screen shows the last 29 lines of a page, it still does after any character: form feed, return, newline, backspace, wrap and scroll |
| Console.ScreenIsWindow | rtl/video/vga_text_console.v:615-661 | After any characters from reset the screen is the 29-line window onto the unscrolled page since the last form feed, with the cursor on the same cell |
| Encoding.PlainDecodes | scripts/gen_bootrom.py:95-198 | Every word an encoder emits for accepted operands is 32 bits and decodes to the same instruction (RISC-V Unprivileged ISA 20191213, sections 2.2 to 2.6) |
| Encoding.JumpDecodes | scripts/gen_bootrom.py:200-226 | Every branch or jal within reach decodes to the same jump with the same byte offset |
| Encoding.AcceptedRanges | scripts/gen_bootrom.py:48-51 | Accepted are exactly twelve-bit signed immediates, shifts below 32, even branch distances in 13 bits and even jumps in 21 bits |
| Assembler.Program.constructor | scripts/gen_bootrom.py:81-84 | Empty program |
| Assembler.Program.Label | scripts/gen_bootrom.py:92-93 | A label is the current pc; an earlier definition of the same name is replaced |
| Assembler.Program.Insert | scripts/gen_bootrom.py:89-198 | An encoder call appends one word, or a zero word and a fixup, or fails and changes nothing |
| Assembler.Program.LoadImm | scripts/gen_bootrom.py:168-179 | li appends one or two instructions and never fails |
| Assembler.Program.Resolve | scripts/gen_bootrom.py:228-250 | Back-patching succeeds exactly when every label used is defined and in reach, and changes only the words of jumps |
| Assembler.FixupsComplete | scripts/gen_bootrom.py:181-191 | Every jump has exactly one fixup, in increasing order |
| Assembler.Build | scripts/gen_bootrom.py:80-198 | Making a list of calls yields the code and labels the list denotes, or stops at a rejected immediate |
| Assembler.Assemble | scripts/gen_bootrom.py:80-250 | Calls, back-patching and words together: it succeeds exactly when every immediate is accepted and every jump resolves, and then every run of the words, loaded anywhere, is the run of the symbolic program |
| Assembler.LabelIsLastMark | scripts/gen_bootrom.py:92-93 | A label stands for its last definition; with distinct names, for where it was written |
| Assembler.WordMeaning | scripts/gen_bootrom.py:228-250 | Each final word decodes to its symbolic instruction, a jump with the distance to its label |
| Assembler.StepAgrees | scripts/gen_bootrom.py:80-250 | One step of the machine on the words is one step of the symbolic program |
| Rv32Meaning.BitwiseMeans | scripts/gen_bootrom.py:119-162 | xori, andi and or work on each bit |
| Rv32Meaning.ArithmeticMeans | scripts/gen_bootrom.py:95-162 | lui, addi, add, shifts and sltu modulo 2^32 |
| Rv32Meaning.DotMeans | scripts/gen_bootrom.py:95-198 | The custom instruction sums the products of four signed byte lanes |
| Rv32Meaning.JumpsMean | scripts/gen_bootrom.py:181-198 | When the jumps are taken |
| Assembler.AssemblingPreservesMeaning | scripts/gen_bootrom.py:80-250 | For every program that resolves, every machine state, every device and every number of steps, the run of the words is the run of the symbolic instructions |
| AsmRun.LiStates | scripts/gen_bootrom.py:168-179 | li leaves the constant modulo 2^32 in its register and changes nothing else |
| AsmRun.LeadsInMachineCode | scripts/gen_bootrom.py:228-250 | A run proved of the symbolic program is a run of the assembled words between the same places |
| PutHex.HexTextParses | scripts/gen_bootrom.py:297-311 | k digits are upper-case hex and read back as the low 4k bits |
| PutHex.DigitsPrint | scripts/gen_bootrom.py:297-328 | The digit loop of put_hex_word and put_hex_byte prints the digits of the register, for any number of digits |
| PutHex.PutHexWordPrints | scripts/gen_bootrom.py:297-311 | The machine code of put_hex_word, anywhere in an assembled program, on any value of any register but t0, a4 and a5, prints exactly eight upper-case hex digits that read back as the value and changes no other register, memory or device |
| PutHex.DigitsInMachineCode | scripts/gen_bootrom.py:297-328 | The machine code of k hex digits, anywhere in an assembled program, prints k upper-case digits that read back as the low 4k bits |
| PutHex.PutHexBytePrints | scripts/gen_bootrom.py:314-328 | The same of put_hex_byte: two digits that read back as the low byte |
| PutHex.ScratchSourceFails | scripts/gen_bootrom.py:297-311 | For each of the three scratch registers the restriction is needed: holding 0, its printed text does not read back as 0 |
| PutHex.PutHexWordAssembles | scripts/gen_bootrom.py:297-311 | On its own the macro always assembles: its label names never collide, its jumps resolve and its immediates fit, for every source register and prefix |
| Assembler.ShortProgramsResolve | scripts/gen_bootrom.py:228-250 | A program below 4 KiB resolves once every name it jumps to is marked |
| BootSpec.Sum32LeWords | scripts/gen_bootrom.py:64-70 | The builder's padded little-endian word sum modulo 2^32 |
| BootSpec.PartialStep | firmware/bootrom/bootrom.c:388-404 | Byte-at-a-time lanes: ORing a byte into its lane keeps the partial word, the fourth completes it |
| BootSpec.PartialLast | firmware/bootrom/bootrom.c:402-404 | For every length, adding the last partial word gives the padded word sum |
| BootSpec.AsmVerdict | scripts/gen_bootrom.py:1014-1035 | The assembly checks, with their wrap test, pass exactly the legal headers |
| BootSpec.CVerdict | firmware/bootrom/bootrom.c:361-382 | The C checks, by subtraction, pass exactly the legal headers |
| SpiMacros.PollLoop | scripts/gen_bootrom.py:277-281 | The polling loop ends for every delay, with the byte that was on its way |
| SpiMacros.Transfers | scripts/gen_bootrom.py:263-283 | spi_transfer leaves the card's next byte in t1 and changes only t0 and t1 |
| Rv32Meaning.SpiStatusBits | rtl/peripherals/spi_master_mmio.v:78 | The SPI status word: divider, done, busy and hold |
| SpiMacros.ReadsWord | scripts/gen_bootrom.py:331-347 | read_u32_le leaves the next four bytes, little-endian, in its register |
| SpiMacros.Expects | scripts/gen_bootrom.py:286-290 | spi_expect goes on behind its mark if the byte is the expected one and to the failure label otherwise |
| BootAsm.ClearsInfo | scripts/gen_bootrom.py:985-995 | The information block is zeroed |
| BootAsm.ExpectsAll | scripts/gen_bootrom.py:996-1012 | The constant header bytes: past them if all match, otherwise to the failure label right after the first wrong one |
| BootAsm.ChecksRun | scripts/gen_bootrom.py:1014-1035 | The range checks reach the payload exactly for legal headers and otherwise the block of the specified status |
| BootAsm.Fails | scripts/gen_bootrom.py:1099-1124 | A rejection stores its status, prints its text and returns to the command loop |
| BootAsm.PutsPrints | scripts/gen_bootrom.py:253-260 | puts prints its text |
| BootPayload.OneByte | scripts/gen_bootrom.py:1042-1077 | One pass of the payload loop keeps pointer, count, lane, partial word, sum and copied memory |
| BootPayload.AllBytes | scripts/gen_bootrom.py:1037-1077 | The loop copies the whole image |
| BootRun.Publishes | scripts/gen_bootrom.py:1084-1094 | The eight words of the information block |
| BootRun.BootTryRuns | scripts/gen_bootrom.py:985-1124 | For every memory, card and transfer delay the listing reaches main_loop with exactly the specified outcome, changing only its own registers |
| BootRun.BootTryInMachineCode | scripts/gen_bootrom.py:985-1124 | The same of the assembled words |
| BootAssembles.BootTryAssembles | scripts/gen_bootrom.py:985-1124 | The listing, followed by main_loop, assembles at every base: immediates accepted, names distinct, every jump in reach; so the machine-code theorems speak of something |
| BootRun.MachineCodeMatchesC | firmware/bootrom/bootrom.c:328-416 | Running the assembled boot_try accepts exactly what the C loader accepts; on acceptance SRAM, place on the card and entry are identical, otherwise at most the status word differs |
| BootProof.HeaderTestsAgree | firmware/bootrom/bootrom.c:349-359 | Comparing words and comparing bytes accept the same headers |
| BootProof.VerdictsAgree | firmware/bootrom/bootrom.c:361-382 | The two check orders give different statuses exactly for load below SRAM with size zero and for size above 64 KiB with load in or above SRAM, and which statuses those are |
| BootProof.LoadersAgree | firmware/bootrom/bootrom.c:328-416 | The two loaders accept the same streams (exactly: good header, legal fields, matching padded sum); on acceptance everything is identical; statuses differ exactly in the two named cases; memory never differs outside the status word |
| BootMonitor.Monitor.ReadU32Le | firmware/bootrom/bootrom.c:52-61 | Four bytes, little-endian |
| BootMonitor.Monitor.constructor | firmware/bootrom/bootrom.c:45-50 | Power-on: statics zero, over its own memory |
| BootMonitor.Monitor.ClearBootInfo | firmware/bootrom/bootrom.c:307-314 | The clear loop |
| BootMonitor.Monitor.WriteBootInfo | firmware/bootrom/bootrom.c:316-326 | The eight words written |
| BootMonitor.Monitor.CopyPayload | firmware/bootrom/bootrom.c:385-404 | The copy loop: memory gets the stream, the result is the padded word sum |
| BootMonitor.Monitor.RetrySdBoot | firmware/bootrom/bootrom.c:328-416 | The C boot attempt, in place, proved against its specification, with the divider it sets and the text it prints |
| BootMonitor.Monitor.RunRamTest | firmware/bootrom/bootrom.c:194-227 | The memory test, in place; it reports failure only when it does not fit |
| BootMonitor.Monitor.Command | firmware/bootrom/bootrom.c:448-500 | The command switch |
| BootMonitor.Monitor.ScanCode | firmware/bootrom/bootrom.c:133-165 | The scan-code state machine and the remembered key |
| BootMonitor.KeysDecode | firmware/bootrom/bootrom.c:104-124 | Each known letter's set-2 make code gives that letter |
| BootMonitor.CodesDecode | firmware/bootrom/bootrom.c:104-124 | A code that gives a letter is that letter's |
| BootMonitor.KeyStrokes | firmware/bootrom/bootrom.c:133-165 | A pressed key is remembered and obeyed; a release, an extended key and its release do nothing |
| BootMonitor.KeyRemembered | firmware/bootrom/bootrom.c:126-130 | Code and character in boot_info[6] and [7] |
| BootMonitor.CommandsDo | firmware/bootrom/bootrom.c:431-500 | What b, r and l do to loader state, memory, divider and LED, and that nothing else does |
| BootMonitor.TestBaseInRange | firmware/bootrom/bootrom.c:200-211 | The rounded-up test base lies behind the image and inside SRAM |
| BootProof.ImageLoads | scripts/gen_bootrom.py:734-743 | An image built for any payload and addresses is accepted exactly when the addresses are legal; then memory is the information block, the payload outside it, and otherwise unchanged, byte for byte |
| BootProof.PayloadIntact | firmware/bootrom/bootrom.c:388-412 | The loaded payload equals the built one if and only if its bytes under the information block equal the block; loading at or behind base + 0x20 suffices |
| BootProof.TestSpares | firmware/bootrom/bootrom.c:194-227 | The memory test touches neither the record nor the image |
| BootProof.EventIntact | firmware/bootrom/bootrom.c:431-503 | Every event keeps the invariant, and short of a new boot attempt leaves record and image alone |
| BootProof.MonitorSafe | firmware/bootrom/bootrom.c:418-503 | From power-on, for every memory, card and event sequence up to a jump into an image: whenever an image is loaded its record is whole, and an image behind the record still sums to boot_info[4] |
| BootProof.ImageSurvives | firmware/bootrom/bootrom.c:431-503 | A whole run in which no event starts a boot attempt (swallowed scan codes of b included) leaves the record, and every image byte not under it, as they were |
| BootProof.LoadedIsLastBooted | firmware/bootrom/bootrom.c:418-503 | From power-on, with any number of boot attempts in between: boot_info[1..4] of a loaded image is the header of the last attempt, the image sums to it, and every image byte not under the record is the one the card delivered then |

## Left out

- Assembler.Program.Insert: one method stands for the encoder methods, with the instruction as a value; register names are numbers and unknown register names are not modelled.
- BootMonitor.Monitor.Command: console output, LED pins, the timer and the NPU self-tests of the monitor commands are not modelled, since they do not touch the modelled memory; the texts of the boot attempt are.
- BootMonitor.Monitor.RetrySdBoot: the C loader's transfers are single steps that deliver the card's next byte; their register protocol is modelled for the assembly listing only.
- BootProof.MonitorSafe: a run ends at the first `g` with an image loaded; what the loaded program does is outside the model, and the loader's statics are separate from SRAM.
- BootRun.BootTryRuns: assumes the SPI master is idle and s0 and s3 hold the UART and SPI bases, as the start of the listing sets them; loads and stores to addresses without a device read 0 and do nothing.
- Emulator.Accel.RegWrite: out-of-range accesses, for which the C code exits, are excluded by preconditions; of the read-only registers the fields they show are modelled, not their addresses.
- Emulator.Accel.RunNpu: sums that would overflow int32_t in C wrap to 32 bits.
- CmdqHost.HostQueue.PushDesc: a slot whose end wraps past 2^32 is excluded, because there the C store is undefined; null pointers (EINVAL) cannot occur; the three convenience wrappers only fill in a descriptor.
- CmdqHost.HostQueue.Reset: a base and size whose sum wraps past 2^32 to a value that passes the check is excluded, because there the C memset is undefined.
- QueueDrain.ProcessMarks: where an output overlaps the ring, which slots end marked is not stated; the run count, tail, counters and status of `ProcessExact` hold there too.
- AxiFetch.FetchModule.Clock: the constant burst size and burst type are not modelled.
- NpuPayload.PayloadModule.Clock: the constant burst size and burst type are not modelled.
- CmdqFrontend.FrontendModule.Clock: queue geometry and enable are inputs here; the run theorems hold them constant.
- AxiRead.ArbiterTransparency: the address on the shared port may change while it is stalled, so stability of that port is not claimed; runs are free of reset.
- ResultStore.StoreModule.Clock: the constant burst size, burst type and strobes are not modelled.
- Uart.StreamTransparency: transmitter and receiver share one clock and one constant divider; line noise is not modelled.
- Console.ScreenIsWindow: fonts, colours, timing and the status row are left out; the text memory is what is proved.
- The bounding-box registers, packed in 20 bits in hardware and in four bytes in the emulator, are modelled on both sides but not compared; `DrawsAgree` compares framebuffers and pixel counts.
- The hardware dispatcher counts a NOP descriptor as an error (`rtl/accel/accel_cmdq_dispatch_stub.v:107`), the emulator does not; the dispatcher is not part of this model.
- Queue-to-NPU results through the hardware top level, where payload words are multiplexed for one cycle while weights are read later: NPU semantics are the emulator's.
- The execution status word of the NPU command block, whose concatenation is wider than the register.
- The processor core, the rest of the register file, GPIO, timer, PS/2 receiver and video timing.
- The sample application and the golden-vector demonstrations.
- Command-line tools, device mapping, polling, image files, scripts and device-tree files.
