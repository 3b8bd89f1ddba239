# A model of the kernel generator, its prefetch protocol, and the tuner around it

The repository generates GPU assembly for one family of kernels, runs the kernels, and searches for the
fastest variant. This project models five connected parts of it and proves what they are for.

* **The signal-slot prefetch protocol.** Worker waves register with an atomic counter, which hands out
  slots, write indices into their slots, and retire. A fetch wave polls the slots and hands an index to the
  caller's code unless it is among the last eight it handed over; it remembers them in a bitmap and in a
  shift queue held in the lanes of one vector register. `Prefetch` is the filter and its
  independent reference, `PendCode` and `PendRun` prove that the emitted instructions are that filter,
  `PendBody` which code a caller may put into the loop, `Signals` is the shared memory under any interleaving of the waves, `Worker` ties the worker's emitted
  instructions to its steps, `Machines` runs any number of such waves instruction by instruction and proves
  that they refine it, `Fetching` sets the fetch wave beside them, and `Emitted` and `Programs` go from the
  appended text to the behaviour of a wave that runs it.
* **Register allocation and two-pass generation.** `Registers` is the first-fit allocator as a
  specification with its invariants over whole runs; `KernelWriters` is the writer as a class that changes
  its two arrays in place and is proved against that specification; `Generator` is the two-pass text
  generation for every deterministic program, `KernelText` looks up in the finished text what it says;
  `Temps` is the taking and giving back of temporaries, `Checks` the error lines behind memory instructions.
* **The meaning of emitted code.** `Isa` is an interpreter for the instructions used, on a wave of 64 lanes
  and a memory other waves may change between any two instructions; `Words` is 32-bit arithmetic, bit by
  bit. `LinearAddr`, `AddByte`, `SlotAddr`, `CounterLoop` and `BufferDesc` prove what each emitted block
  computes, and exactly when that is what its caller wants.
* **The tuning search.** `SearchSpaces` is the recursive odometer over parameter values, `Tuning` the loop
  of `Benchmark/ProblemControl.cpp:52-77` and `195-200` that keeps the best combination.
* **Kernel arguments.** `KernArg` is the sizing pass and the copying pass over one byte block.

The filter lives on values (`Fetch`, `Poll`); the machine that runs the emitted loop updates its registers
instruction by instruction, and `PendRun.LoopIsFilter` is the connection. Text is a sequence of lines, each
an instruction or a directive with its indentation.

Several properties the code suggests hold only under a condition. Each is stated as "exactly when":

* fetching from slots that no longer change stops exactly when at most eight indices are pending;
* every delivered index was sent exactly when no polled slot starts with an index;
* two live waves come to share a slot exactly when the counter reaches a slot that is still held;
* the reset store clears the wave counter exactly when `wave_num_offset` is 0;
* a linear address is right exactly for power-of-two group sizes and offsets below 2^32;
* a byte offset is added correctly exactly when it is not negative;
* slot regions are disjoint exactly for power-of-two slot sizes, and those of two waves exactly for different
  compute units that are no neighbours or have such a size;
* a register may be overwritten in the caller's code exactly when the loop does not carry it;
* a block is free of error lines exactly when its addresses are pairs and its offset is at most 4095 bytes;
* a descriptor can be read back exactly when the base register has no stray upper bits;
* a third generation pass is a fixed point exactly when the program uses no LDS;
* the allocator's inner scan leaves its array exactly when no aligned run fits and one is cut off by its end;
* the unset `moveNextIdx` is harmless for one call exactly when all digits but the last two are at their largest,
  and for a whole search exactly when all parameters but the last two have one value;
* the values of a range parameter are right exactly when the range is one step long.

## Assumptions

The fetch wave is entered with lanes 0..7 active and `v_tid_x` equal to the lane number. Fewer than 2^30
waves take part. The reset of the counter is finished before the first registration; the code relies on a
delay for that (`Benchmark/KernelWriter.h:262-267`). `wave_num_offset` is 0 and `signal_offset` at least 1,
as in their one use (`Benchmark/ProducerConsumerKernelWriter.h:12-14`); `Worker.ResetHitsCounter` says why.
The caller's code between a delivery and the jump back writes only registers taken before the loop
(`Emitted.WritesOwned`): the writer has already given back those the loop still carries, and hands them out
again to code that takes registers there (`KernelWriters.BodyGetsExecSave`). The worker's own code stores to
none of the words the fetch wave reads and keeps the address of its slot for its sends
(`Machines.AgentStep`). That the polled slots start without an index is no assumption but the condition of
the theorems that need it: a registration clears the wave's own slot only, and
`Benchmark/ProducerConsumer.cpp:36` allocates the signal buffer without filling it.
In a search space where a parameter before the last two has several values, the variable that line 399 of
`Benchmark/KernelWriterBasicClass.h` leaves unset reads false (`SearchSpaces.Harmless`); `SearchIffNarrow`
says that in every other space it may hold anything, and in these it may not.
`GetNexComb` returns what its recursive call returns (`Benchmark/KernelWriterBasicClass.h:427` drops it).
A call of the allocator that would read outside its array is excluded by a precondition, and
`Registers.ScanMeaning` says exactly when that is. Operand variables a block works on are held by the
caller while the block is appended.

## Model

| member | source | states |
|---|---|---|
| Prefetch.PollMatchesReference | Benchmark/KernelWriter.h:354-385 | one poll on bitmap and queue decides exactly as a reference that remembers every delivery and looks at the last eight, and the bitmap agrees with the queue afterwards |
| Prefetch.EveryRun | Benchmark/KernelWriter.h:331-386 | at every loop head of every run the bitmap holds exactly the indices 1..31 of the eight queue lanes, these are pairwise distinct, and any nine deliveries in a row are distinct, never 0, and from a polled slot |
| Prefetch.FrozenSettles | Benchmark/KernelWriter.h:338-386 | frozen slots with at most eight pending indices: at most that many further fetches, no index twice, then idle for good with every pending index among the last eight deliveries |
| Prefetch.FrozenThrashes | Benchmark/KernelWriter.h:338-386 | with nine or more pending indices every poll fetches again, whatever was fetched before |
| Prefetch.FrozenLoop | Benchmark/KernelWriter.h:338-386 | the last two after any run of the filter: fetching stops if and only if at most eight indices are pending, and then all of them end in the queue |
| PendCode.Turn | Benchmark/KernelWriter.h:338-386 | the 27 emitted instructions of one turn, run under any interference on memory, are one poll of the filter on what the slot load found |
| PendCode.CountStage | Benchmark/KernelWriter.h:344-351 | the loop is left exactly when the counter word it loaded was 0 |
| PendRun.SetupRuns | Benchmark/KernelWriter.h:326-336 | the set-up leaves the empty filter, and lane l of the lower half addresses word l behind the slot base |
| PendRun.TurnIsPoll | Benchmark/KernelWriter.h:338-386 | a turn from loop head to loop head, the caller's code included, is a poll, provided that code keeps what the loop carries; PendBody and Emitted say which code does |
| PendRun.JumpBack | Benchmark/KernelWriter.h:400-404 | the branch of f_e_pend_signal leads to the loop head |
| PendBody.ScalarIffCarried | Benchmark/KernelWriter.h:326-404 | a scalar register may be overwritten with anything between two loop heads exactly when it is none of bitmap, saved mask and slot address |
| PendBody.VectorIffCarried | Benchmark/KernelWriter.h:326-404 | a vector register exactly when it is none of queue, lane number and signal address |
| PendBody.BodyKeeps | Benchmark/KernelWriter.h:386-404 | code whose instructions write none of these, nor exec_hi, keeps what the loop carries however it branches and loops |
| PendBody.BodyTurnsAreTurns | Benchmark/KernelWriter.h:338-404 | so the turns the machine makes through such code and back to the head are polls, any number of them |
| PendBody.StraightReturns | Benchmark/KernelWriter.h:400-404 | code without branches always reaches the head again, by the jump of f_e_pend_signal |
| PendBody.StraightTurn | Benchmark/KernelWriter.h:338-404 | so with such code every turn that finds the counter not 0 ends at the head |
| PendRun.LoopIsFilter | Benchmark/KernelWriter.h:338-386 | any number of turns of the machine is a run of the filter |
| PendRun.PrefetchLoop | Benchmark/KernelWriter.h:326-386 | set-up and loop together deliver exactly what the reference picks from the slots, whatever other waves write and when |
| PendRun.EmittedLoopSettles | Benchmark/KernelWriter.h:326-386 | the emitted loop on slots that no longer change: at most eight pending indices are each fetched at most once more, end in the queue lanes, and no turn fetches after that; with more every turn fetches |
| Emitted.EmittedLoopFollowsReference | Benchmark/KernelWriter.h:309-404 | the same for the text f_s_pend_signal, the caller and f_e_pend_signal append to a program, with the registers the allocator chose, for all caller's code that writes only registers taken before |
| Emitted.OwnedSpares | Benchmark/KernelWriter.h:309-404 | an instruction that writes only registers taken when f_s_pend_signal was called, other than the slot address and v_tid_x, and not exec_hi, touches nothing the loop carries |
| Programs.LoopIsLeft | Benchmark/KernelWriter.h:344-404 | a wave at the loop head is behind everything f_s_pend_signal and f_e_pend_signal appended after 8 steps exactly when the counter word it loads is 0 |
| Signals.CounterCountsLive | Benchmark/KernelWriter.h:269-272 | in every interleaving the counter is the number of waves registered and not retired |
| Signals.RegisterDistinct | Benchmark/KernelWriter.h:269-278 | a registration makes two waves share a slot exactly when a live wave holds the slot whose number the counter shows |
| Signals.RegisterMore | Benchmark/KernelWriter.h:269-278 | n further registrations keep all slots distinct exactly when none of the next n slots is held |
| Signals.DenseIffSafe | Benchmark/KernelWriter.h:269-278 | registering stays safe for any number of waves while live waves hold only slots below the counter; one that holds a higher slot shares it once the counter has passed it |
| Signals.RetireDense | Benchmark/KernelWriter.h:292-302 | a retirement keeps the live waves on slots 0..n-1 exactly when it gives back the highest one |
| Signals.RegisterThenRetire | Benchmark/KernelWriter.h:269-308 | when all registrations precede all retirements the waves get slots 0, 1, 2, ..., never share one, and over the whole run no send and no registration overwrites the signal of another wave |
| Signals.LateRegistrationShares | Benchmark/KernelWriter.h:269-302 | without that order two live waves can share a slot: a run of five steps |
| Signals.StepKeepsSlots | Benchmark/KernelWriter.h:280-308 | while slots are distinct every sending wave finds in its slot what it wrote last, whoever moves |
| Signals.StepDisturbs | Benchmark/KernelWriter.h:280-308 | a step overwrites another wave's signal exactly when it is the send, or the clearing after a registration, of a wave with the same slot and stores a different word |
| Fetching.AlwaysSentIffClean | Benchmark/KernelWriter.h:280-379 | in every run, the counter and each lane's slot read at moments of their own, every delivery had been sent exactly when no polled slot starts with an index |
| Fetching.UnclearedIsDelivered | Benchmark/KernelWriter.h:280-379 | if one does, the first poll after any registration delivers something nobody sent |
| Fetching.DeliveredWasSent | Benchmark/KernelWriter.h:354-372 | what the filter picks from words that each polled lane found in its slot at a moment of a run had been sent by the last of these moments |
| Fetching.EveryFetchWasSent | Benchmark/KernelWriter.h:245-404 | workers in any interleaving, also between the lanes of one slot load, the fetch wave running the emitted loop, any stores elsewhere: every index it delivers had been sent by then |
| Fetching.LeavesWhenNobodyIsLive | Benchmark/KernelWriter.h:344-351 | the fetch wave leaves its loop exactly when no wave is registered at the moment it reads the counter |
| Worker.ResetBranch | Benchmark/KernelWriter.h:255-260 | only waves of the first 64 groups reach the reset store |
| Worker.ResetHitsCounter | Benchmark/KernelWriter.h:255-260 | the reset store hits the wave counter exactly when wave_num_offset is 0 |
| Worker.ResetStores | Benchmark/KernelWriter.h:258-259 | after it the counter reads 0 and the system is the empty one when wave_num_offset is 0; otherwise the counter is untouched |
| Worker.WorkerRegisters | Benchmark/KernelWriter.h:269-283 | of the ten emitted instructions the atomic is the step Register, the store the step Clear, no other touches memory, and every active lane ends with the address of the slot the counter gave out |
| Worker.InitRuns | Benchmark/KernelWriter.h:245-291 | from the first line of the block a wave reaches its end on either side of the reset branch; the atomic is Register, the last store Clear, and every active lane ends with slot address + 4 k for the k the atomic found |
| Programs.InitTextRuns | Benchmark/KernelWriter.h:245-291 | the same for the text f_init_signal_slot appends to a program without its label, with the registers the allocator chose: the waves of the first 64 groups first store 0 at the slot address |
| Programs.WorkerTextIsLaid | Benchmark/KernelWriter.h:245-308 | a text of registration, own code with sends, and retirement is a program of the waves of MachineRefines, the registration starting 8 lines into it |
| Worker.SendStep | Benchmark/KernelWriter.h:303-308 | the emitted store is the step Send of a word that an active lane holds |
| Worker.RetireStep | Benchmark/KernelWriter.h:292-302 | the emitted atomic subtract is the step Retire |
| Machines.AgentRefines | Benchmark/KernelWriter.h:269-308 | one instruction of a worker, in its emitted blocks or its own code, is one event of its wave or none |
| Machines.MachineRefines | Benchmark/KernelWriter.h:245-308 | any number of waves, each stepping through its emitted code on one memory in any interleaving, with stores elsewhere by anybody, refine the system of events |
| Machines.FetchedWasStored | Benchmark/KernelWriter.h:245-404 | beside such waves, whose instructions may fall between the lanes of one slot load, every index the emitted prefetch loop hands over had been stored by the emitted send of a worker before |
| Machines.LeavesWhenNobodyServes | Benchmark/KernelWriter.h:269-351 | and the loop is left exactly when no worker was between its atomic add and its atomic subtract when the counter was read |
| Registers.ScanMeaning | Benchmark/KernelWriterBasic.h:184-204 | the scan finds the lowest aligned free run; it leaves the array exactly when none fits and some aligned free run reaches the end of the file; it reports failure exactly otherwise |
| Registers.ServeSound | Benchmark/KernelWriterBasic.h:172-334 | a request keeps live variables aligned, disjoint, in range and below the mark, and a cell is 1 exactly when a live variable covers it |
| Registers.EveryRunSound | Benchmark/KernelWriterBasic.h:172-334 | so after every run of allocations, releases and clears, and the mark never falls |
| Registers.OnesAfter | Benchmark/KernelWriterBasic.h:206-209 | a request changes the number of taken registers by the length it takes or gives back |
| Registers.EveryRunTotal | Benchmark/KernelWriterBasic.h:172-334 | after every run the number of taken registers is the sum of the lengths of the live variables |
| Registers.UniformIsOptimal | Benchmark/KernelWriterBasic.h:184-223 | for requests of one size at that alignment the mark is the size times the largest number of variables live at once |
| KernelWriters.FindRun | Benchmark/KernelWriterBasic.h:184-204 | the two nested loops find what the scan is specified to find, without reading outside the array when the scan stays inside |
| KernelWriters.SetRun | Benchmark/KernelWriterBasic.h:206-209 | exactly the cells of the run change |
| KernelWriters.KernelWriter.constructor | Benchmark/KernelWriterBasic.h:127-152 | all registers free, marks and LDS bytes 0, no text |
| KernelWriters.KernelWriter.NewSgpr | Benchmark/KernelWriterBasic.h:172-228 | the lowest aligned free run becomes taken and the mark rises to its end; "off" takes nothing; no run gives no variable |
| KernelWriters.KernelWriter.NewVgpr | Benchmark/KernelWriterBasic.h:229-285 | the same on the vector registers |
| KernelWriters.KernelWriter.DelVar | Benchmark/KernelWriterBasic.h:308-328 | the cells of the variable become free, in its own file only; the mark stays |
| KernelWriters.KernelWriter.ClrVar | Benchmark/KernelWriterBasic.h:329-334 | every cell of both files becomes free |
| KernelWriters.KernelWriter.WrLine | Benchmark/KernelWriterBasic.h:462-468 | one line at the indentation is appended |
| KernelWriters.KernelWriter.WrLaber | Benchmark/KernelWriterBasic.h:493-499 | a label is appended at the margin and the indentation restored |
| KernelWriters.KernelWriter.Log2 | Benchmark/KernelWriterBasic.h:501-510 | the halving loop counts the halvings |
| Words.Log2Bounds | Benchmark/KernelWriterBasic.h:501-510 | the result is the exponent of the largest power of two not above the value |
| Words.Log2OfPow2 | Benchmark/KernelWriterBasic.h:501-510 | so it is exact on powers of two |
| Generator.NewIsRequest | Benchmark/KernelWriterBasic.h:172-285 | the writer's allocations are requests to the register files above, safe exactly when those allow them |
| Generator.DelIsRequest | Benchmark/KernelWriterBasic.h:308-328 | and its releases are releases there |
| Generator.AllSimilar | Benchmark/KernelWriter.h:193-204 | marks, LDS bytes and text so far influence no answer a program gets and nothing it appends |
| Generator.Pass | Benchmark/KernelWriter.h:120-127 | a pass appends a header with the marks and LDS bytes it met and a body that depends on the program only, and leaves all registers free |
| Generator.TwoPasses | Benchmark/KernelWriter.h:38-47 | the second pass writes the body of the first again, under a header with the marks and LDS bytes of a whole run, and moves no mark |
| Generator.ThirdPass | Benchmark/KernelWriter.h:38-47 | a third pass would write the same text exactly when the program uses no LDS, since that count is never reset |
| Generator.FreshGenerates | Benchmark/KernelWriter.h:38-47 | a new writer that gets through the first pass gets through the second, and its text is that of the second pass |
| Generator.PrintedBelowHeader | Benchmark/KernelWriterBasic.h:172-228 | every register the second pass prints that is part of an allocation at that moment has an index below the marks |
| KernelText.PrintedInHeader | Benchmark/KernelWriter.h:180-188 | looked up in the finished text: such a scalar register plus 6 is below wavefront_sgpr_count, such a vector register below workitem_vgpr_count |
| KernelText.HeaderReserves | Benchmark/KernelWriter.h:180-186 | the two granule lines of the finished text are the least that hold these two counts, less one, in granules of 8 and 4 |
| KernelText.FinishedText | Benchmark/KernelWriter.h:38-47 | the finished text line by line: signature and kernel label, code object, the lines of the program's calls between START_PROG and END_PROG, s_endpgm behind it; the LDS line has the bytes the calls ask for |
| KernelText.DefaultsLie | Benchmark/KernelWriter.h:153-166 | from free registers s_kernelArg is s[0:1], the group ids s2, s3, s4, the thread ids v0, v1 |
| KernelText.DefaultsFilled | Benchmark/KernelWriter.h:153-184 | in the finished text the kernel argument pointer and the three group ids are enabled, user_sgpr_count is the length of the pointer and the index of s_gid_x |
| Generator.GranulesHold | Benchmark/KernelWriter.h:180-181 | the granule counts are the smallest that hold the registers |
| KernelWriters.KernelWriter.Execute | Benchmark/KernelWriterBasic.h:172-334 | each call of a program changes the writer as specified |
| KernelWriters.KernelWriter.WriteProgram | Benchmark/KernelWriter.h:193-205 | any deterministic sequence of calls |
| KernelWriters.KernelWriter.InitialDefaultGprs | Benchmark/KernelWriter.h:153-166 | the six default variables, in order; from free registers s_gid_x is s2 and v_tid_x is v0 |
| KernelWriters.KernelWriter.WriteCodeObj | Benchmark/KernelWriter.h:167-192 | the header lines with the marks and LDS bytes at that moment |
| KernelWriters.KernelWriter.WriteSignature | Benchmark/KernelWriter.h:100-119 | the signature lines, from the margin |
| KernelWriters.KernelWriter.WriteContent | Benchmark/KernelWriter.h:120-127 | one pass: defaults, header, program, footer, all registers given back |
| KernelWriters.KernelWriter.GenKernelString | Benchmark/KernelWriter.h:38-47 | two passes, the text of the first thrown away |
| Temps.PlacesPlaced | Benchmark/KernelWriterBasic.h:172-285 | temporaries taken one after the other are aligned, were free, and do not overlap |
| Temps.ClearOfOwned | Benchmark/KernelWriterBasic.h:172-285 | nor touch a register the caller holds |
| Temps.GivenBack | Benchmark/KernelWriterBasic.h:308-328 | given back in the order they were taken, the register file is as it was |
| KernelWriters.KernelWriter.FLinearAddr | Benchmark/KernelWriter.h:210-224 | appends the block whose meaning LinearAddress gives, and leaves the register files as they were |
| KernelWriters.KernelWriter.FReadHwRegHwId | Benchmark/KernelWriterBasic.h:2275-2403 | appends the read and the extractions asked for; register file as before |
| KernelWriters.KernelWriter.FSignalSlotAddr | Benchmark/KernelWriter.h:226-244 | appends the block whose meaning SlotAddress gives; register file as before |
| KernelWriters.KernelWriter.FInitSignalSlot | Benchmark/KernelWriter.h:245-291 | appends reset, delay and registration, each access followed by its error line if it has one; register files as before |
| KernelWriters.KernelWriter.FDeinitSignalSlot | Benchmark/KernelWriter.h:292-302 | appends the retirement, with its error line if it has one; register file as before |
| KernelWriters.KernelWriter.FSendSignal | Benchmark/KernelWriter.h:303-308 | appends the send, with its error line if it has one |
| KernelWriters.KernelWriter.FSPendSignal | Benchmark/KernelWriter.h:309-399 | appends set-up and loop head, each access followed by its error line if it has one; all eleven variables are given back before the caller's code |
| Checks.CheckedIff | Benchmark/KernelWriterBasic.h:574-579 | a block is written without error lines exactly when no access in it has an address of the wrong width or an offset too large |
| Checks.InitClean | Benchmark/KernelWriter.h:245-291 | registration is free of error lines exactly when both address variables are pairs and the signal offset is at most 1023 |
| Checks.DeinitClean | Benchmark/KernelWriter.h:292-302 | retirement exactly when the slot address is a pair |
| Checks.SendClean | Benchmark/KernelWriter.h:303-308 | a send exactly when the signal address is a pair and the offset is at most 1023 |
| Checks.PendClean | Benchmark/KernelWriter.h:309-399 | the prefetch loop exactly when the slot address is a pair and the offset is at most 1023 |
| KernelWriters.KernelWriter.FEPendSignal | Benchmark/KernelWriter.h:400-404 | appends the jump back and the end label |
| KernelWriters.KernelWriter.FSLoop | Benchmark/KernelWriterBasic.h:2405-2414 | appends counter and label, and sets the indentation to 1 whatever it was |
| KernelWriters.KernelWriter.FELoopAt | Benchmark/KernelWriterBasic.h:2415-2420 | appends the loop end and keeps the counter |
| KernelWriters.KernelWriter.FELoop | Benchmark/KernelWriterBasic.h:2421-2428 | appends the loop end and gives back the counter |
| KernelWriters.KernelWriter.FAddrAddByte | Benchmark/KernelWriterBasic.h:2430-2487 | appends the block of the branch taken; a large literal on a scalar address keeps one register taken for ever; other operands fail and append nothing |
| KernelWriters.KernelWriter.FSetBufferDesc | Benchmark/KernelWriterBasic.h:2188-2261 | appends the four lines, then fails with the line of the first check that fails: descriptor scalar, four registers, base scalar |
| KernelWriters.LinearTempsApart | Benchmark/KernelWriter.h:210-224 | the allocator's choice meets the register conditions of LinearAddress |
| KernelWriters.SlotTempsApart | Benchmark/KernelWriter.h:226-244 | the same for SlotAddress |
| KernelWriters.InitTempsApart | Benchmark/KernelWriter.h:245-253 | the same for the worker's registration |
| KernelWriters.PendTempsApart | Benchmark/KernelWriter.h:314-324 | the same for the prefetch loop |
| KernelWriters.BodyGetsExecSave | Benchmark/KernelWriter.h:388-398 | the next scalar register allocated behind f_s_pend_signal is s_exec_save, which the loop still carries |
| Address.AddToBaseDoes | Benchmark/KernelWriter.h:218-220 | the three instructions give base plus offset modulo 2^64 in every active lane and change nothing else |
| LinearAddr.LinearAddress | Benchmark/KernelWriter.h:210-224 | the emitted address is base + 4 (gid groupSize + tid) exactly when that offset fits in 32 bits and the group size is a power of two or the group is 0 |
| LinearAddr.LinearAddressesDistinct | Benchmark/KernelWriter.h:210-224 | the emitted code gives two threads the same address exactly when they are the same thread of the same group |
| AddByte.ScalarAddress | Benchmark/KernelWriterBasic.h:2458-2481 | the scalar address grows by the offset as an unsigned word; for literals that is the 64-bit sum exactly when they are not negative |
| AddByte.LargeLiterals | Benchmark/KernelWriterBasic.h:2437-2473 | exactly the literals below -16 or above 64 are moved to a temporary first |
| AddByte.VectorAddress | Benchmark/KernelWriterBasic.h:2432-2457 | the same in every active lane of a vector address, with the literal as the operand also where it is large |
| SlotAddr.ReadHwIdDoes | Benchmark/KernelWriterBasic.h:2295-2391 | whichever fields of the hardware id are asked for end in their registers, each named by its bits of the id, and nothing else changes |
| SlotAddr.FieldsDetermine | Benchmark/KernelWriterBasic.h:2313-2388 | two ids have the same fields exactly when they agree in every bit but bit 15 |
| SlotAddr.SlotAddress | Benchmark/KernelWriter.h:226-240 | the emitted address is the pointer plus 4 * 2^log2(size) * (16 * (bits 13-14 of the hardware id) + bits 8-11) |
| SlotAddr.SameSlots | Benchmark/KernelWriter.h:226-240 | two waves with the same pointer get the same slots exactly when their hardware ids agree in bits 8-11 and 13-14 |
| Programs.SlotTextRuns | Benchmark/KernelWriter.h:226-244 | the same address for a wave that runs the text f_signal_slot_addr appends |
| Programs.LinearTextRuns | Benchmark/KernelWriter.h:210-224 | a wave that runs the text f_linear_addr appends ends behind it, with base + 4 (gid size + tid) in every active lane exactly under the condition of LinearAddress |
| SlotAddr.UnitsDistinct | Benchmark/KernelWriter.h:232-234 | two ids give the same unit number exactly when compute unit and shader engine are the same, and it is below 64 |
| SlotAddr.RegionsDisjoint | Benchmark/KernelWriter.h:238 | the slot regions of two compute units never overlap exactly when the slot size is a power of two |
| SlotAddr.WaveRegions | Benchmark/KernelWriter.h:226-240 | the slots the emitted code finds for two waves with the same pointer are different bytes modulo 2^64 exactly when the waves are on different compute units and the size is a power of two or the unit numbers are 2 or more apart |
| CounterLoop.LoopCount | Benchmark/KernelWriterBasic.h:2405-2428 | a body that keeps the counter runs exactly n times for n >= 1, and 2^32 times for n = 0 |
| CounterLoop.LoopEnters | Benchmark/KernelWriterBasic.h:2405-2414 | the first instruction sets the counter |
| Programs.CountedTextRuns | Benchmark/KernelWriterBasic.h:2405-2428 | for the text of f_s_loop, a body and f_e_loop behind lines without the label: a wave that enters with count n runs the body exactly n times, 2^32 times for 0, and ends behind the loop |
| Programs.CountedTextEnds | Benchmark/KernelWriterBasic.h:2405-2428 | with a body without branches that spares the counter the machine gets there by itself, after 1 + n (body + 4) steps |
| BufferDesc.Word1RoundTrip | Benchmark/KernelWriterBasic.h:2200-2214 | stride and flags of word 1 are read back exactly when the base register has no bit above 15 that they do not have |
| BufferDesc.PlainBase | Benchmark/KernelWriterBasic.h:2200-2214 | a base below 2^48 never disturbs them |
| BufferDesc.Word3RoundTrip | Benchmark/KernelWriterBasic.h:2219-2237 | formats, index stride and add_tid_en of word 3 are read back for all inputs |
| BufferDesc.StrideRoundTrip | Benchmark/KernelWriterBasic.h:2200-2237 | the stride is read back: 18 bits with add_tid_en, otherwise 14 |
| BufferDesc.Word1Fits | Benchmark/KernelWriterBasic.h:2210-2214 | the literal of word 1 fits the int it is printed through exactly when swizzling is off |
| BufferDesc.LiteralsFit | Benchmark/KernelWriterBasic.h:2210-2238 | all literals of the block do exactly when swizzling is off and there are fewer than 2^31 records |
| BufferDesc.DescriptorHolds | Benchmark/KernelWriterBasic.h:2200-2238 | for a base below 2^48 base, stride, flags, record count and formats are read back, by their bits, from the registers the emitted code leaves |
| BufferDesc.DescDoes | Benchmark/KernelWriterBasic.h:2200-2238 | the emitted code leaves these four words in the descriptor |
| SearchSpaces.WalkIncrements | Benchmark/KernelWriterBasicClass.h:385-428 | with its unset variable reading false, the recursive walk with its carry flag is one step of a mixed radix odometer |
| SearchSpaces.JunkHarmless | Benchmark/KernelWriterBasicClass.h:399-426 | the variable line 399 leaves unset does no harm, whatever it holds, exactly when all digits but the last two are at their largest |
| SearchSpaces.SearchIffNarrow | Benchmark/KernelWriterBasicClass.h:385-428 | a whole search shows combination k at call k, and ends after the last, whatever that variable holds at each call, exactly when all parameters but the last two have one value |
| SearchSpaces.IncrementAddsOne | Benchmark/KernelWriterBasicClass.h:391-428 | a success adds exactly 1; failure comes exactly at the largest combination and leaves all digits but the last at 0 |
| SearchSpaces.SeesEverything | Benchmark/KernelWriterBasicClass.h:385-428 | from all zeros, call k succeeds exactly for k below the product of the value counts, and shows combination k: with anything in the unset variables if all parameters but the last two have one value, otherwise with false |
| SearchSpaces.SeenOnce | Benchmark/KernelWriterBasicClass.h:385-428 | under the same condition every combination of the product is seen at exactly one call |
| SearchSpaces.SearchSpace.GetNexComb | Benchmark/KernelWriterBasicClass.h:385-428 | the method does the walk on its fields, keeps value and index together, and resets its cursor |
| SearchSpaces.SearchSpace.RecordBestComb | Benchmark/KernelWriterBasicClass.h:433-440 | best index and value become the current ones, for every parameter |
| SearchSpaces.SearchSpace.AddOneParam | Benchmark/KernelWriterBasicClass.h:445-480 | when it fails and what it appends otherwise, the range branch included |
| SearchSpaces.TruncatedRest | Benchmark/KernelWriterBasicClass.h:457 | the division of the range branch rounds towards zero |
| SearchSpaces.RangeIsRight | Benchmark/KernelWriterBasicClass.h:461-469 | the values of a range parameter are min, min + step, ... exactly when the range is one step long |
| Tuning.RunOneSolutionConfig | Benchmark/KernelWriterBasicClass.h:385-440 | the loop of Benchmark/ProblemControl.cpp:52-77 from any best time so far: it tries every combination once, records as specified, and ends with the cursor at the first parameter, all digits but the last at 0 and the last at its largest; the unset variables as in SeesEverything |
| Tuning.BestIsFirstMinimum | Benchmark/KernelWriterBasicClass.h:430-440 | the test of Benchmark/ProblemControl.cpp:195-200: a combination is recorded exactly when some combination beats the best time so far, and then it is the first of the fastest; otherwise that time stays |
| Tuning.FirstSearchRecords | Benchmark/KernelWriterBasicClass.h:430-440 | from the -1 each problem starts with, nothing is recorded exactly when no combination could be generated |
| Tuning.BestOverProduct | Benchmark/KernelWriterBasicClass.h:385-440 | no combination of the whole product is faster than the best time afterwards, which is that of the recorded combination if there is one |
| KernArg.AlignUpIsLeast | Benchmark/BackendEngine/BackendEngineHSA.cpp:149-155 | the offset is rounded up to the least multiple of the alignment |
| KernArg.InOrder | Benchmark/BackendEngine/BackendEngineHSA.cpp:149-162 | each argument starts at a multiple of its size, behind the one before and inside the block |
| KernArg.NoOverlap | Benchmark/BackendEngine/BackendEngineHSA.cpp:149-162 | no two overlap |
| KernArg.SizeBounds | Benchmark/BackendEngine/BackendEngineHSA.cpp:157-162 | the block is between the sum of the sizes and the sum of twice each size less one |
| KernArg.NoPadding | Benchmark/BackendEngine/BackendEngineHSA.cpp:157-162 | it is as short as the arguments exactly when every one starts where the one before ends |
| KernArg.AlignedCopyKernarg | Benchmark/BackendEngine/BackendEngineHSA.cpp:149-155 | only the bytes at the rounded offset change, to the content, and only with block and content; the offset moves past them |
| KernArg.GetKernArgSize | Benchmark/BackendEngine/BackendEngineHSA.cpp:157-162 | the sizing pass ends where the last argument ends |
| KernArg.FillKernArgs | Benchmark/BackendEngine/BackendEngineHSA.cpp:196-203 | the copying pass ends there too, so it never leaves the block; it writes exactly the bytes of arguments with a content |
| KernArg.RoundTrip | Benchmark/BackendEngine/BackendEngineHSA.cpp:200-203 | every argument is read back unchanged at its offset, one without content as it was before |

## Left out

- LinearAddr.LinearAddress: group sizes from 1 to 2^29 - 1; the hardware has none above 1024.
- SlotAddr.SlotAddress: slot sizes below 2^25 words, for which the offset of the last compute unit fits in 32 bits.
- Signals.CounterCountsLive: fewer than 2^30 waves, so that the 32-bit counter and the slot addresses do not wrap.
- Signals.Apply: Register, Clear, Send and Retire are single accesses to shared memory; caches and the order in which other waves see stores are not modelled.
- Worker.SendStep: which of the active lanes' words is left when they differ; the hardware has no order there, the interpreter takes the last lane.
- AddByte.VectorAddress: the large-literal branch prints the literal as second source of v_add_co_u32, which gfx9 cannot encode; the temporary it loads was evidently meant there. The interpreter takes the operand at its value.
- SearchSpaces.SearchSpace.GetNexComb: the result is that of the innermost call, although line 427 drops it and the outer calls return no value.
- KernelWriters.KernelWriter.FSetBufferDesc: operands that are no registers, which have no printed form or that of a label.
- BufferDesc.DescDoes: literals count at their value, although the printer takes them through a signed int; LiteralsFit says when they fit.
- KernelWriters.KernelWriter.FInitSignalSlot: variables of the other register file, here and in the other blocks of the protocol, for which the checks have further messages; signal offsets of 2^29 and more, whose byte offset does not fit an int.
- KernelWriters.KernelWriter.FAddrAddByte: an offset given as a variable that holds an immediate, for which the original has no return value.
- KernelWriters.KernelWriter.FReadHwRegHwId: scalar outputs or "off"; the check for a wave id of another kind is not reachable then.
- KernArg.EndOf: sizes and offsets are unbounded, size_t does not wrap.
- SearchSpaces.Truncated: the difference of the range limits does not overflow.
- KernelWriters.KernelWriter.WriteSignature: the lines for gfx900, which the build selects.
- Columns and spaces inside a line, comments, and the metadata text behind the program.
- The map from names to variables: it is written and never read.
- The forced register count of operator ^: the pair is given to the move directly.
- Printing a variable as text; what is proved about registers is about their numbers.
- fv_div_u32: it depends on an approximate reciprocal.
- The flat, LDS, GDS, buffer and scalar-memory printers beyond the instructions used above: one string for each branch.
- OpenCL and HSA calls, devices, queues, compilers, files, timers.
