# SPPU models and proofs

Dafny models of the Search Processing Unit: the batched similarity search from the daemon and
the command-line tool down to the driver's emulation, the tree walker, DMA engine, vector
memory and dot-product sweep as clocked hardware, the software tree generators and the
speculative session, and the SIMD dot products. `dafny verify dfyconfig.toml` checks everything.

## How it is laid out

| file | what it models |
|---|---|
| `Words.dfy` | machine words, masks, device limits |
| `DotProduct.dfy`, `Simd.dfy` | the exact dot product, its first maximum, and the vectorised loops |
| `EmuDevice.dfy`, `Sdk.dfy` | the driver's emulated search device and the calls a batch makes |
| `Database.dfy`, `Csv.dfy` | the vector database, its batches, and the CSV loader |
| `TopK.dfy`, `Heap.dfy`, `Searchd.dfy`, `SearchCli.dfy` | the best K, the daemon's heap, the two programs |
| `SearchTheorems.dfy` | what the programs' answers mean, and how they agree |
| `Lfsr.dfy`, `EmuSeu.dfy`, `Backend.dfy` | shift registers, the two software tree generators, the speculative session |
| `Vecmem.dfy`, `SeuTree.dfy`, `SeuWalker.dfy`, `SeuRuns.dfy`, `SeuBuffers.dfy`, `SeuBoard.dfy` | vector memory, the tree walker's step function, its clocked class, whole runs, and the parts clocked together |
| `Dma.dfy`, `DmaRuns.dfy`, `DmaBus.dfy`, `Dotprod.dfy` | the DMA engine, its transfers, what they do on the bus and to memory, and the dot-product sweep |

Each clocked module is a class whose `Clock` is proved equal to a step function on the register
values; the run theorems are about that function, for every input sequence, and a method that
clocks the objects over an input sequence is proved to end where the function does. Loops of the C code
are methods proved against recursive functions on their contents. Scores are exact numbers, tree
entries raw 32-bit patterns. A Verilog value that simulation leaves unknown is an arbitrary input.
A system call that may fail is a budget of calls that succeed.

## What came out

- Both programs take one winner per batch of 25 rows. Their K results are the K best rows of every
  database of a given size exactly when K or the size is 1 (`SearchTheorems.BestRowsIff`). When
  every batch answers and some row scores above -1e9 the first result is the global maximum
  (`SearchTheorems.FirstResultIsGlobalMaximum`); a batch with no such row reports the index before
  its slice, modulo 2^32 (`SearchTheorems.BatchWinnerMeaning`).
- A DMA request that is not a multiple of four bytes never ends (`DmaRuns.TerminatesIff`). The
  source address never advances, so transfers copy a contiguous range exactly up to 64 bytes
  (`DmaBus.ContiguousIff`, with a run that breaks it in `DmaBus.CopyRepeats`), and the words land at
  every fourth address of the word-addressed memory, the last 1024 surviving
  (`DmaBus.MemoryAfterTransfer`). Nothing keeps a burst within 4 KB (`DmaBus.InPageIff`).
- The tree walker counts its entries from the configuration of the start before, so a run walks
  its own tree only under an exact condition on both configurations (`SeuRuns.WalksItsTreeIff`), and
  never on the first start after reset (`SeuRuns.FirstRunWalksAnother`). It holds in context slot j
  the word meant for slot j - 2 (`SeuBuffers.RunLoadsContext`), scores every entry with the weight
  left by an earlier run (`SeuBuffers.RunScores`), and reports branch 0 or none as valid whatever the
  branch mask (`SeuRuns.MemoryAfterRun`).
- The dot-product engine reports index 0 and score 0 after every run (`Dotprod.AlwaysReportsZero`).
- The emulated driver never writes the entries-total register, so a speculative build on it builds
  its tree, and then fails in every state of the driver; a run commits nothing, and leaves the tree
  and its scores behind (`Backend.DriverTimesOut`, `Backend.Session.SpeculativeRun`).
- The score a tree build reports is that build's own exactly when no build since the driver was
  loaded covered the reported branch (`EmuSeu.ReportedScoreFreshIff`); repeating the first build
  doubles it (`EmuSeu.RebuildDoubles`).

Where code and documentation differ the code is followed: the device holds 25 vectors
(`emulator/sppu_device.h:156`), not the 1000 its README and `tools/sppu_search.c:5` name; the hardware
clamps depth to 2..4 levels (`fpga/rtl/seu_tree.v:99-103`) and the software to 5..8; and the DMA's
byte addresses step by four through a word-addressed memory.

## Model

| member | source | states |
|---|---|---|
| DotProduct.FirstMaxIsFirst | kernel_module/sppu_driver.c:122-131 | the scan ends at the lowest index attaining the maximum when that beats -1e9, and at index -1 with -1e9 otherwise |
| EmuDevice.Device.RowScore | kernel_module/sppu_driver.c:123-125 | the inner loop is the dot product of the stored row and the target over the configured dimension |
| EmuDevice.Device.RunSearch | kernel_module/sppu_driver.c:108-137 | DONE, and the result registers show the first maximum over the first vecCount rows, index -1 as the all-ones word |
| EmuDevice.Device.WriteCtrl | kernel_module/sppu_driver.c:92-103 | a control write with the start bit searches; any other leaves status and result alone |
| EmuDevice.Device.Reset | kernel_module/sppu_driver.c:453-457 | in emulation a reset only clears the control register: status and result survive |
| EmuDevice.Device.SetParam | kernel_module/sppu_driver.c:391-396 | accepted iff the dimension is at most 768; a refusal changes nothing |
| EmuDevice.Device.LoadVec | kernel_module/sppu_driver.c:462-472 | accepted iff index and length fit; exactly the first cells of that row change |
| EmuDevice.Device.SetTarget | kernel_module/sppu_driver.c:473-482 | accepted iff the length fits; exactly the first target cells change |
| EmuDevice.Device.Start | kernel_module/sppu_driver.c:483-486 | starting in emulation completes the search before it returns |
| Sdk.Handle.LoadVector | sdk/src/libsppu.c:71-84 | succeeds iff length and index are in range and the call goes through, and then writes that row; otherwise the device is unchanged |
| Sdk.Handle.SetTarget | sdk/src/libsppu.c:86-99 | succeeds iff the length is in range and the call goes through, and then replaces the first cells of the target; otherwise the device is unchanged |
| Sdk.Handle.WaitResult | sdk/src/libsppu.c:138-173 | on a device that is done, two successful calls return exactly its result registers |
| Sdk.Handle.SearchBatch | tools/sppu_search.c:239-278 | from any device state the answer is the slice's own winner at its global index, and it arrives iff every call goes through |
| Database.BatchesPartition | examples/semantic_search/sppu_searchd.c:337-340 | the batches are adjacent and together take every row of the database |
| TopK.TopKScoresUnique | tools/sppu_search.c:306-316 | all correct top-K answers over the same entries have the same score sequence, whatever the ties |
| TopK.TopKPrefix | tools/sppu_search.c:308-316 | the best j of the best k entries are the best j of all |
| TopK.KeepsReplaced | examples/semantic_search/sppu_searchd.c:356-360 | replacing the least of k kept entries by a better one keeps the k best |
| Heap.SiftDown | examples/semantic_search/sppu_searchd.c:252-263 | the in-place loop leaves what the recursive sift leaves: a permutation that moves only nodes from start to n |
| Heap.SiftedIsHeap | examples/semantic_search/sppu_searchd.c:252-263 | a sift from a node above heap-ordered nodes makes a heap from that node on |
| Heap.Heapify | examples/semantic_search/sppu_searchd.c:354-355 | the rebuild loop after an insertion turns any array into a min-heap |
| Heap.Offer | examples/semantic_search/sppu_searchd.c:350-360 | one winner is stored, replaces the root, or is refused, as the loop body does |
| Heap.OfferedHolds | examples/semantic_search/sppu_searchd.c:350-360 | after any winner the array is a min-heap of exactly the min(K, seen) best entries so far |
| Heap.SortDescending | examples/semantic_search/sppu_searchd.c:378-383 | the final swap and sift loop computes the recursive heap sort |
| Heap.HeapSortedSorts | examples/semantic_search/sppu_searchd.c:378-383 | from a min-heap it leaves the same entries in non-increasing score order |
| Searchd.OpenAndSearch | examples/semantic_search/sppu_searchd.c:213-244 | the batch's winner when opening and all n + 6 calls succeed, nothing otherwise |
| Searchd.CollectWinners | examples/semantic_search/sppu_searchd.c:337-363 | the batch loop ends with the K best winners of the batches that answered, as a heap |
| Searchd.DoSearch | examples/semantic_search/sppu_searchd.c:292-383 | which requests are refused and how, and otherwise the results are the ordered top K of the answering batches' winners, K moved into 1..100 |
| SearchCli.ResultBuffer.AddResult | tools/sppu_search.c:291-304 | the sort-and-replace buffer keeps the best entries up to its capacity |
| SearchCli.ResultBuffer.PrintResults | tools/sppu_search.c:306-316 | the printed rows are the ordered top K of everything added |
| SearchCli.Qsort | tools/sppu_search.c:36-43 | any library sort with this comparison: a permutation in non-increasing order, ties open |
| SearchCli.Search | tools/sppu_search.c:489-539 | fails iff the dimensions differ or one of the 1 + rows + 6 batches calls fails; otherwise prints the ordered top K of all batch winners, K being 5 outside 1..100 |
| SearchTheorems.BatchWinnerMeaning | kernel_module/sppu_driver.c:122-136 | the reported index is the slice's lowest maximum iff a row beats -1e9, and is the index before the slice otherwise |
| SearchTheorems.FirstResultIsGlobalMaximum | examples/semantic_search/sppu_searchd.c:337-388 | with all batches answered and a row above -1e9, the first result is a row with the greatest dot product, with that score |
| SearchTheorems.DaemonFindsMaximum | examples/semantic_search/sppu_searchd.c:265-388 | the same for the daemon, from the number of calls that succeed |
| SearchTheorems.ResultCount | examples/semantic_search/sppu_searchd.c:392-393 | the number of results is min(K, number of batches) |
| SearchTheorems.ProgramsAgree | tools/sppu_search.c:505-537 | for 1 <= K <= 100 the tool and the daemon print the same scores, and indices differ only between winners that tie |
| SearchTheorems.BestRowsIff | examples/semantic_search/sppu_searchd.c:342-360 | the results are the K best rows of every database of a size iff K is 1 or the size is 1 |
| SearchTheorems.SecondBestMissed | examples/semantic_search/sppu_searchd.c:342-360 | two rows of one batch: a database whose second best row no K shows |
| Simd.BlockStep | benchmark/bench_simd.h:38-42 | one multiply-add over a block adds exactly that block's dot product to the lane total |
| Simd.Reduce4Sums | benchmark/bench_simd.h:44-49 | the shuffle and add sequence sums the four lanes |
| Simd.GuardWrapsIff | benchmark/bench_simd.h:97-97 | the 32-bit loop guard can wrap iff the dimension is within one width of 2^32 |
| Simd.DotScalar | benchmark/bench_simd.h:22-29 | the scalar loop is the dot product |
| Simd.DotSse42 | benchmark/bench_simd.h:33-56 | the 4-lane loop, reduction and tail equal the scalar dot product |
| Simd.DotAvx2 | benchmark/bench_simd.h:61-87 | the 8-lane loop, halving, reduction and tail equal the scalar dot product |
| Simd.DotAvx512 | benchmark/bench_simd.h:92-109 | the 16-lane loop and tail equal the scalar dot product |
| Lfsr.StepsAreBijections | fpga/rtl/seu_tree.v:297-298 | both register steps can be undone on every word, and fix zero |
| Lfsr.NeverZero | kernel_module/sppu_driver.c:155-165 | from a seed other than zero no state is ever zero, in software and in hardware |
| Lfsr.NeverMeet | qemu/sppu_qemu.c:167-169 | different seeds never reach the same state in the same number of steps |
| Lfsr.Taps | qemu/sppu_qemu.c:167-169 | a step moves every bit up one place, and the new low bit is on when an odd number of bits 31 and 5, or 31, 5 and 1 in hardware, is |
| Lfsr.SeedsAreNotZero | fpga/rtl/seu_tree.v:224-226 | every seed the hardware loads is other than zero |
| Lfsr.SeedParts | fpga/rtl/seu_tree.v:224-226 | the hardware seed is the branch mask above 0x1234, or a constant without branches |
| EmuSeu.FilledAt | kernel_module/sppu_driver.c:158-166 | entry i is the i-th register state xored with the shifted offset plus twice its level; later entries keep their contents |
| EmuSeu.FilledIs | kernel_module/sppu_driver.c:158-166 | level by level, entry i is the i-th register state xored with offset << (level & 3) plus twice the level |
| EmuSeu.GeneratorsAgree | qemu/sppu_qemu.c:160-170 | the kernel and QEMU generators write the same bits, and a build of fewer branches is a prefix |
| EmuSeu.KernelSeu.RunTree | kernel_module/sppu_driver.c:142-181 | 16 branches of the clamped depth are stored, each word the xor and sum of the source in shifts by constants, and announced, with the interrupt bit only when enabled |
| EmuSeu.QemuSeu.RunTree | qemu/sppu_qemu.c:148-183 | the same words in QEMU |
| EmuSeu.QemuSeu.ReadBack | qemu/sppu_qemu.c:195-203 | while the buffer holds the tree a run leaves, each index reads its entry's closed form; an index past the buffer reads zero |
| EmuSeu.KernelSeu.BuildIoctl | kernel_module/sppu_driver.c:542-560 | the words of the configured branches are stored; every accumulator gains the sum of its branch's low half-words over 65535; the best branch is that of the first word with the greatest low half; its score is its own iff no earlier build covered it |
| EmuSeu.AccumulatedAt | kernel_module/sppu_driver.c:225-227 | each accumulator gains exactly the scores of its own branch's entries, over earlier builds |
| EmuSeu.CoversIff | kernel_module/sppu_driver.c:216-227 | a build adds something positive to exactly the branches it is configured for, whatever depth and offset |
| EmuSeu.ReportedScoreFreshIff | kernel_module/sppu_driver.c:240-247 | over any history of builds, the reported best score is the build's own iff every earlier build had too few branches to cover the reported one |
| EmuSeu.RebuildDoubles | kernel_module/sppu_driver.c:227-227 | the same build twice reports twice its score |
| EmuSeu.BestExists | kernel_module/sppu_driver.c:233-242 | a build always has a best branch, and it is one of the configured ones |
| EmuSeu.BuildMeans | kernel_module/sppu_driver.c:216-242 | the same, for any build on any history, in terms of the stored words alone |
| EmuSeu.ConfigRoundTrip | sdk/src/libsppu.c:295-305 | the device unpacks what the SDK packed iff there are 1 to 16 branches and 1 to 15 context tokens |
| EmuSeu.KernelSeu.GetBranches | kernel_module/sppu_driver.c:573-583 | in emulation the reported number of entries is always zero |
| EmuSeu.KernelSeu.Accept | kernel_module/sppu_driver.c:598-603 | accepting makes the auto-validate field read true, and branches, context length and the bits above stay |
| EmuSeu.KernelSeu.Rollback | kernel_module/sppu_driver.c:610-617 | a rollback clears the published branches and the status, not the accumulators |
| EmuSeu.KernelSeu.Config | kernel_module/sppu_driver.c:423-428 | depth 5 to 8 is required; a refusal changes nothing |
| Backend.SetBitsExactly | sdk/src/sppu_backend.c:76-88 | the submitted branches are exactly the set bits below the branch count, strictly increasing |
| Backend.SetBitsFit | sdk/src/sppu_backend.c:76-88 | there are never more than the 16 hypotheses the session has room for |
| Backend.Session.Extract | sdk/src/sppu_backend.c:75-88 | each hypothesis carries its branch, the depth, the score and the context tokens |
| Backend.Session.SpeculativeBuild | sdk/src/sppu_backend.c:26-96 | the tokens are loaded in order up to a failure; then one request with the packed configuration, for all branches when no mask is given, then polls; when it succeeds, and the hypotheses it leaves; on the emulated driver the tree is built and the call fails |
| Backend.PollFromIff | sdk/src/sppu_backend.c:63-95 | polling succeeds iff an answer within 1000 polls reports entries and none before it fails |
| Backend.PollsAre | sdk/src/sppu_backend.c:63-95 | after k answers without entries polling stops at the next one that fails or has entries, or at the thousandth, and returns it |
| Backend.DriverTimesOut | kernel_module/sppu_driver.c:573-583 | behind the emulated driver, in every state, polling gets no tree, and unless a call fails asks all 1000 times |
| Backend.BuildCommitsNothing | sdk/src/sppu_backend.c:43-73 | nothing a build sends is an accept or a rollback |
| Backend.Session.SpeculativeAccept | sdk/src/sppu_backend.c:112-134 | verdicts are kept and one command is sent: accept iff one of the first 16 verdicts accepts, else rollback |
| Backend.Session.ValidateAndCommit | sdk/src/sppu_backend.c:171-201 | exactly one command is sent: accept iff the callback succeeds and accepts one of its hypotheses |
| Backend.Session.SpeculativeRun | sdk/src/sppu_backend.c:155-201 | a run sends a build's commands for all 16 branches unless the session has a number, and when the build succeeds exactly one commit after them; a failed build, as every one on the emulated driver, sends none |
| Vecmem.VectorMemory.Clock | fpga/rtl/sppu_vecmem.v:47-63 | a DMA write beats a tree write in the same cycle; reads return the word from before the edge |
| SeuWalker.Walker.Clock | fpga/rtl/seu_tree.v:147-424 | one clock of the walker is one step of its register function |
| SeuTree.FieldsRead | fpga/rtl/seu_tree.v:89-98 | a configuration packed from its fields is read back as 16 branches for 0, one context word for 0, and the length modulo 8 |
| SeuTree.CountIs | fpga/rtl/seu_tree.v:99-133 | two to four levels, and levels times branches modulo 32 entries |
| SeuTree.Plus12Is | fpga/rtl/seu_tree.v:376-377 | memory addresses are the base plus the index modulo 4096 |
| SeuTree.DiversifiedIs | fpga/rtl/seu_tree.v:281-284 | a score is the weight xored with the register plus the level and the variant's two low bits |
| SeuRuns.NextOnTime | fpga/rtl/seu_tree.v:202-415 | every cycle of a run keeps the counters in range and brings the end exactly one closer |
| SeuRuns.Latency | fpga/rtl/seu_tree.v:202-415 | every accepted start is busy for exactly the run length, then pulses done and the interrupt, publishes the count, and rests |
| SeuRuns.RunLengthIs | fpga/rtl/seu_tree.v:202-415 | the length is max(1, ctx mod 8) + 3 max(1, entries) + 2 cycles, plus 4 with the embedding search, from the fields of the new and the old configuration |
| SeuRuns.SearchesOnce | fpga/rtl/seu_tree.v:327-345 | a run that embeds pulses one search, in a known cycle, with the configured address and branch count; no other does |
| SeuRuns.StaysAtRest | fpga/rtl/seu_tree.v:203-233 | without a start nothing but done and the interrupt moves, and memory keeps every word |
| SeuRuns.ResetRests | fpga/rtl/seu_tree.v:190-199 | a reset in any cycle rests with nothing reported, and keeps the latched configuration and the buffers |
| SeuRuns.RunReports | fpga/rtl/sppu_top.v:397-415 | after a run the best index is 0, with score 1.0 and branch 0 valid when the search ran, and the initial score and no branch otherwise |
| SeuTree.AnswerTaken | fpga/rtl/seu_tree.v:341-347 | whatever index and score the responder answers are the best ones reported |
| SeuTree.AnswerApplied | fpga/rtl/seu_tree.v:352-355 | its branch becomes valid iff it is one of the configured ones |
| SeuRuns.RunTraced | fpga/rtl/seu_tree.v:273-325 | with the depth held, the cursor is at entry index = variant * levels + level and every finished entry holds its token and validity |
| SeuRuns.RunAligned | fpga/rtl/seu_tree.v:259-268 | the weight read issued for an entry arrives when the next one is loaded |
| SeuRuns.WeightsAfterRun | fpga/rtl/seu_tree.v:322-323 | after a run weight k is memory word node_base + k for every k below the last entry |
| SeuRuns.RunWritesBack | fpga/rtl/seu_tree.v:374-401 | through the whole run memory is what has been laid out so far, with the pending write |
| SeuRuns.MemoryAfterRun | fpga/rtl/sppu_vecmem.v:48-53 | token i is at tree_addr + i, every word past the one behind them is unchanged, and that one is 1 when the embedding search runs and 0 otherwise |
| Words.MaskBits | fpga/rtl/seu_tree.v:394-394 | bit k of a mask word is on exactly when branch k is in the mask, and no bit above 15 is |
| SeuRuns.TreeInMemory | fpga/rtl/seu_tree.v:292-294 | the tree in memory is the context word by level xored with the shifted offset |
| SeuRuns.WalksItsTreeIff | fpga/rtl/seu_tree.v:132-133 | a run walks and reports the entries it is configured for iff they are below 32 and the start before had as many branches, or eight more at four levels |
| SeuRuns.FirstRunWalksAnother | fpga/rtl/seu_tree.v:231-231 | the first run after reset walks 16 entries or one, and never the number it is configured for |
| SeuBuffers.RunLoadsContext | fpga/rtl/seu_tree.v:238-254 | context slot j holds memory word context_addr + j - 2, and the first two slots what the old read address selects |
| SeuBuffers.TreeFromMemory | fpga/rtl/seu_tree.v:292-294 | the tree in memory in terms of the memory before the run |
| SeuBuffers.RunScores | fpga/rtl/seu_tree.v:281-284 | score i combines the weight an earlier run left with the i-th register state and the entry's position |
| SeuBoard.Board.Clock | fpga/rtl/sppu_top.v:397-415 | walker, memory and search responder clocked together make one step of the system the theorems are about |
| SeuBoard.Board.Run | fpga/rtl/seu_tree.v:147-424 | clocking the objects over any input sequence ends in the system's state after it |
| Dma.Controller.Clock | fpga/rtl/sppu_dma.v:58-152 | one clock of the engine is one step of its register function |
| DmaRuns.NextKeepsTransfer | fpga/rtl/sppu_dma.v:84-149 | every cycle keeps bytes written plus remaining at the request and the writes equal to the beats in order |
| DmaRuns.TransferProgress | fpga/rtl/sppu_dma.v:84-149 | for any timing a word-multiple transfer ends after exactly its work plus the cycles spent waiting, with beat n written at dst + 4 n modulo 4096 |
| DmaRuns.WorkClosedForm | fpga/rtl/sppu_dma.v:95-143 | that work is 2 cycles a word, one a burst and two more |
| DmaRuns.TerminatesIff | fpga/rtl/sppu_dma.v:96-102 | done is ever pulsed iff the length is a multiple of four |
| DmaRuns.EndlessForever | fpga/rtl/sppu_dma.v:99-142 | otherwise the engine never leaves its burst states |
| DmaRuns.LastBytesAskFor256 | fpga/rtl/sppu_dma.v:99-105 | one to three bytes left make the next burst ask for 256 beats |
| DmaRuns.Takes256 | fpga/rtl/sppu_dma.v:111-128 | that burst takes 256 beats, through the 16-word buffer |
| DmaRuns.Writes16 | fpga/rtl/sppu_dma.v:130-143 | and writes 16 words, taking 64 bytes from the remaining count modulo 2^32, before the next is issued |
| DmaRuns.StaysAtRest | fpga/rtl/sppu_dma.v:80-93 | without a start the engine keeps everything but done, which goes low |
| DmaRuns.NextIsAccepted | fpga/rtl/sppu_dma.v:84-93 | after reset or a finished transfer, and any wait, the next request is accepted |
| DmaRuns.BurstsOnPlan | fpga/rtl/sppu_dma.v:99-109 | a finished transfer has issued exactly the planned bursts |
| DmaRuns.PlanShape | fpga/rtl/sppu_dma.v:99-105 | ceil(len / 64) bursts, 16 beats each but the last, all from the same address |
| DmaBus.AddressHeld | fpga/rtl/sppu_dma.v:102-115 | in every cycle of every transfer an address waits unchanged until accepted, as section A3.2.1 of Arm IHI 0022 asks, against a slave that obeys A3.3.1 |
| DmaBus.EachBurstAccepted | fpga/rtl/sppu_dma.v:99-115 | such a slave has accepted each planned burst exactly once, in order, when the transfer ends, and no address is left waiting |
| DmaBus.InPageIff | fpga/rtl/sppu_dma.v:99-105 | all bursts of a transfer stay within 4 KB, as section A3.4.1 asks, iff the first does |
| DmaBus.BeatsWrap | fpga/rtl/sppu_dma.v:102-103 | beat n comes from source word n mod 16 |
| DmaBus.ContiguousIff | fpga/rtl/sppu_dma.v:102-103 | every finished transfer from every host memory writes the words of a contiguous range iff the length is at most 64 bytes |
| DmaBus.CopyRepeats | fpga/rtl/sppu_dma.v:136-138 | over 64 bytes: a host memory and a whole run whose 17th word is the first one again |
| DmaBus.MemoryAfterTransfer | fpga/rtl/sppu_vecmem.v:48-53 | the word at dst + 4 n modulo 4096 is the last beat that goes there, every other word is unchanged, whatever the walker writes elsewhere |
| DmaBus.HostToMemory | fpga/rtl/sppu_dma.v:130-138 | for the last 1024 words n, the memory word at dst + 4 n modulo 4096 is host word n mod 16 |
| DmaBus.ClockTogether | fpga/rtl/sppu_dma.v:58-152 | engine and memory clocked over any input sequence end where the theorems say |
| DmaRuns.TopLevelLengthTerminates | fpga/rtl/sppu_top.v:158-158 | the length the top level asks for is always a multiple of four |
| Dotprod.Engine.Clock | fpga/rtl/sppu_dotprod.v:70-164 | one clock of the engine is one step of its register function |
| Dotprod.Sweep | fpga/rtl/sppu_dotprod.v:89-161 | the n-th compute cycle is at vector * dimension + index = n, and done comes after dim + vectors * dim + 1 cycles |
| Dotprod.TargetAddress | fpga/rtl/sppu_dotprod.v:105-117 | load cycle t reads target word t modulo 4096 |
| Dotprod.StaysIdle | fpga/rtl/sppu_dotprod.v:90-103 | without a start the engine keeps everything but done, which goes low |
| Dotprod.ClockAll | fpga/rtl/sppu_dotprod.v:70-164 | the engine clocked over any input sequence ends where the theorems say |
| Dotprod.VisitedOnce | fpga/rtl/sppu_dotprod.v:136-147 | a run computes vector v at dimension k in exactly one cycle, number dim + v * dim + k |
| Dotprod.NthAddress | fpga/rtl/sppu_dotprod.v:121-121 | the n-th compute cycle reads word n mod 4096 despite the truncated operands |
| Dotprod.AlwaysReportsZero | fpga/rtl/sppu_dotprod.v:149-161 | every run reports index 0 and score 0 |
| Csv.ParseLine | tools/sppu_search.c:102-119 | a line parses iff it has at least dim numbers, into its first dim |
| Csv.CountColumns | tools/sppu_search.c:121-135 | the column count is the number of leading numbers |
| Csv.FieldsAre | tools/sppu_search.c:97-135 | commas, semicolons, blanks and tabs separate numbers; a line feed, a carriage return, the end, or text that is no number stops them |
| Csv.DataIs | tools/sppu_search.c:146-151 | a line is data iff its first character past blanks and tabs is not a line feed, a carriage return or a hash |
| Csv.DataLinesAre | tools/sppu_search.c:146-155 | data line k is the one after all data lines before it; no other line leaves a trace |
| Csv.DimensionIs | tools/sppu_search.c:150-153 | the dimension is the column count of the first data line that has columns |
| Csv.LoadCsv | tools/sppu_search.c:137-193 | a file loads iff its dimension is in range and every data line is long enough, and row i is data line i's leading numbers |

## Left out

- IEEE 754 rounding, infinities and NaN: scores are exact numbers, so sums do not depend on order.
- HTTP, JSON, sockets, processes, printing and option parsing: input and output only.
- Binary database files, inline queries, and the daemon's own CSV loader.
- `fgets` splitting of lines longer than its buffer: lines are given whole.
- Wall-clock time-outs and sleeps: a wait ends when a call fails or the device is done.
- PCI probing, character-device set-up, locking and the driver's real-hardware branches.
- `emulator/` and the QEMU search: the same maximum scan again.
- The register file's split address and data phases: register values reach the machines whole.
- The top level's sticky interrupt bits and status registers.
- SeuWalker.Walker.Clock: leaves out registers nothing reads back (`weight_acc`, `branch_seed`, `active_branches`,
  `r_depth`, `r_prob_base`) and the probability readback port.
- Dotprod.Engine.Clock: leaves out the target buffer and the multiplier operands, which the stub never uses.
- EmuDevice.Device.RunSearch: the driver does not check the vector count against its 25 rows and would read past
  the array, which has no defined outcome; the model requires the bound.
- EmuDevice.Device.WriteCtrl: the same bound, when the start bit is written.
- EmuDevice.Device.Start: the same bound.
- Backend.Session.Extract: at most 8 context tokens, the size its header documents; more would be copied past the array.
- Backend.Session.SpeculativeBuild: at most 8 tokens, and fewer than 32 branches, beyond which C leaves the shift undefined.
- Backend.Session.SpeculativeRun: the same bounds.
- Simd.DotSse42: dimensions within one register width of 2^32 are excluded: `Simd.GuardWrapsIff` says when the
  loop guard wraps, and the loop then reads past its arrays.
- Simd.DotAvx2: the same bound.
- Simd.DotAvx512: the same bound; the horizontal add is one library intrinsic, taken as the sum of its lanes.
- DmaBus.MemoryAfterTransfer: for a word the tree walker does not write meanwhile.
- SeuRuns.MemoryAfterRun: for 1 to 16 entries, the size of the token buffer; beyond it the written words are unknown.
- SeuRuns.RunTraced: the depth input is held, since the walker compares against the live input.
- SearchCli.Search: the tool's per-batch progress output and the vector columns it prints are not part of this model.
