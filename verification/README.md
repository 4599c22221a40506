# CPSW switch driver: queues, lookup table and budgets

Dafny model and proofs for three parts of the TI CPSW Ethernet driver.

**Descriptor queues.** Driver and DMA engine share a linked chain of descriptors in each
channel. The driver appends at the tail while the engine walks the links; an append that the
engine missed is repaired in one of two places. `CpdmaProtocol` is the transition system of
driver and engine steps on sequences, `CpdmaRace` the finer one in which the engine steps in
between the two halves of a submit, `CpdmaMode` the mode word, `CpdmaMemory` the pool, the
channels and the controller as classes, `CpdmaChannel` the pointer code proved against both,
`PoolSplit` the split of the pool and `CpdmaCtlr` the controller with its conservation law.
`RateSearch` is the numeric search for rate factors, `RateLimit` the rates of the transmit
channels and the change of channel counts.

**Lookup table.** `WordField` and `AleCodec` are the bit fields and the entry layout,
`AleMaps` the table as two finite maps, `AleOps` and `AleVlan` the operations and what they
mean, `AleRun` runs of operations with the hardware learning and ageing in between,
`AleTable` the index loops and word edits of the driver as a class, and `AleDriver` its
callers.

**Budgets.** `Budget` is the split of the poll budget, `PoolWeights` what it means for the
descriptor pool, `Poll` the loops that consume the budget, `FifoShaper` the bandwidth
percentages in their register. `Kernel` holds error numbers and arithmetic shared by all.

Findings that the lemmas make precise:

- A rate change with an unset bus frequency fails, but the new rate stays
  (`RateLimit.RollbackExactly`, `RateLimit.SetTxMaxrate`).
- A rate of at least the advertised minimum need not have factors; the limit is then dropped
  silently. It has them if and only if it meets the condition of `RateSearch.ReachExactly`,
  which every such rate does up to a bus of 1864 MHz (`RateSearch.AdmittedInReach`) but not
  on every faster one (`RateSearch.AdmittedButLost`, `RateLimit.MaskExactly`).
- Creating receive channels clears the rate records of the transmit queues with the same
  numbers. The limits stay, and a later request for no limit returns at once
  (`RateLimit.ClearedExactly`, `RateLimit.ClearedLoses`, `RateLimit.SetTxMaxrate`).
- `cpsw_ale_add_vlan` changes the bitmap before it knows whether it finds room
  (`AleVlan.AddVlanUpdates`), and clearing the table does not clear the bitmap
  (`AleRun.ClearStep`).
- The rollback of a VLAN interface removes entries that were there before the call
  (`AleDriver.RollbackExactly`, and with a concrete table `AleDriver.RollbackRemoves`).
- An address learned by the switch between the search and the write of an add ends up in the
  table twice (`AleRun.LearnedBetween`, `AleRun.LearnedTwice`).
- Starting the controller fixes the transmit priorities when some channel has no limit, a
  rate change when some channel has one; with all or no channels limited the two disagree
  (`RateLimit.RestoreShaper`, `RateLimit.SetRate`, `RateLimit.RestartAgrees`).
- The weights that follow from rates can exceed 100 percent; the pool split then fails
  unnoticed (`PoolWeights.WeightsCanExceed`, and exactly when:
  `PoolWeights.WeightsFitExactly`, `PoolWeights.SplitController`).
- A comment at modules/cpsw/my_cpsw_priv.c:831-833 asks for shaping to stay enabled for the
  highest FIFOs; the code only warns when a higher one is switched off
  (`FifoShaper.TopShapedExactly`, `FifoShaper.TopShapedLost`).
- The range check for receive descriptors wraps for pools of fewer than eight
  (`CpdmaCtlr.RingRangeSound`).

What the model takes for granted:

- Each locked section is one step, but for the engine and the handler a submit is two
  (`CpdmaRace`); the other sections read at most one word that the engine may write meanwhile.
  Within `cpdma_chan_process` the handler submits at most one packet, on its own channel; at
  the controller the dequeue, the return of the descriptor and any submits are steps of their
  own, so other channels may go on in between.
- The engine fetches the link of its current descriptor, and later releases it: with a null
  link it sets EOQ and goes idle. What it writes last in a teardown is a parameter.
- The pool base is neither zero nor so high that the pool wraps; both directions of the link
  conversion are exact only then (`CpdmaMemory.LinkRoundTrip`).
- Bit masks of channels are sets of bit numbers, the bitmap is a set of VIDs. The factor
  register is kept as the pair that `RateSearch.PackLossless` shows it to be.
- The operations of the lookup table are one step each. The driver has no lock against the
  switch; what a row learned within an add does to the keys is `AleRun.LearnedBetween`.
- VLAN operations are called with 12-bit VIDs, section 9.6 of IEEE Std 802.1Q-2014; the
  bitmap has no room for others. Unicast adds with wider VIDs are covered by
  `AleRun.WideVid`.
- The search for factors is called with `2 * rate <= freq`, which the callers' checks ensure
  on a bus at least twice as fast as the link (`RateLimit.AdmittedIsSearchable`).
- The budget split is called with at least one channel in each direction and, when some but
  not all channels are limited, with a known link speed: otherwise the code divides by zero.

## Model

| member | source | states |
|---|---|---|
| `CpdmaProtocol.StepKeepsInv` | modules/cpsw/my_davinci_cpdma.c:979-1013 | every step of the driver and of the engine keeps the protocol invariant: the engine released exactly a prefix of the chain, EOQ stands on the last released descriptor only and only while the engine is idle, and nothing happens to the engine outside ACTIVE |
| `CpdmaProtocol.RunKeepsInv` | modules/cpsw/my_davinci_cpdma.c:979-1274 | the invariant holds after every interleaving of submit, process, handler, engine fetch and complete, switch-on and stop steps |
| `CpdmaProtocol.HdpOnlyWhenIdle` | modules/cpsw/my_davinci_cpdma.c:990-1011 | HDP is written only while the engine is idle; the `misqueued` path names the descriptor behind one of the chain |
| `CpdmaProtocol.RunObserved` | modules/cpsw/my_davinci_cpdma.c:979-1260 | the events of every run are legal for a monitor that only lets a stopped engine be started, and only at the descriptor after the last one released |
| `CpdmaProtocol.StartedOnce` | modules/cpsw/my_davinci_cpdma.c:990-1011 | start numbers grow strictly: no descriptor is given to the engine twice, whichever path writes HDP |
| `CpdmaProtocol.EoqRepairedOnce` | modules/cpsw/my_davinci_cpdma.c:1003-1011 | each end of queue is repaired exactly once, by submit or by process, or its mark still stands in the chain, or nothing was submitted behind it |
| `CpdmaProtocol.NoLostWakeup` | modules/cpsw/my_davinci_cpdma.c:1252-1260 | an idle engine with owned work left has its EOQ mark on the descriptor just before that work; a busy engine works on the first owned one; without owned work, so with an empty chain, the engine is idle |
| `CpdmaProtocol.DrainRestarts` | modules/cpsw/my_davinci_cpdma.c:1276-1290 | draining the channel leaves the engine busy at the head or the chain empty |
| `CpdmaProtocol.RunFifo` | modules/cpsw/my_davinci_cpdma.c:1192-1274 | over every run, tokens handed over followed by tokens on their way equal those there before followed by those submitted, in order |
| `CpdmaProtocol.StopHandsOverEverything` | modules/cpsw/my_davinci_cpdma.c:1311-1371 | after a completed stop the chain is empty and everything ever submitted was handed over in order |
| `CpdmaProtocol.EveryScheduleDelivers` | modules/cpsw/my_davinci_cpdma.c:1218-1290 | however engine and consumer are scheduled they take exactly a computable number of steps, can always take one before that, and then everything was handed over |
| `CpdmaRace.LinkThenCheck` | modules/cpsw/my_davinci_cpdma.c:1000-1012 | link and look with nothing in between are the submit of the protocol |
| `CpdmaRace.FineRunKeepsInv` | modules/cpsw/my_davinci_cpdma.c:1000-1012 | the protocol invariant holds at every point of every run in which the engine and handler calls step in between the link and the look of a submit |
| `CpdmaRace.Linearized` | modules/cpsw/my_davinci_cpdma.c:1000-1012 | every such run has the events, the order of submits and, up to a submit under way, the state of a run of the protocol |
| `CpdmaRace.RaceIsRun` | modules/cpsw/my_davinci_cpdma.c:1000-1012 | with no submit under way at its end, such a run is a run of the protocol in events, state and submitted tokens |
| `CpdmaRace.RaceRepairedOnce` | modules/cpsw/my_davinci_cpdma.c:1000-1012 | each end of queue is repaired exactly once, at every point of every such run, within submits too |
| `CpdmaRace.RaceFifo` | modules/cpsw/my_davinci_cpdma.c:1000-1012 | tokens handed over followed by those on their way are those submitted, in order, at every such point |
| `CpdmaRace.RaceNoLostWakeup` | modules/cpsw/my_davinci_cpdma.c:1000-1012 | at every such point an idle engine with owned work left has its mark just before that work |
| `CpdmaMode.StalledWord` | modules/cpsw/my_davinci_cpdma.c:1007 | the mask test for a missed append means EOQ set and OWNER clear |
| `CpdmaMode.ClearEoqWord` | modules/cpsw/my_davinci_cpdma.c:1009 | clearing EOQ changes no other field of the mode word |
| `CpdmaMode.SubmittedFlags` | modules/cpsw/my_davinci_cpdma.c:1041-1061 | a submitted word carries the OWNER bit and none of the bits the engine sets |
| `CpdmaMode.SubmittedLen` | modules/cpsw/my_davinci_cpdma.c:1041-1061 | the length can be read back from the mode word a submit writes |
| `CpdmaMode.SubmittedPort` | modules/cpsw/my_davinci_cpdma.c:180-186 | a directed transmit names exactly its port, any other submit none |
| `CpdmaMode.SubmittedBits` | modules/cpsw/my_davinci_cpdma.c:1041-1061 | a submitted word marks the start and the end of a packet, and enables the port exactly on a directed transmit |
| `CpdmaMode.SubmittedIsOwned` | modules/cpsw/my_davinci_cpdma.c:1041-1061 | a submitted word is owned by the engine whatever its length |
| `CpdmaMode.StatusWord` | modules/cpsw/my_davinci_cpdma.c:1246-1250 | the returned status keeps the EOQ and teardown marks and is never negative |
| `CpdmaMemory.LinkRoundTrip` | modules/cpsw/my_davinci_cpdma.c:279-291 | the engine address of a descriptor has its offset in the pool; a 32-bit link leads back to the descriptor if and only if that address is not zero and does not wrap; the null link leads to null |
| `CpdmaMemory.Pool.constructor` | modules/cpsw/my_davinci_cpdma.c:212-277 | a pool starts with all its descriptors free |
| `CpdmaMemory.Pool.Alloc` | modules/cpsw/my_davinci_cpdma.c:293-298 | a free descriptor is taken, or 0 if and only if there is none |
| `CpdmaMemory.Chan.constructor` | modules/cpsw/my_davinci_cpdma.c:890-921 | a new channel is sound: empty chain, idle engine, no rate and no weight |
| `CpdmaMemory.Ctlr.constructor` | modules/cpsw/my_davinci_cpdma.c:510-532 | no channels, and the pool split between the directions without a rest |
| `CpdmaChannel.OthersKept` | modules/cpsw/my_davinci_cpdma.c:979-1075 | what happens to other descriptors of the pool leaves the representation of a channel intact |
| `CpdmaChannel.StartAt` | modules/cpsw/my_davinci_cpdma.c:994-995 | writing HDP with a descriptor of the chain makes the engine run from exactly that item in the ACTIVE state; memory and registers still represent the protocol state, and no descriptor changes hands |
| `CpdmaChannel.Chain` | modules/cpsw/my_davinci_cpdma.c:988-1003 | linking at the head or the tail keeps the acyclic chain in memory and appends one item |
| `CpdmaChannel.RepairMissed` | modules/cpsw/my_davinci_cpdma.c:1004-1012 | the end of submit takes the mark away and restarts the engine exactly in the stalled case |
| `CpdmaChannel.LinkDesc` | modules/cpsw/my_davinci_cpdma.c:979-1013 | the pointer code of `__cpdma_chan_submit` performs exactly the protocol's submit step |
| `CpdmaChannel.NewDesc` | modules/cpsw/my_davinci_cpdma.c:1030-1068 | allocation and mapping in this order; the new descriptor has the packet's token, the larger of its length and the minimum, and below 0x800 bytes a mode word with that length and, on a directed transmit only, its port; a mapping failure leaves pool and memory as they were |
| `CpdmaChannel.PacketCarried` | modules/cpsw/my_davinci_cpdma.c:1036-1061 | the computed length is at least the packet's and the minimum and equal to one of them; below 0x800 the mode word has that length, the directed port 1 or 2 of a transmit channel or none, and no bit of the engine's |
| `CpdmaChannel.SubmitSi` | modules/cpsw/my_davinci_cpdma.c:1015-1076 | result code by share, pool and mapping in this order; success is one protocol submit of a descriptor that carries the packet: token, padded length, length field and target port; failure changes nothing |
| `CpdmaChannel.Submit` | modules/cpsw/my_davinci_cpdma.c:1078-1176 | the state tests of the four submit entry points in front of `cpdma_chan_submit_si`; what is queued carries the packet's token, padded length and target port |
| `CpdmaChannel.Dequeue` | modules/cpsw/my_davinci_cpdma.c:1227-1261 | the locked part of `__cpdma_chan_process` is the protocol's process step, with -ENOENT on an empty and -EBUSY on an owned head |
| `CpdmaChannel.FreeDesc` | modules/cpsw/my_davinci_cpdma.c:1192-1216 | the descriptor returns to the pool and exactly its token goes to the handler |
| `CpdmaChannel.RunHandler` | modules/cpsw/my_davinci_cpdma.c:1215 | a handler that resubmits keeps the channel sound |
| `CpdmaChannel.ProcessOne` | modules/cpsw/my_davinci_cpdma.c:1218-1274 | one call takes, frees and hands over one descriptor, handler included, or nothing |
| `CpdmaChannel.Process` | modules/cpsw/my_davinci_cpdma.c:1276-1290 | up to `quota` tokens are handed over, oldest first; it stops early only at an empty or owned head; -EINVAL outside ACTIVE |
| `CpdmaChannel.SwitchChanOn` | modules/cpsw/my_davinci_cpdma.c:375-400 | error codes of switching on, and the start of the engine at a chain queued while idle |
| `CpdmaChannel.Teardown` | modules/cpsw/my_davinci_cpdma.c:1319-1338 | teardown keeps chain and tokens; the engine may write one last mode word |
| `CpdmaChannel.DrainDone` | modules/cpsw/my_davinci_cpdma.c:1341-1346 | the drain after teardown hands over completed packets in order, and ends before the first owned descriptor, at the end of the chain, or behind the first teardown mark |
| `CpdmaChannel.CleanUp` | modules/cpsw/my_davinci_cpdma.c:1349-1366 | the rest of the chain is freed and handed over, until it is empty |
| `CpdmaChannel.Stop` | modules/cpsw/my_davinci_cpdma.c:1311-1371 | a stopped channel is IDLE and empty, with everything submitted handed over |
| `CpdmaChannel.EngineFetch` | modules/cpsw/my_davinci_cpdma.c:988-1003 | the engine reads the next link from the descriptor memory |
| `CpdmaChannel.EngineComplete` | modules/cpsw/my_davinci_cpdma.c:1004-1012 | the engine releases its descriptor and follows the link it read, or goes idle |
| `CpdmaChannel.EngineStep` | modules/cpsw/my_davinci_cpdma.c:988-1012 | one engine step, also while a submit is under way, is a fetch or a release of the protocol and moves no descriptor |
| `CpdmaChannel.LinkRaced` | modules/cpsw/my_davinci_cpdma.c:979-1013 | the pointer code of a submit, with any number of engine steps between its link and its look, performs a run of the finer protocol with exactly this one submit |
| `PoolSplit.PreSharesFit` | modules/cpsw/my_davinci_cpdma.c:678-718 | for weights of at most 100 in total the shares before the remainder are not negative and do not exceed the descriptors |
| `PoolSplit.SplitIsExact` | modules/cpsw/my_davinci_cpdma.c:678-718 | after the remainder the shares sum to exactly the descriptors unless all were zero, and none shrinks |
| `PoolSplit.SplitDeals` | modules/cpsw/my_davinci_cpdma.c:704-718 | each channel but one has its part as an inequality: `100 * share <= w * descs < 100 * (share + 1)` for weight w, the same with the number of channels without a weight and what the weights leave for weight 0, nothing without a channel; the one left over is the first with the largest part and brings the sum to the descriptors |
| `PoolSplit.TotalIs` | modules/cpsw/my_davinci_cpdma.c:733-748 | the total weight is the sum over the channels that exist |
| `PoolSplit.FreeIs` | modules/cpsw/my_davinci_cpdma.c:733-748 | the channels without a weight are counted one by one |
| `PoolSplit.SetDescs` | modules/cpsw/my_davinci_cpdma.c:678-718 | the loop over the channels of one direction writes exactly those shares; with the share of `cpdma_chan_split_pool` for channels without a weight the descriptors are dealt out as in `PoolSplit.SplitDeals` |
| `PoolSplit.SplitPool` | modules/cpsw/my_davinci_cpdma.c:724-771 | -EINVAL with no share changed exactly if there are channels and the weights of a direction exceed 100; otherwise the descriptors of both directions are dealt out: weighted channels have their percentage, the others equal parts of the rest, all rounded down, and the first with the largest part gets the remainder |
| `CpdmaCtlr.PartitionStep` | modules/cpsw/my_davinci_cpdma.c:979-1371 | moving descriptors between the pool and one channel keeps free, held and lost descriptors a partition of the pool |
| `CpdmaCtlr.Conservation` | modules/cpsw/my_davinci_cpdma.c:594-641 | free plus held plus lost descriptors equal the size of the pool; held are those in the chains and those between dequeue and return |
| `CpdmaCtlr.NewInOrder` | modules/cpsw/my_davinci_cpdma.c:510-532 | a new controller is in order exactly if its pool has at least two descriptors |
| `CpdmaCtlr.SubmitOn` | modules/cpsw/my_davinci_cpdma.c:1025-1034 | a submit on one channel is the protocol's submit step with a descriptor that carries the packet, keeps books and order of the controller whatever other channels have in flight, and finds a free descriptor below its share when all shares are kept |
| `CpdmaCtlr.DequeueOn` | modules/cpsw/my_davinci_cpdma.c:1227-1261 | the locked part of processing on one channel keeps books and order while the descriptor stays in flight |
| `CpdmaCtlr.FreeOn` | modules/cpsw/my_davinci_cpdma.c:1192-1216 | the descriptor in flight returns to the pool with books and order kept; in between any channel may do any step |
| `CpdmaCtlr.ProcessOn` | modules/cpsw/my_davinci_cpdma.c:1276-1290 | processing one channel keeps books and order of the controller; it hands over as many tokens as it says, and stops early only at a blocked head |
| `CpdmaCtlr.EngineOn` | modules/cpsw/my_davinci_cpdma.c:990-1011 | an engine step on one channel is the protocol's fetch or release, and keeps books and order of the controller |
| `CpdmaCtlr.SomeFree` | modules/cpsw/my_davinci_cpdma.c:1025-1034 | while every channel is within its share, descriptors in flight included, and nothing is lost, a channel below its share leaves a descriptor free |
| `CpdmaCtlr.StopCtlr` | modules/cpsw/my_davinci_cpdma.c:594-624 | an ACTIVE controller ends IDLE with no descriptor held by any channel; any other is refused unchanged; the order is kept |
| `CpdmaCtlr.StartCtlr` | modules/cpsw/my_davinci_cpdma.c:534-592 | every channel is switched on, or -EBUSY with nothing changed; the order is kept |
| `CpdmaCtlr.SwitchOnOn` | modules/cpsw/my_davinci_cpdma.c:375-400 | the two refusals of switching on, or the protocol's step, with books and order of the controller kept |
| `CpdmaCtlr.DividedDeals` | modules/cpsw/my_davinci_cpdma.c:678-718 | whenever the shares are those of the present weights, as after each successful change, the descriptors are dealt out by the weights in both directions |
| `CpdmaCtlr.SetWeight` | modules/cpsw/my_davinci_cpdma.c:783-803 | the weight is kept even if the split fails; an unchanged one gives 0 and changes nothing; otherwise the shares stay if the split fails, and are those of the new weights if not |
| `CpdmaCtlr.SetNumRx` | modules/cpsw/my_davinci_cpdma.c:1424-1443 | receive plus transmit descriptors stay the pool; numbers and shares are rolled back when the split fails, and otherwise the shares are those of the new numbers |
| `CpdmaCtlr.RingRangeSound` | modules/cpsw/my_cpsw_ethtool.c:683-686 | from eight descriptors on the range check admits exactly 8 up to the size less 8; below that its bound wraps and it admits numbers the pool does not have |
| `CpdmaCtlr.SetRingparam` | modules/cpsw/my_cpsw_ethtool.c:673-717 | result code, the new numbers on success and the old ones on failure |
| `CpdmaCtlr.CreateChan` | modules/cpsw/my_davinci_cpdma.c:875-932 | result codes in their order; on success exactly one fresh, idle, unlimited channel more at its number, and the shares split anew unless the weights forbid it |
| `CpdmaCtlr.DestroyChan` | modules/cpsw/my_davinci_cpdma.c:946-965 | the channel goes; its descriptors are lost exactly if it was IDLE with a chain |
| `CpdmaCtlr.DestroyCtlr` | modules/cpsw/my_davinci_cpdma.c:626-641 | the pool ends full if and only if nothing was lost before and the controller was ACTIVE or held nothing |
| `RateSearch.IdleBounds` | modules/cpsw/my_davinci_cpdma.c:470 | the idle count lies between one and the send count |
| `RateSearch.JumpAdvances` | modules/cpsw/my_davinci_cpdma.c:495-497 | the jump to the next idle count goes forward |
| `RateSearch.RoundNearest` | modules/cpsw/my_davinci_cpdma.c:469-475 | the idle count of a round is the integer nearest to `rate * send / (freq - rate)`, its rate the one nearest to `freq * idle / (idle + send)` |
| `RateSearch.JumpLands` | modules/cpsw/my_davinci_cpdma.c:493-497 | a jump lands on the integer nearest to `(freq - rate) * k / rate` for k one above the idle count of the round, and the idle count there is k |
| `RateSearch.PathRule` | modules/cpsw/my_davinci_cpdma.c:476-498 | a round goes on to the next send count or jumps exactly as its overshoot compares with the last remembered one, stated by the candidates of the rounds before |
| `RateSearch.EndRule` | modules/cpsw/my_davinci_cpdma.c:468-488 | the search ends only at the rate itself or where the next send count is out of range |
| `RateSearch.NoIdleSkipped` | modules/cpsw/my_davinci_cpdma.c:493-497 | from round to round the idle count stays or grows by one |
| `RateSearch.LandsClose` | modules/cpsw/my_davinci_cpdma.c:493-497 | where a jump lands the rate is off by at most half of `rate / (idle + send)` and half for the rounding, and so is the result if the landing reaches the rate |
| `RateSearch.SearchLoop` | modules/cpsw/my_davinci_cpdma.c:466-499 | the loop ends after at most 16384 rounds; its rounds are those of `RateSearch.PathRule` and `RateSearch.EndRule`, and its result is the first with the least overshoot of all visited candidates, with lossless factors, or no candidate reached the rate |
| `RateSearch.Search` | modules/cpsw/my_davinci_cpdma.c:466-502 | a rate that meets the condition gets factors for that rate or one above that fit the register; any other rate leaves the channel without a limit |
| `RateSearch.ReachExactly` | modules/cpsw/my_davinci_cpdma.c:466-502 | some send count in the range of the register reaches a rate if and only if its first send count fits and is close enough, or the rate is above a third of the frequency, or the first send count with two idle clocks fits too |
| `RateSearch.FindsExactly` | modules/cpsw/my_davinci_cpdma.c:466-502 | the search finds a rate if and only if it meets that condition, which a caller can compute beforehand |
| `RateSearch.LoopEntered` | modules/cpsw/my_davinci_cpdma.c:809-817 | the loop body is entered exactly for rates of at least the minimum, except where the bound wraps |
| `RateSearch.AdmittedInReach` | modules/cpsw/my_davinci_cpdma.c:466-502 | up to a bus of 1864 MHz every rate of at least the minimum is found |
| `RateSearch.AdmittedButLost` | modules/cpsw/my_davinci_cpdma.c:466-502 | on a faster bus it may not be: 7 Mbit/s at 2396 MHz |
| `RateSearch.PackLossless` | modules/cpsw/my_davinci_cpdma.c:502 | both factors can be read back from the register word |
| `RateLimit.FitRate` | modules/cpsw/my_davinci_cpdma.c:406-443 | the rate is kept if and only if the limited channels stay upward closed; the mask names exactly these; otherwise the old rate is back |
| `RateLimit.SetFactors` | modules/cpsw/my_davinci_cpdma.c:445-508 | factors of the found rate, zero factors without a limit, or -EINVAL with nothing programmed |
| `RateLimit.SetRate` | modules/cpsw/my_davinci_cpdma.c:824-861 | each outcome with the rates, factors and controls it leaves; the field for limited channels has exactly their bits |
| `RateLimit.RestoreShaper` | modules/cpsw/my_davinci_cpdma.c:576-587 | a start adds the limited channels to the mask, writes their factors, and fixes the priorities if and only if a transmit channel has no limit |
| `RateLimit.RestoredIs` | modules/cpsw/my_davinci_cpdma.c:365-366 | exactly the limited channels have their own factors in the registers afterwards, the other registers stay |
| `RateLimit.RestartAgrees` | modules/cpsw/my_davinci_cpdma.c:582-587 | the priorities after a start are those after a rate change if and only if there are limited and unlimited channels, or none |
| `RateLimit.RollbackExactly` | modules/cpsw/my_davinci_cpdma.c:840-860 | a failing call gives the old rate back unless the bus frequency is not set |
| `RateLimit.MaskExactly` | modules/cpsw/my_davinci_cpdma.c:848-853 | the programmed mask names exactly the limited channels if and only if the rate is zero or in reach of the search |
| `RateLimit.FieldIs` | modules/cpsw/my_davinci_cpdma.c:147 | the 16-bit field has exactly the bits of the limited channels among the first sixteen |
| `RateLimit.MaskHoldsAll` | modules/cpsw/my_davinci_cpdma.c:848-853 | so it loses none of the eight channels of the driver |
| `RateLimit.ClosedExactly` | modules/cpsw/my_davinci_cpdma.c:824-861 | upward closure is kept unless a new limit is admitted, is out of reach of the search, and a limited channel stands below |
| `RateLimit.RunKeepsClosed` | modules/cpsw/my_cpsw_ethtool.c:553-578 | over every run of rate changes with any outcome, refused, failed or rounded, and of channel count changes the limited channels stay upward closed, as long as the limits are in reach of the search |
| `RateLimit.ResizedIsRun` | modules/cpsw/my_cpsw_ethtool.c:553-578 | a new channel count is a run of creations below all channels or of removals of the lowest |
| `RateLimit.UpdateChannelsRes` | modules/cpsw/my_cpsw_ethtool.c:534-582 | the loops reach the requested count or stop at -EINVAL or -ENOMEM; channels that stay keep their rate, new ones have none; every attempt clears the record of the queue of that number |
| `RateLimit.ClearedExactly` | modules/cpsw/my_cpsw_ethtool.c:553-558 | a new number of transmit channels keeps the records of the queues right; one of receive channels does if and only if no transmit channel of a created number is limited |
| `RateLimit.ClearedLoses` | modules/cpsw/my_cpsw_ethtool.c:553-558 | two limited transmit queues and a second receive channel: a record is lost while its limit stays |
| `RateLimit.AdmittedIsSearchable` | modules/cpsw/my_cpsw_priv.c:741-756 | on a bus at least twice as fast as the link the rate checks meet the bounds of the search |
| `RateLimit.SetTxMaxrate` | modules/cpsw/my_cpsw_priv.c:732-779 | the result code for every input; the record follows exactly the successful calls; with an unset bus frequency a new limit is refused but stays; otherwise a failing call changes no rate; with a bus of at most 1864 MHz the limited channels stay upward closed and the records right |
| `RateLimit.AdmittedExactly` | modules/cpsw/my_cpsw_priv.c:746-756 | a limit is admitted if and only if it is at most the link speed and zero or at least one part in 16385 of the bus frequency, except where that bound wraps |
| `WordField.InsertExtracts` | modules/cpsw/my_cpsw_ale.c:107-128 | a value inserted into any field of a word is extracted again, cut to the field |
| `WordField.InsertKeeps` | modules/cpsw/my_cpsw_ale.c:117-128 | inserting leaves every field above or below unchanged |
| `AleCodec.SetThenGet` | modules/cpsw/my_cpsw_ale.c:107-128 | for every entry and field, set then get gives the value modulo 2 to the width |
| `AleCodec.SetKeepsOthers` | modules/cpsw/my_cpsw_ale.c:117-128 | for every entry, set leaves every disjoint field unchanged |
| `AleCodec.UpperLayout` | modules/cpsw/my_cpsw_ale.c:204-213 | the fields of type, VID, state, secure, super and ports as bits of the words |
| `AleCodec.AddrLayout` | modules/cpsw/my_cpsw_ale.c:284-298 | the address bytes as bits of the words |
| `AleCodec.VlanLayout` | modules/cpsw/my_cpsw_ale.c:181-186 | the four VLAN masks as bits of the last word |
| `AleCodec.SinglePorts` | modules/cpsw/my_cpsw_ale.c:402-419 | port n is bit n of a mask |
| `AleCodec.VlanBits` | modules/cpsw/my_cpsw_ale.c:181-186 | the kind of a row, its VID and the four masks of a VLAN row, each read from its bits of the words |
| `AleCodec.AddrBits` | modules/cpsw/my_cpsw_ale.c:204-213 | every field of an address row, and its six bytes, read from their bits of the words |
| `AleCodec.GroupBit` | modules/cpsw/my_cpsw_ale.c:213 | bit 40 is the group bit of the first address byte |
| `AleCodec.AddrRoundTrip` | modules/cpsw/my_cpsw_ale.c:284-298 | an address written byte by byte is read back, and the upper fields stay |
| `AleCodec.UcastRow` | modules/cpsw/my_cpsw_ale.c:467-481 | the entry built by `add_ucast` decodes to exactly the row asked for |
| `AleCodec.McastRow` | modules/cpsw/my_cpsw_ale.c:508-528 | the entry edited by `add_mcast` decodes to the old row with the mask joined |
| `AleCodec.VlanRow` | modules/cpsw/my_cpsw_ale.c:605-628 | the entry edited by `add_vlan` decodes to exactly the four masks and the 12-bit VID |
| `AleCodec.PortMaskRow` | modules/cpsw/my_cpsw_ale.c:402-419 | rewriting the port mask changes the ports of the row only |
| `AleMaps.WriteMaps` | modules/cpsw/my_cpsw_ale.c:315-329 | one write of a row drops the entry that was there from the two maps and puts the new one |
| `AleMaps.WriteUnique` | modules/cpsw/my_cpsw_ale.c:315-329 | a write keeps the keys unique if and only if no other row has the new key |
| `AleOps.SlotIsSafe` | modules/cpsw/my_cpsw_ale.c:481-488 | allocation fails exactly without a row of the same key, a free one or a learned one, and prefers them in this order |
| `AleOps.EvictionSafe` | modules/cpsw/my_cpsw_ale.c:382-400 | an add overwrites nothing but a row of its own key, a free row or a row with a unicast address that is neither persistent nor an OUI row; -ENOMEM leaves the table unchanged |
| `AleOps.InstallRefines` | modules/cpsw/my_cpsw_ale.c:467-637 | a successful add is one map update; at most one learned row goes besides, and only from a full table |
| `AleOps.AddUcastUpdates` | modules/cpsw/my_cpsw_ale.c:467-491 | `add_ucast` is a map update; the new row has the address, the 12-bit VID or none, the two low bits of the port number as its lower ports, the secure and blocked bits as asked, and is persistent |
| `AleOps.DelUcastRemoves` | modules/cpsw/my_cpsw_ale.c:493-506 | `del_ucast` is a map removal, failing exactly if the key is absent |
| `AleOps.AddMcastJoins` | modules/cpsw/my_cpsw_ale.c:508-539 | `add_mcast` is port set union, with state and supervisory flag replaced |
| `AleOps.DelMcastLeaves` | modules/cpsw/my_cpsw_ale.c:541-568 | `del_mcast` is port set difference; an empty set or a mask of zero removes the entry |
| `AleVlan.AddVlanUpdates` | modules/cpsw/my_cpsw_ale.c:599-637 | `add_vlan` is a map update; a failing one breaks the bitmap exactly if it was to set the bit |
| `AleVlan.VlanDelModifyShrinks` | modules/cpsw/my_cpsw_ale.c:639-694 | ports leave the members, each mask loses what is no member afterwards, port by port; the VLAN goes with its last member |
| `AleVlan.DelVlanRemoves` | modules/cpsw/my_cpsw_ale.c:696-728 | forced or last-port removal, otherwise a shrink, port by port, that never takes the host port |
| `AleVlan.VlanAddModifySets` | modules/cpsw/my_cpsw_ale.c:730-767 | port by port: those of the mask become members and stand in the other masks as asked, the others stay |
| `AleVlan.ProperRows` | modules/cpsw/my_cpsw_ale.c:639-693 | masks within the members stay within them |
| `AleVlan.AddThenRemove` | modules/cpsw/my_cpsw_ale.c:679-767 | adding new ports and removing them restores the VLAN map if and only if there was no row, or one with members and masks within them |
| `AleRun.WideVid` | modules/cpsw/my_cpsw_ale.c:331-350 | for a VID of more than 12 bits nothing is ever found, and the keys stay unique exactly if the lower 12 bits were not taken |
| `AleRun.FlushMaps` | modules/cpsw/my_cpsw_ale.c:421-454 | a flush takes the ports of the mask from exactly the rows in its scope with a group address that are neither supervisory nor the broadcast row, a row goes with its last port, and nothing else changes |
| `AleRun.HardwareStep` | modules/cpsw/my_cpsw_ale.c:382-400 | learning and ageing are invisible in what the software installed |
| `AleRun.LearnedBetween` | modules/cpsw/my_cpsw_ale.c:481-489 | with the switch writing between search and write of an add, the keys stay unique if and only if it wrote to the same row or did not learn the key that is added |
| `AleRun.LearnedTwice` | modules/cpsw/my_cpsw_ale.c:481-489 | an empty table in which an add and the switch enter the same address twice |
| `AleRun.ClearStep` | modules/cpsw/my_cpsw_ale.c:877-884 | clearing the table leaves the bitmap stale unless it was empty |
| `AleRun.StepRefines` | modules/cpsw/my_cpsw_ale.c:421-767 | every operation means one update of the two maps, or nothing when it fails |
| `AleRun.StepKeeps` | modules/cpsw/my_cpsw_ale.c:421-767 | every step keeps the keys unique, and keeps the bitmap in agreement if and only if an add that is to set its bit has a row to go to, and a cleared table had an empty bitmap |
| `AleRun.RunRefines` | modules/cpsw/my_cpsw_ale.c:331-767 | over every run, hardware steps included, the table refines the pair of maps |
| `AleRun.CacheAgrees` | modules/cpsw/my_cpsw_ale.c:587-725 | over every run without a breaking step the bitmap holds exactly the VLANs with an untagged host port |
| `AleTable.Ale.MatchAddr` | modules/cpsw/my_cpsw_ale.c:331-350 | the loop returns the first entry with the address and VID, or -ENOENT if there is none |
| `AleTable.Ale.MatchVlan` | modules/cpsw/my_cpsw_ale.c:352-366 | the loop returns the first VLAN entry with the VID, or -ENOENT if there is none |
| `AleTable.Ale.MatchFree` | modules/cpsw/my_cpsw_ale.c:368-380 | the loop returns the first free entry, or -ENOENT if there is none |
| `AleTable.Ale.FindAgeable` | modules/cpsw/my_cpsw_ale.c:382-400 | the loop returns the first learned unicast entry, or -ENOENT if there is none |
| `AleTable.Ale.AddUcast` | modules/cpsw/my_cpsw_ale.c:467-491 | the word-level code performs the operation on the rows |
| `AleTable.Ale.DelUcast` | modules/cpsw/my_cpsw_ale.c:493-506 | the word-level code performs the operation on the rows |
| `AleTable.Ale.AddMcast` | modules/cpsw/my_cpsw_ale.c:508-539 | the word-level code performs the operation on the rows |
| `AleTable.Ale.DelMcast` | modules/cpsw/my_cpsw_ale.c:541-568 | the word-level code performs the operation on the rows |
| `AleTable.Ale.FlushMcast` | modules/cpsw/my_cpsw_ale.c:402-419 | ports are taken away only if the masks intersect; the entry goes with its last port |
| `AleTable.Ale.FlushMulticast` | modules/cpsw/my_cpsw_ale.c:421-454 | the loop applies the flush to every row |
| `AleTable.Ale.SetVlanUntag` | modules/cpsw/my_cpsw_ale.c:587-597 | the field and the cached bit change together |
| `AleTable.Ale.AddVlan` | modules/cpsw/my_cpsw_ale.c:599-637 | the word-level code performs the operation on rows and bitmap |
| `AleTable.Ale.VlanDelModifyInt` | modules/cpsw/my_cpsw_ale.c:639-677 | the word-level code shrinks the row and updates the bitmap |
| `AleTable.Ale.VlanDelModify` | modules/cpsw/my_cpsw_ale.c:679-694 | the word-level code performs the operation on rows and bitmap |
| `AleTable.Ale.DelVlan` | modules/cpsw/my_cpsw_ale.c:696-728 | the word-level code performs the operation on rows and bitmap |
| `AleTable.Ale.VlanAddModify` | modules/cpsw/my_cpsw_ale.c:730-767 | the word-level code performs the operation on rows and bitmap |
| `AleDriver.PortVlanAdd` | modules/cpsw/my_cpsw_switchdev.c:165-210 | the calls made for a port or the host as one function of the table, which `AleDriver.PortAddMeans` describes, and the port VLAN |
| `AleDriver.PortVlanDel` | modules/cpsw/my_cpsw_switchdev.c:212-248 | the same for the removal, described by `AleDriver.PortDelMeans`, and the port VLAN |
| `AleDriver.PortAddMeans` | modules/cpsw/my_cpsw_switchdev.c:165-210 | the one port, for a bridge the host, becomes a member and stands in the untagged, registered and unregistered masks as asked; no other port or VLAN changes; for a bridge the host's address is entered unless no row is left for it; -ENOMEM changes no row |
| `AleDriver.PortDelMeans` | modules/cpsw/my_cpsw_switchdev.c:212-248 | exactly that port leaves the VLAN and its broadcast entry, each going with its last port; for a bridge the host's address in the VLAN goes; -ENOENT exactly without the VLAN |
| `AleDriver.PortRoundTrip` | modules/cpsw/my_cpsw_switchdev.c:165-248 | adding a VLAN to a port outside it and removing it again restores the VLAN map if and only if there was no row, or one with members and masks within them |
| `AleDriver.MasksStayProper` | modules/cpsw/my_cpsw_switchdev.c:177-225 | over every run of port VLAN calls the three masks of every VLAN stay within its members |
| `AleDriver.AddVlanAleEntry` | modules/cpsw/eth.c:398-435 | the three steps with their rollback |
| `AleDriver.EntryAddMeans` | modules/cpsw/eth.c:398-435 | success installs all three entries; each failing step leaves exactly the stated maps, and the bitmap agrees |
| `AleDriver.InterfaceIs` | modules/cpsw/eth.c:398-416 | the members and registered ports are the host and the port of the interface, none is untagged, and unregistered groups go to the host in all-multicast mode only |
| `AleDriver.EntryAddInstalls` | modules/cpsw/eth.c:398-435 | after success the VLAN has those masks, the host's address and the broadcast address their fields, the broadcast entry the host besides the ports it had, and no other entry changed |
| `AleDriver.RollbackExactly` | modules/cpsw/eth.c:430-435 | a failing call leaves what was installed if and only if the VLAN was absent and, unless there is no row for it, the host's address too |
| `AleDriver.FullRollback` | modules/cpsw/eth.c:398-435 | in a full table that has the VLAN the call fails if and only if one of the two addresses is missing, and its rollback then removes the VLAN that was there |
| `AleDriver.RollbackRemoves` | modules/cpsw/eth.c:398-435 | a table with the VLAN and nothing else: the call fails with -ENOMEM and the VLAN is gone |
| `Budget.TxBudgetsSum` | modules/cpsw/my_cpsw_priv.c:388-417 | the transmit budgets sum to exactly 64 in every case |
| `Budget.TxBudgetsPositive` | modules/cpsw/my_cpsw_priv.c:360-417 | each is at least one when all or none of at most eight channels are limited |
| `Budget.TxBudgetsDealt` | modules/cpsw/my_cpsw_priv.c:360-417 | for any rates each budget but one is given by inequalities: in proportion to the rate and at least one for a limited channel, an equal part rounded towards zero for a free one; the remainder goes to the first of the fastest limited channels if that is above the bar and not channel 0, otherwise to the first free channel after channel 0, otherwise to channel 0 |
| `Budget.TotalIs` | modules/cpsw/my_cpsw_priv.c:355-362 | the consumed rate is the sum of the rates, before it wraps |
| `Budget.LimitedIs` | modules/cpsw/my_cpsw_priv.c:355-362 | the limited channels are counted one by one |
| `Budget.NoneLimited` | modules/cpsw/my_cpsw_priv.c:366-369 | without limits the budgets are equal up to the remainder, which goes to the second channel |
| `Budget.RxBudgetsSum` | modules/cpsw/my_cpsw_priv.c:419-428 | the receive budgets sum to exactly 64, and each is at least one if and only if there are at most 64 channels |
| `Budget.RxBudgetIs` | modules/cpsw/my_cpsw_priv.c:419-428 | every receive budget but the first is an equal part, rounded down |
| `Budget.WeightIs` | modules/cpsw/my_cpsw_priv.c:403-410 | a limited channel weighs its percentage of the whole, rounded down but at least one, a free one nothing |
| `Budget.MaxRateCovers` | modules/cpsw/my_cpsw_priv.c:371-380 | with limited and free channels the whole is the link speed, ten or a hundred times that: the least that covers the limits, if any does |
| `Budget.FreeShareExactly` | modules/cpsw/my_cpsw_priv.c:382-386 | the share of a free channel is not negative if and only if the limits exceed the whole by less than one budget unit for each free channel; always when the whole covers them |
| `Budget.SplitRes` | modules/cpsw/my_cpsw_priv.c:346-429 | the loops write exactly those budgets and weights and nothing else |
| `PoolWeights.WeightsSum` | modules/cpsw/my_cpsw_priv.c:404-407 | the sum of the weights in terms of the rates: whole percents, plus one for each slow channel, minus what rounding loses |
| `PoolWeights.WeightsFitExactly` | modules/cpsw/my_cpsw_priv.c:404-407 | the weights stay within 100 if and only if the gain of the slow channels is covered by the rounding losses and what the rates leave of the whole |
| `PoolWeights.AllLimitedFit` | modules/cpsw/my_cpsw_priv.c:360-361 | with every channel limited: if and only if the slow channels gain no more than rounding loses |
| `PoolWeights.DivisorIsExact` | modules/cpsw/my_davinci_cpdma.c:466-502 | a rate that divides the bus frequency is programmed exactly as asked, if its send count fits |
| `PoolWeights.WeightsCanExceed` | modules/cpsw/my_cpsw_priv.c:404-407 | rates that the driver admits and programs exactly, with weights that add up to 106 |
| `PoolWeights.VerdictIs` | modules/cpsw/my_davinci_cpdma.c:752-753 | such weights make the pool split fail, and others do not |
| `PoolWeights.ApplyWeights` | modules/cpsw/my_cpsw_priv.c:396-413 | the calls of `cpdma_chan_set_weight` leave exactly the new weights; if they fit and any is new, the shares are those of the last weights even after failures in between |
| `PoolWeights.SplitController` | modules/cpsw/my_cpsw_priv.c:346-429 | budgets, weights and the verdict of the pool split for the rates in the channels; the controller stays in order |
| `Poll.TxShift` | modules/cpsw/my_cpsw_priv.c:138-141 | shifting the status left moves every vector down by one |
| `Poll.RxShift` | modules/cpsw/my_cpsw_priv.c:188-191 | shifting the status right moves every vector down by one |
| `Poll.Serve` | modules/cpsw/my_cpsw_priv.c:145-152 | the call processes the channel of its vector and no other: an ACTIVE one has handed over as many packets more as returned, and fewer than its quota only if its head cannot be taken; any other refuses and stays as it is |
| `Poll.TxMqPoll` | modules/cpsw/my_cpsw_priv.c:129-159 | pending vectors are served in order, each at most once, with their share or what is left, each on channel 7 less its number; every served channel got its whole quota or is blocked, every other channel is untouched; the result is the number of packets handed over less one -EINVAL for each refusal; interrupts are enabled again exactly below the budget |
| `Poll.RxMqPoll` | modules/cpsw/my_cpsw_priv.c:179-209 | the same from the lowest bit, with the receive channel of the vector's own number |
| `Poll.FullShares` | modules/cpsw/my_cpsw_priv.c:145-154 | with budgets that sum to the poll budget no share is cut and the poll returns at most the budget |
| `Poll.SplitServesAll` | modules/cpsw/my_cpsw_priv.c:129-159 | after the split a transmit poll of 64 serves every pending vector with its whole share |
| `Poll.RxSplitServesAll` | modules/cpsw/my_cpsw_priv.c:179-209 | the same for receive, whatever the number of channels |
| `FifoShaper.PercentLayout` | modules/cpsw/my_cpsw_priv.c:850-857 | FIFO 1 to 3 have the low seven bits of the first, second and third byte of the register |
| `FifoShaper.PercentSet` | modules/cpsw/my_cpsw_priv.c:850-857 | a percentage is read back from its field |
| `FifoShaper.OthersKept` | modules/cpsw/my_cpsw_priv.c:850-857 | writing it spills into no other field of the register |
| `FifoShaper.ShareCovers` | modules/cpsw/my_cpsw_priv.c:853-855 | the percentage is the least positive one that covers the bandwidth, and at most 100 within the link speed |
| `FifoShaper.AdmittedExactly` | modules/cpsw/my_cpsw_priv.c:829-870 | a bandwidth is admitted if and only if it is within the link, all higher FIFOs are shaped, and some percentage that covers it leaves those of the other shaped FIFOs below a hundred in all |
| `FifoShaper.AdmittedReserves` | modules/cpsw/my_cpsw_priv.c:862-870 | an admitted request reserves its share, leaves the others theirs, and keeps the sum below 100 |
| `FifoShaper.NeverOverbooked` | modules/cpsw/my_cpsw_priv.c:821-879 | over every run the shaped FIFOs reserve less than 100 percent |
| `FifoShaper.TopShapedExactly` | modules/cpsw/my_cpsw_priv.c:836-848 | the highest FIFOs stay the shaped ones unless a shaper is switched off above a shaped one |
| `FifoShaper.TopShapedLost` | modules/cpsw/my_cpsw_priv.c:836-848 | switching off the highest FIFO above a shaped one is admitted |
| `FifoShaper.Priv.SetFifoBw` | modules/cpsw/my_cpsw_priv.c:821-879 | the loop admits exactly the requests that fit; a failing call changes nothing |

## Left out

- RateSearch.Search: rates above half the bus frequency. The callers' checks let one through only on a bus less than twice as fast as the link; the 64-bit products and the 16-bit idle field may then overflow, and a rate equal to the bus frequency divides by zero.
- RateSearch.SearchLoop: the same rates.
- RateLimit.SetFactors: the same rates.
- RateLimit.SetRate: the same rates.
- RateLimit.SetTxMaxrate: a bus that is set but less than twice as fast as the link; the power management calls; the other slaves, each with records of its own; and the final call of `cpsw_split_res`, which is `PoolWeights.SplitController`.
- RateLimit.UpdateChannelsRes: a call while a descriptor is in flight, as its caller suspends the data path first.
- Budget.SplitRes: budgets are unbounded integers.
- PoolWeights.SplitController: rates of 43 Gbit/s and more, where the percent wraps in 32 bits, have no stated verdict.
- CpdmaCtlr.StopCtlr: packets processed or submitted by others while the loop stops channel after channel, or in flight before it.
- CpdmaCtlr.DequeueOn: a channel that is torn down; `CpdmaChannel.Dequeue` covers it on its own.
- CpdmaCtlr.ProcessOn: handlers that submit on other channels; `CpdmaCtlr.DequeueOn`, `CpdmaCtlr.FreeOn` and `CpdmaCtlr.SubmitOn` one after the other cover them.
- CpdmaCtlr.DestroyCtlr: a controller whose stop is still under way.
- CpdmaCtlr.StartCtlr: resetting the engine and clearing its head pointers; the writes of the shaper registers are `RateLimit.RestoreShaper`.
- RateLimit.RestoreShaper: rates on receive channels, which no call ever sets.
- CpdmaCtlr.SetNumRx: receive numbers below one or not below the size of the pool, which its only caller excludes.
- CpdmaMemory.Pool.constructor: failing allocations and mappings, and the choice between on-chip and ordinary memory.
- CpdmaChannel.RunHandler: handlers that submit on other channels; `CpdmaCtlr.FreeOn` followed by `CpdmaCtlr.SubmitOn` covers them.
- Poll.RxMqPoll: status bits above the eighth, for which the driver has no vector.
- AleRun.RunRefines: multicast operations with a unicast address, as for one step.
- AleRun.StepRefines: multicast operations with a unicast address; `AleOps.AddMcastJoins` and `AleOps.DelMcastLeaves` cover them on the full map.
- CpdmaCtlr.SetRingparam: pools of fewer than eight descriptors, the data path suspended meanwhile, and the failures of resuming it.
- CpdmaProtocol.HdpOnlyWhenIdle: writes of HDP outside ACTIVE, which `cpdma_chan_stop` can still cause; the engine ignores them in the model, and they appear as events of their own.
- CpdmaCtlr.DestroyChan: descriptors of an IDLE channel with queued packets are counted as lost, as the code never frees them; a running channel with a descriptor in flight.
- Statistics counters, buffer addresses and DMA mapping beyond its success, the receive free-buffer register, and host error handling.
- Memory barriers, register ordering, real time and the bounded wait for a teardown.
- `cpsw_ale_set_unreg_mcast` and `cpsw_ale_set_allmulti`, which write flood masks without regard to membership.
- The NU and K3 entry layouts, whose fields have other widths or live in mask registers.
- ALE control and port registers, ageing timers and rate limits of broadcast and multicast.
- Non-negative budgets when limited and unlimited channels are mixed: the code does not promise them.
- The single-queue poll functions, which add nothing to `cpdma_chan_process`.
- The FIFO queue type and enable registers written after `cpsw_set_fifo_bw`.
- The copies of the same code under modules/eth, the Rust bindings, the demonstration modules, and probing, power management, timestamping, XDP and devlink.
