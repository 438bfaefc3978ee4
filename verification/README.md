# Stateful parts of the Qualcomm audio techpack

A model, with proofs, of the code in the techpack that keeps state across steps: the interpreters of
effect commands, the resources that streams of one serial interface share, the SLIMbus interface, and
four places where a card's tables are filled in.

* **Effect commands** (`msm-audio-effects-q6-v2.c`). A mixer control hands a handler an array of longs:
  a command count and commands. The handler walks it with a reader whose error sticks, updates the
  effect's record, packs parameters into a 4096-byte buffer, and gives the buffer to the DSP at most
  once. `CommandStream` is the reader, `ParamPacking` the byte format in both header versions together
  with the receiver that parses it back, `SimpleEffects` the virtualizer, reverb and bass-boost handlers
  (one program over three tables), `SoftVolume`, `PoplessEq` with `PoplessEqHandler`, and `BassEnhancer`
  the other three.
* **Shared interfaces** (`holi.c`, `kona.c`, `bengal.c`). `SharedInterface` has the callbacks by which
  MI2S, TDM and auxiliary PCM streams take and give back pins, bit clock and low-power audio vote. The
  three boards run the same code; they differ in the number of interfaces and in whether they vote,
  which are parameters. A callback is one step, and every call it makes may fail at any step.
* **SLIMbus interface** (`msm-dai-slim.c`). `SlimbusDai` has the channel map, prepare, shutdown and
  channel-control callbacks, with what the bus has lent the driver.
* **Tables**. `CodecLinks` resolves the DAI links and drops disabled codecs; `TdmSlots` is the slot map and
  its two addressings, `TdmDai` what the DAI (`msm-dai-q6-v2.c`) takes from it; `AuxDevices` chooses
  the auxiliary devices; `LatencyQos` is the set of CPU latency requests.

Each of these is written twice: as functions that give one step or one call in closed form, and as
classes and methods that update fields and arrays in place, statement by statement and with the loops
of the C code. Every method's contract equates its whole new state with the function; the
theorems, in the same file or in the `...Theorems` or `...Calls` file beside it, are about the functions,
over every input and every run. Where the code does not always meet a property, the theorem says exactly when it does,
and a lemma shows a run on which it does not.

Points of the code that the model keeps as they are:

* A command with a state other than SET still stores its value, and in every handler but the
  volume one it then packs the header and data pointer that an earlier command left, with no length check.
* An unknown command consumes only its four header words.
* A long is cut to the width of the field it is stored in; gains and offsets are kept as bit patterns.
* The equalizer allocates its block once a call, for the first configuration sent; a later, larger one
  is written past its end. The bass enhancer's coefficient loop shares the counter of the command loop,
  and a long run of coefficients leaves its struct. At such a write the model stops (`Overrun`,
  `Broken`); the theorems say on which streams that happens.
* A configuration of the bass enhancer that is cut off by the end of the array is not refused either: the
  error value stands in for its orders.
* A format refused on an interface that is already open turns off the clock under its other stream, and
  one refused on the first open leaves the pins counted.
* The DAI takes as many offsets of a slot map row as the port has channels, also where the row is shorter.
* Running the population of DAI links twice changes something only for a link that came with a codec having
  both a node and a name; the boards' tables have none.
* The counts of phandles are stored unsigned, so only zero and the code for "no entry" are seen as failures
  there.

## Model

| member | source | states |
|---|---|---|
| `Machine.CutToWidth` | kernel/msm-5.4/techpack/audio/asoc/msm-audio-effects-q6-v2.c:143-150 | A long stored in a 32- or 16-bit field, or in an int, keeps its value up to a multiple of two to the power of the width. |
| `Machine.LeastByteFirst` | kernel/msm-5.4/techpack/audio/dsp/q6common.c:79-80 | A word is copied with its least significant byte first. |
| `ParamPacking.PackPpParams` | kernel/msm-5.4/techpack/audio/dsp/q6common.c:54-106 | Overwrites from the given position exactly the header in the negotiated version and the payload. A size over 16 bits is refused in version 1, and only then: the two ids have been written by that time, and the size returned is untouched. |
| `ParamPacking.OverwriteNext` | kernel/msm-5.4/techpack/audio/dsp/q6common.c:92-99 | Writing the payload behind the header is one write of both. |
| `ParamPacking.InbandBuffer.Pack` | kernel/msm-5.4/techpack/audio/asoc/msm-audio-effects-q6-v2.c:257-266 | Keeps the buffer equal to the concatenation of the packets packed so far; on success appends exactly this packet and moves the write position behind it, on failure changes nothing. |
| `ParamPacking.HeaderInverse` | kernel/msm-5.4/techpack/audio/dsp/q6common.c:54-106 | The receiver reads back the header of any representable packet, in both versions, whatever follows it, and the reserved half-word is zero. |
| `ParamPacking.ParseInverse` | kernel/msm-5.4/techpack/audio/dsp/q6common.c:54-106 | The receiver, going by the lengths in the headers, splits any concatenation of packets back into exactly those packets. |
| `CommandStream.GetNext` | kernel/msm-5.4/techpack/audio/asoc/msm-audio-effects-q6-v2.c:16-24 | The reader moves and yields a word only while no error is recorded and the limit is not reached; otherwise it stays put, yields -EINVAL and holds an error. |
| `CommandStream.ReadPrologue` | kernel/msm-5.4/techpack/audio/asoc/msm-audio-effects-q6-v2.c:113-136 | Device, command count and the checks for client and memory, with the code of the first that fails. |
| `CommandStream.CommandAt` | kernel/msm-5.4/techpack/audio/asoc/msm-audio-effects-q6-v2.c:142-150 | Four words lying inside the readable array are read as that command with no error. |
| `SimpleEffects.Turn` | kernel/msm-5.4/techpack/audio/asoc/msm-audio-effects-q6-v2.c:142-267 | One turn of the loop, in place on record and buffer, is the transition function; leaving the loop means an error. |
| `SimpleEffects.Loop` | kernel/msm-5.4/techpack/audio/asoc/msm-audio-effects-q6-v2.c:142-267 | The whole loop over record and buffer equals the run of the transition function from the same start. |
| `SimpleEffects.Handle` | kernel/msm-5.4/techpack/audio/asoc/msm-audio-effects-q6-v2.c:109-275 | The handler returns, stores and delivers exactly what the specification of the call says, at most one block, to a log that otherwise stays as it was. |
| `SimpleEffectsTheorems.ErrorNeverLost` | kernel/msm-5.4/techpack/audio/asoc/msm-audio-effects-q6-v2.c:16-33 | An error recorded at any point of the loop is there at its end, and then nothing is sent. |
| `SimpleEffectsTheorems.RunStaysPaid` | kernel/msm-5.4/techpack/audio/asoc/msm-audio-effects-q6-v2.c:142-267 | At every moment two words plus five for each packet packed have been read, and never more than the readable words. |
| `SimpleEffectsTheorems.DeliveryIsAllOrNothing` | kernel/msm-5.4/techpack/audio/asoc/msm-audio-effects-q6-v2.c:254-274 | On every word array: an error sends nothing; what is sent is at most 25 packets and 500 bytes, although some commands skip the length check, and parses back into those packets. |
| `SimpleEffectsTheorems.StepReads` | kernel/msm-5.4/techpack/audio/asoc/msm-audio-effects-q6-v2.c:142-267 | A turn does what the command spelled by the words at the reader means; and it ends in an error exactly when they spell none: a wrong length or offset, or words beyond the limit. |
| `SimpleEffectsTheorems.RunReads` | kernel/msm-5.4/techpack/audio/asoc/msm-audio-effects-q6-v2.c:142-267 | The whole loop is the fold over the commands read, and fails exactly where one cannot be read. |
| `SimpleEffectsTheorems.ReadAllInverse` | kernel/msm-5.4/techpack/audio/asoc/msm-audio-effects-q6-v2.c:142-267 | A list of own (any state) and foreign commands written into an array is read back as that list. |
| `SimpleEffectsTheorems.HandlerReadsAll` | kernel/msm-5.4/techpack/audio/asoc/msm-audio-effects-q6-v2.c:109-275 | Every call, on every word array: it fails at once without a client, with an error value for device or count (-EINVAL), or without its buffer (-ENOMEM); otherwise it returns -EINVAL and sends nothing exactly if an announced command cannot be read, with the record as the commands before it leave it but for a value that is cut off; and if all can, it is the left fold over them in record and packets. |
| `SimpleEffectsTheorems.HandlerIsFold` | kernel/msm-5.4/techpack/audio/asoc/msm-audio-effects-q6-v2.c:321-706 | For every list of own (any state) and foreign commands that the array holds, the call succeeds, leaves the record of the left fold over the commands, and sends the fold's packets in order. |
| `SimpleEffectsTheorems.TablesAreSeparate` | kernel/msm-5.4/techpack/audio/include/uapi/audio/sound/audio_effects.h:39-84 | The commands of the three effects are disjoint 32-bit ids, and no two fields of one effect share a parameter. |
| `SimpleEffectsTheorems.ShippedHandlersAreFolds` | kernel/msm-5.4/techpack/audio/asoc/msm-audio-effects-q6-v2.c:109-865 | The virtualizer, reverb and bass-boost handlers, with their own tables, are such folds for every list of the effect's own fields, with any state and value, and foreign commands. |
| `SimpleEffectsTheorems.SetStreamsAreAnnounced` | kernel/msm-5.4/techpack/audio/asoc/msm-audio-effects-q6-v2.c:756-860 | For SET commands: one packet per command in order with its own parameter and value, an ENABLE only when it changes the flag; each field ends with the last value written to it, or as it was. |
| `SimpleEffectsTheorems.FoldKeepsLastWrites` | kernel/msm-5.4/techpack/audio/asoc/msm-audio-effects-q6-v2.c:756-860 | The fold leaves in each field the last value written to it by any known command, whatever its state. |
| `SimpleEffectsTheorems.FoldOfSetsIsAnnounced` | kernel/msm-5.4/techpack/audio/asoc/msm-audio-effects-q6-v2.c:321-706 | The packets of the fold over SET commands are those described without its memory of earlier commands. |
| `SimpleEffectsTheorems.CacheRepeatsEarlierChoice` | kernel/msm-5.4/techpack/audio/asoc/msm-audio-effects-q6-v2.c:177-266 | A command that is not SET repeats the header chosen before it with the present value of that field, or sends a bare header of the module before any choice; the repeated packet differs from a plain repetition exactly when that choice was the same field. |
| `SimpleEffectsTheorems.DspStaysInStep` | kernel/msm-5.4/techpack/audio/asoc/msm-audio-effects-q6-v2.c:142-274 | A DSP with the record's parameters, which finds the fields by the numbers of module and parameter, has those of the record again after receiving what a call with SET and foreign commands sends. |
| `SoftVolume.AudibleIffSixteenBit` | kernel/msm-5.4/techpack/audio/asoc/msm-audio-effects-q6-v2.c:1419-1425 | The 32-bit word with the left gain shifted above the right one gives both gains back exactly when both fit in 16 bits. |
| `SoftVolume.GainCanBeLost` | kernel/msm-5.4/techpack/audio/asoc/msm-audio-effects-q6-v2.c:1419-1425 | A gain of 17 bits that the word does not carry. |
| `SoftVolumeTheorems.WordBits` | kernel/msm-5.4/techpack/audio/asoc/msm-audio-effects-q6-v2.c:1419-1425 | Bit by bit: the word has the right gain's bits and, from bit 16 on, also the lower sixteen bits of the left one. |
| `SoftVolume.Update` | kernel/msm-5.4/techpack/audio/asoc/msm-audio-effects-q6-v2.c:1368-1415 | The switch rewrites the record in place as the change function says, and tells a malformed command from a foreign one. |
| `SoftVolume.PackPair` | kernel/msm-5.4/techpack/audio/asoc/msm-audio-effects-q6-v2.c:1419-1448 | Appends the left/right packet and then the master packet, and cannot fail within the space checked for. |
| `SoftVolume.Turn` | kernel/msm-5.4/techpack/audio/asoc/msm-audio-effects-q6-v2.c:1359-1449 | One turn, in place on record and buffer, is the transition function. |
| `SoftVolume.Loop` | kernel/msm-5.4/techpack/audio/asoc/msm-audio-effects-q6-v2.c:1359-1449 | The whole loop equals the run of the transition function. |
| `SoftVolume.Handle` | kernel/msm-5.4/techpack/audio/asoc/msm-audio-effects-q6-v2.c:1319-1455 | The handler returns, stores and delivers exactly what the specification of the call says. |
| `SoftVolumeTheorems.StepKeepsInStep` | kernel/msm-5.4/techpack/audio/asoc/msm-audio-effects-q6-v2.c:1368-1449 | While no error is recorded, a DSP that has applied the packets so far holds the record, and after an accepted command master or both channels are at unity. |
| `SoftVolumeTheorems.ErrorNeverLost` | kernel/msm-5.4/techpack/audio/asoc/msm-audio-effects-q6-v2.c:1319-1455 | An error once recorded survives the loop, and then nothing is sent. |
| `SoftVolumeTheorems.StepReads` | kernel/msm-5.4/techpack/audio/asoc/msm-audio-effects-q6-v2.c:1359-1449 | One turn does what the command at the read pointer says: an own command replaces the whole volume and appends its pair of packets, a foreign one is passed over; and it ends in an error exactly when the words there are malformed or reach beyond the limit, the volume left alone but for gains that are cut off. |
| `SoftVolumeTheorems.RunReads` | kernel/msm-5.4/techpack/audio/asoc/msm-audio-effects-q6-v2.c:1359-1449 | From any state without an error, the loop succeeds exactly when all announced commands can be read, and then leaves the volume of the last own one and appends one left/right and master pair for each, in order. |
| `SoftVolumeTheorems.ReadAllInverse` | kernel/msm-5.4/techpack/audio/asoc/msm-audio-effects-q6-v2.c:1359-1367 | A list of two-channel, master and foreign commands of any state, written into an array, is read back as that list. |
| `SoftVolumeTheorems.HandlerReadsAll` | kernel/msm-5.4/techpack/audio/asoc/msm-audio-effects-q6-v2.c:1319-1455 | Every call, on every word array: it fails at once without a client, with an error value for device or count (-EINVAL), or without its buffer (-ENOMEM); otherwise it returns -EINVAL and sends nothing exactly when the announced commands cannot all be read; and else it returns 0, sends the pairs of the own commands in order, and leaves the volume of the last. |
| `SoftVolumeTheorems.HandlerIsFold` | kernel/msm-5.4/techpack/audio/asoc/msm-audio-effects-q6-v2.c:1319-1455 | For every list of two-channel, master (any state) and foreign commands that the array holds, the call succeeds, leaves the volume of the last own command, and sends one left/right and master pair for each own command, in order. |
| `SoftVolumeTheorems.DeliveryIsBounded` | kernel/msm-5.4/techpack/audio/asoc/msm-audio-effects-q6-v2.c:1319-1455 | Every call: an error sends nothing, success without a delivery changes nothing, and a delivery is at most 1000 bytes and leaves master or both channels at unity. |
| `SoftVolumeTheorems.DspHearsFinalRecord` | kernel/msm-5.4/techpack/audio/asoc/msm-audio-effects-q6-v2.c:1319-1455 | On every word array, what is sent parses into the pairs of the own commands in the array, and their replay over any DSP volume gives the record left behind exactly unless the last own command is a two-channel one with a gain of more than 16 bits; errors, calls that send nothing and the bounds are as for every call. |
| `SoftVolumeTheorems.TwoChannelCommand` | kernel/msm-5.4/techpack/audio/asoc/msm-audio-effects-q6-v2.c:1369-1389 | A written two-channel command stores left and right in that order, resets master to unity, and announces both in that order. |
| `SoftVolumeTheorems.MasterCommand` | kernel/msm-5.4/techpack/audio/asoc/msm-audio-effects-q6-v2.c:1390-1410 | A written master command puts both channels at unity, stores the master gain and announces both. |
| `PoplessEq.ReadBandsCount` | kernel/msm-5.4/techpack/audio/asoc/msm-audio-effects-q6-v2.c:1170-1186 | Pigeonhole: n band records name at most n further bands, whatever the indices, so the block allocated for n suffices. |
| `PoplessEqHandler.EqRecord.LoadBands` | kernel/msm-5.4/techpack/audio/asoc/msm-audio-effects-q6-v2.c:1170-1186 | The in-place loop over band records equals the recursive reading of the table, where a later record of an index overwrites an earlier one. |
| `PoplessEqHandler.EqRecord.LoadConfig` | kernel/msm-5.4/techpack/audio/asoc/msm-audio-effects-q6-v2.c:1140-1188 | A configuration read in place equals its specification; on a refusal the fields already written stay written. |
| `PoplessEqHandler.EqRecord.FillBlock` | kernel/msm-5.4/techpack/audio/asoc/msm-audio-effects-q6-v2.c:1214-1231 | The packer writes exactly the configuration words, the named entries in index order and a zero tail, and leaves the block behind them alone. |
| `PoplessEqHandler.PrepareBlock` | kernel/msm-5.4/techpack/audio/asoc/msm-audio-effects-q6-v2.c:1199-1231 | Allocation on first use, clearing on later ones, and the three outcomes: no memory, block too small, block filled with the packed configuration in front of its old rest. |
| `PoplessEqHandler.Dispatch` | kernel/msm-5.4/techpack/audio/asoc/msm-audio-effects-q6-v2.c:1115-1293 | The switch, in place on the record: fail, skip, repeat the earlier header or send a new one, with the reader it leaves, exactly as the interpretation of the command says. |
| `PoplessEqHandler.EmitTarget` | kernel/msm-5.4/techpack/audio/asoc/msm-audio-effects-q6-v2.c:1294-1306 | Packs the header and what the data pointer refers to now, or is flagged when the buffer would overflow. |
| `PoplessEqHandler.Turn` | kernel/msm-5.4/techpack/audio/asoc/msm-audio-effects-q6-v2.c:1103-1307 | One turn, in place on record, block and buffer, is the transition function, or is flagged when it leaves an allocation. |
| `PoplessEqHandler.Loop` | kernel/msm-5.4/techpack/audio/asoc/msm-audio-effects-q6-v2.c:1103-1307 | The whole loop equals the run of the transition function. |
| `PoplessEqHandler.Handle` | kernel/msm-5.4/techpack/audio/asoc/msm-audio-effects-q6-v2.c:1067-1316 | The handler returns, stores and delivers exactly what the specification of the call says, or is flagged as leaving an allocation. |
| `PoplessEqTheorems.BlockIsTheTable` | kernel/msm-5.4/techpack/audio/asoc/msm-audio-effects-q6-v2.c:1149-1231 | For every list of band records with indices in range: the number of named bands is the number of distinct indices, at most the number of records; the block is the three configuration words, one entry per distinct index and zeros; decoded by increasing index it is exactly the table of the last parameters given. |
| `PoplessEqTheorems.DecodeEntries` | kernel/msm-5.4/techpack/audio/asoc/msm-audio-effects-q6-v2.c:1218-1231 | Reading entries while their indices increase recovers the named bands from the packed words and cannot mistake the zero tail for one. |
| `PoplessEqCalls.ConfigIsRead` | kernel/msm-5.4/techpack/audio/asoc/msm-audio-effects-q6-v2.c:1140-1186 | A configuration spelled by the words, SET or not, is read to the last word of its last record, and stored. |
| `PoplessEqCalls.ConfiguredRecord` | kernel/msm-5.4/techpack/audio/asoc/msm-audio-effects-q6-v2.c:1149-1186 | The record after a configuration: its three words, and for each band the parameters last given with its index, or those it had, unnamed. |
| `PoplessEqCalls.ReadAllInverse` | kernel/msm-5.4/techpack/audio/asoc/msm-audio-effects-q6-v2.c:1103-1262 | A list of own and foreign commands written into an array is read back as that list. |
| `PoplessEqCalls.UnreadableFails` | kernel/msm-5.4/techpack/audio/asoc/msm-audio-effects-q6-v2.c:1111-1290 | The turn that meets words that spell no command (a wrong length or offset, a band index over 12, more than 12 bands, length and band count disagreeing, a record index of 12 or more, words beyond the limit) stays in its allocations and ends in -EINVAL; a bad header or index leaves the record as it was, and any other such command touches only what it stores. |
| `PoplessEqCalls.RunWalks` | kernel/msm-5.4/techpack/audio/asoc/msm-audio-effects-q6-v2.c:1103-1307 | The whole loop is a walk over the commands read, and fails where one cannot be read. |
| `PoplessEqCalls.HandlerReadsAll` | kernel/msm-5.4/techpack/audio/asoc/msm-audio-effects-q6-v2.c:1067-1316 | Every call, on every word array, for records with a band index of at most 12: it fails at once without a client, with an error value for device or count (-EINVAL), or without its buffer (-ENOMEM). Otherwise, by the commands read, it leaves its allocations exactly if the block can be had and a SET configuration has more bands than the first; else it sends nothing and fails exactly if there is no memory for a block that is needed (-ENOMEM) or an announced command cannot be read (-EINVAL), and is otherwise the left fold over them in record and packets. |
| `PoplessEqTheorems.SendsConfigIff` | kernel/msm-5.4/techpack/audio/asoc/msm-audio-effects-q6-v2.c:1140-1199 | The switch chooses to send a configuration of n bands exactly if the command is a SET EQ_CONFIG with a matching length whose words say n and whose records lie inside the array with indices in range. |
| `PoplessEqTheorems.ConfigStep` | kernel/msm-5.4/techpack/audio/asoc/msm-audio-effects-q6-v2.c:1187-1232 | A configuration that is the first of the call, or that the block has room for, adds exactly the packet of its packed table, in any state a call can reach. |
| `PoplessEqCalls.WalkIsFold` | kernel/msm-5.4/techpack/audio/asoc/msm-audio-effects-q6-v2.c:1103-1307 | Going through a list of commands with the room of the block breaks off exactly if a SET configuration has more bands than the first one, and otherwise is the fold, which knows no block. |
| `PoplessEqCalls.HandlerIsFold` | kernel/msm-5.4/techpack/audio/asoc/msm-audio-effects-q6-v2.c:1067-1316 | For every list of own commands with any state and foreign ones that the array holds: the call leaves its allocations exactly if some SET configuration has more bands than the first one; otherwise it succeeds, leaves the record of the left fold over the commands and sends the fold's packets in order. If the block cannot be allocated, the first SET configuration ends the call with -ENOMEM, its values kept and nothing sent. |
| `PoplessEqCalls.TablesAreDelivered` | kernel/msm-5.4/techpack/audio/asoc/msm-audio-effects-q6-v2.c:1140-1316 | In the block such a call sends, parsed by the receiver, every SET configuration of the stream has its packet behind those of the commands before it, and it decodes to exactly the table that the configuration wrote. |
| `PoplessEqCalls.DspStaysInStep` | kernel/msm-5.4/techpack/audio/asoc/msm-audio-effects-q6-v2.c:1103-1316 | A DSP with the record's equalizer, which tells the parameters by their numbers and decodes the table, has that of the record again after receiving what a call with SET and foreign commands sends. |
| `PoplessEqCalls.NothingChosen` | kernel/msm-5.4/techpack/audio/asoc/msm-audio-effects-q6-v2.c:1100-1102 | What is packed before any choice is a bare header of the equalizer module. |
| `PoplessEqCalls.BlockCanBeOutgrown` | kernel/msm-5.4/techpack/audio/asoc/msm-audio-effects-q6-v2.c:1199-1231 | A word array on which the handler writes past its block: no bands, then one. |
| `PoplessEqCalls.FirstConfigIsDelivered` | kernel/msm-5.4/techpack/audio/asoc/msm-audio-effects-q6-v2.c:1140-1231 | In any state of a call without a block, after whatever commands, a SET configuration adds one packet that decodes to exactly the table written. |
| `PoplessEqCalls.LaterConfigFitsIff` | kernel/msm-5.4/techpack/audio/asoc/msm-audio-effects-q6-v2.c:1199-1231 | Once a block exists, a written configuration leaves it exactly when it has more bands than the block was allocated for. |
| `PoplessEqTheorems.StepPaid` | kernel/msm-5.4/techpack/audio/asoc/msm-audio-effects-q6-v2.c:1103-1307 | One turn leaves an allocation exactly when the command at the reader sends a configuration, given by its words, with more bands than the block holds; otherwise the packets stay paid for by words read, and an error stays. |
| `PoplessEqTheorems.RunPaid` | kernel/msm-5.4/techpack/audio/asoc/msm-audio-effects-q6-v2.c:1103-1307 | Over a whole run: it breaks off exactly if some turn outgrows the block; an error stays; and without an error at most 3380 bytes are packed. |
| `PoplessEqTheorems.DeliveryIsAllOrNothing` | kernel/msm-5.4/techpack/audio/asoc/msm-audio-effects-q6-v2.c:1294-1315 | On every word array and every record with a band index of at most 12, which every call keeps: the call leaves its allocations exactly if some turn meets a configuration that outgrows the block; an error sends nothing; a delivery has at most 3380 bytes and parses into its packets. |
| `BassEnhancer.Run` | kernel/msm-5.4/techpack/audio/asoc/msm-audio-effects-q6-v2.c:913-1048 | The command loop ends on every word array although the coefficient loop overwrites its counter: each turn reads on, or leaves the reader and moves the counter up (the measure is the unread words, then the commands left). |
| `BassEnhancer.PbeRecord.LoadCoeffs` | kernel/msm-5.4/techpack/audio/asoc/msm-audio-effects-q6-v2.c:1005-1015 | The coefficient loop overwrites the front of the coefficients with the words read and leaves the rest; the counter it shares ends at the length of the run. |
| `BassEnhancer.Dispatch` | kernel/msm-5.4/techpack/audio/asoc/msm-audio-effects-q6-v2.c:922-1034 | The switch, in place on the record, is the interpretation of the command, with the counter it leaves; a skipped command leaves the counter. |
| `BassEnhancer.Turn` | kernel/msm-5.4/techpack/audio/asoc/msm-audio-effects-q6-v2.c:913-1048 | One turn, in place on record and buffer, is the transition function with the counter it leaves, or is flagged when the run leaves the struct. |
| `BassEnhancer.Loop` | kernel/msm-5.4/techpack/audio/asoc/msm-audio-effects-q6-v2.c:913-1048 | The whole loop, with its shared counter, terminates and equals the run of the transition function. |
| `BassEnhancer.Handle` | kernel/msm-5.4/techpack/audio/asoc/msm-audio-effects-q6-v2.c:877-1054 | The handler returns, stores and delivers exactly what the specification of the call says, or is flagged as leaving the struct. |
| `BassEnhancerTheorems.RunFitsIff` | kernel/msm-5.4/techpack/audio/asoc/msm-audio-effects-q6-v2.c:1005-1015 | The coefficient run fits the struct exactly when the band-pass order is at most 3 with a third-order crossover, and at most 5 otherwise. |
| `BassEnhancerTheorems.OverrunIff` | kernel/msm-5.4/techpack/audio/asoc/msm-audio-effects-q6-v2.c:946-1015 | A command leaves the struct exactly if it is a PBE_CONFIG that passes its checks and the word read for its band-pass order is over 3 with a third-order crossover, over 5 otherwise. |
| `BassEnhancerTheorems.CutOffConfigLeavesStruct` | kernel/msm-5.4/techpack/audio/asoc/msm-audio-effects-q6-v2.c:16-24 | A configuration cut off before its fifth word is not refused: the error value read there is an order that leaves the struct. |
| `BassEnhancerTheorems.StructCanBeLeft` | kernel/msm-5.4/techpack/audio/asoc/msm-audio-effects-q6-v2.c:1005-1015 | One command, on an otherwise arbitrary array, with which the handler leaves its struct. |
| `BassEnhancerTheorems.StepPaid` | kernel/msm-5.4/techpack/audio/asoc/msm-audio-effects-q6-v2.c:913-1048 | One turn leaves the struct exactly on a command whose words ask for it (see `OverrunIff`); otherwise every packet stays paid for by words read, and an error stays. |
| `BassEnhancerTheorems.DeliveryIsAllOrNothing` | kernel/msm-5.4/techpack/audio/asoc/msm-audio-effects-q6-v2.c:1035-1053 | On every word array: the call leaves its struct exactly if some turn meets a configuration whose words have too large an order, cut-off ones included; an error sends nothing; a delivery has at most 750 bytes and parses into its packets. |
| `BassEnhancerTheorems.ConfigImageIsFaithful` | kernel/msm-5.4/techpack/audio/asoc/msm-audio-effects-q6-v2.c:1026-1029 | The byte image of the configuration struct gives back all 24 scalars, at their widths, and all 45 coefficients. |
| `BassEnhancerCalls.ConfigIsRead` | kernel/msm-5.4/techpack/audio/asoc/msm-audio-effects-q6-v2.c:946-1018 | A configuration written as 24 fields and five filters (low and high pass of ten words for a third-order crossover and five otherwise, five words per band-pass order, five for each shelf) is read to its last word: fields stored one by one, the four times in 32 bits and the others in 16, the filters one behind the other over the front of the old coefficients, and the counter at their total length. |
| `BassEnhancerCalls.ReadInverse` | kernel/msm-5.4/techpack/audio/asoc/msm-audio-effects-q6-v2.c:913-1018 | A written command is read back as that command; one whose orders are too large is told as such. |
| `BassEnhancerCalls.UnreadableIsRefused` | kernel/msm-5.4/techpack/audio/asoc/msm-audio-effects-q6-v2.c:913-1034 | Words that spell no command leave the struct if they are a configuration with too large an order or cut off before it, and are else an error that touches no more of the record than the command stores, and nothing for a bad header. |
| `BassEnhancerCalls.StepReads` | kernel/msm-5.4/techpack/audio/asoc/msm-audio-effects-q6-v2.c:913-1048 | One turn does what the command spelled by the words means and moves the counter on, leaves the struct, or ends in -EINVAL. |
| `BassEnhancerCalls.RunWalks` | kernel/msm-5.4/techpack/audio/asoc/msm-audio-effects-q6-v2.c:913-1048 | The whole loop is a walk over the words with the shared counter. |
| `BassEnhancerCalls.HandlerReadsAll` | kernel/msm-5.4/techpack/audio/asoc/msm-audio-effects-q6-v2.c:877-1054 | Every call, on every word array: it fails at once without a client, with an error value for device or count (-EINVAL), or without its buffer (-ENOMEM); otherwise, walking the words with the shared counter, it leaves its struct exactly if it comes to too large an order, sends nothing and returns -EINVAL exactly if it comes to a command it cannot read, and is else the left fold over the commands it comes to. |
| `BassEnhancerCalls.ConfigResetsCounter` | kernel/msm-5.4/techpack/audio/asoc/msm-audio-effects-q6-v2.c:1013-1048 | Wherever the counter stood, a processed configuration leaves it at the total length of its filters: the loop goes on past it only if more commands than that plus one are announced. |
| `BassEnhancerCalls.HandlerIsFold` | kernel/msm-5.4/techpack/audio/asoc/msm-audio-effects-q6-v2.c:877-1054 | For every list of commands the array holds and every announced count: if a configuration with too large an order is reached the call leaves its struct; if the shared counter reaches the count, the call succeeds, leaves the record and sends the packets of the left fold over the commands up to there; and if the list ends first, the call goes on with the words behind it, in the fold's state and with the counter the commands have reached. |
| `BassEnhancerCalls.CommandsBehindAreSkipped` | kernel/msm-5.4/techpack/audio/asoc/msm-audio-effects-q6-v2.c:1013-1015 | Up to its coefficient count plus one announced commands, a leading configuration is the only one carried out. |
| `BassEnhancerCalls.DspStaysInStep` | kernel/msm-5.4/techpack/audio/asoc/msm-audio-effects-q6-v2.c:913-1053 | A DSP with the record's parameters, which tells them by their numbers and decodes the struct, has those of the record again after receiving what a call with foreign commands, ENABLE and whole SET configurations sends. |
| `BassEnhancerCalls.NothingChosen` | kernel/msm-5.4/techpack/audio/asoc/msm-audio-effects-q6-v2.c:910-912 | What is packed before any choice is a bare header of the module. |
| `SharedInterface.Card.RatePut` | kernel/msm-5.4/techpack/audio/asoc/holi.c:2238-2290 | Sets the rate of one direction of one interface and touches nothing else. |
| `SharedInterfaceTheorems.ControlsSetWhatTheyName` | kernel/msm-5.4/techpack/audio/asoc/holi.c:2118-2167 | The rate and format controls set, item by item, what their texts name; any other item is 48 kHz and 16 bits. |
| `SharedInterfaceTheorems.RatesThatVote` | kernel/msm-5.4/techpack/audio/asoc/holi.c:78-81 | Of the rates that the controls can set, those the driver votes for are exactly the multiples of 11025 Hz. |
| `SharedInterfaceTheorems.OpenReturns` | kernel/msm-5.4/techpack/audio/asoc/holi.c:4543-4631 | An MI2S open returns the code of the first of its calls that refuses it, in the order vote, port, clock, pins, format, the first four only where they are made; a positive code of the pins ends it too. |
| `SharedInterfaceTheorems.BadIndexDoesNothing` | kernel/msm-5.4/techpack/audio/asoc/holi.c:4544-4549 | Every callback and control for an interface the card does not have changes nothing, and an open of it is refused. |
| `SharedInterface.Card.SetClock` | kernel/msm-5.4/techpack/audio/asoc/holi.c:2547-2581 | Enabling recomputes the frequency before the call, an unknown port does nothing, and the clock changes only if the call succeeds; nothing else on the board changes. |
| `SharedInterface.Card.SelectActive` | kernel/msm-5.4/techpack/audio/asoc/holi.c:4261-4276 | Counts one more user of the pins of an interface that has any, selecting their active state for the first; a nonzero code leaves everything as it was. |
| `SharedInterface.Card.SelectSleep` | kernel/msm-5.4/techpack/audio/asoc/holi.c:4295-4305 | Counts one user less and puts the pins to sleep with the last; a refusal leaves them active. |
| `SharedInterface.Card.EnableVote` | kernel/msm-5.4/techpack/audio/asoc/holi.c:4567-4583 | A fractional stream of a voting interface gets its vote, enabling the vote clock for the first, or is refused with nothing changed; any other stream passes. |
| `SharedInterface.Card.DisableVote` | kernel/msm-5.4/techpack/audio/asoc/holi.c:4493-4525 | Drops one vote for a fractional stream of a voting interface, disables the vote clock at zero, and resets a negative count. |
| `SharedInterface.Card.Acquire` | kernel/msm-5.4/techpack/audio/asoc/holi.c:4585-4621 | From the clock to the format, with the unwinding of the clock, exactly what the closed form says for a first and a further open. |
| `SharedInterface.Card.Mi2sStartup` | kernel/msm-5.4/techpack/audio/asoc/holi.c:4527-4631 | From any state with safe votes, the startup with its labels and gotos leaves exactly the closed form: a refused open gives back its reference and vote, an accepted one keeps them. |
| `SharedInterface.Card.Mi2sShutdown` | kernel/msm-5.4/techpack/audio/asoc/holi.c:4633-4670 | From any state the shutdown leaves exactly the closed form: pins and clock are given up with the last reference, the vote always by the present rate, and a count of zero goes round. |
| `SharedInterface.Card.PcmStartup` | kernel/msm-5.4/techpack/audio/asoc/holi.c:4245-4277 | A TDM or auxiliary stream takes only the pins; an index out of range is refused with nothing changed. |
| `SharedInterface.Card.PcmShutdown` | kernel/msm-5.4/techpack/audio/asoc/holi.c:4279-4306 | Gives the pins back, putting them to sleep with the last user. |
| `SharedInterfaceTheorems.ControlsReachTheNextOpen` | kernel/msm-5.4/techpack/audio/asoc/holi.c:2238-2326 | Writing the rate and format controls moves no reference, pin, clock or vote of any interface; the next open in that direction runs at exactly rate·2·bits of the items written, unless a stream that is open already holds the clock. |
| `SharedInterfaceTheorems.WiresAfterOpen` | kernel/msm-5.4/techpack/audio/asoc/holi.c:4585-4621 | How an open moves the pin count, pins, clock and frequency, for each stage at which it can end. |
| `SharedInterfaceTheorems.BitClockIsExact` | kernel/msm-5.4/techpack/audio/asoc/holi.c:2530-2545 | For every settable rate the clock rate·2·bits fits its 32-bit field. |
| `SharedInterfaceTheorems.StepAccounts` | kernel/msm-5.4/techpack/audio/asoc/holi.c:4245-4306 | Every callback, whatever its calls return, keeps the counters equal to what callers hold, used pins active, and the votes safe. |
| `SharedInterfaceTheorems.RunAccounts` | kernel/msm-5.4/techpack/audio/asoc/holi.c:4585-4661 | Every run of a built card: references equal open MI2S streams; pin users equal open TDM and auxiliary streams, one if MI2S is open, plus the first opens whose replies refuse the format behind counted pins, less the opens whose pin call replied with a positive code; without such a code no count is negative and every open stream has active pins; the frequency is still that of the stream that opened the interface; the vote count is not negative and the vote clock is enabled once exactly while it is positive. |
| `SharedInterfaceTheorems.FixedParts` | kernel/msm-5.4/techpack/audio/asoc/holi.c:7169-7182 | No run changes which interfaces exist or which have pins. |
| `SharedInterfaceTheorems.StepVotes` | kernel/msm-5.4/techpack/audio/asoc/holi.c:4567-4583 | With votes equal to the open streams on the first three interfaces whose rate is a multiple of 11025 Hz, they are equal after any callback, refused opens included, exactly unless it is a rate control that moves an open such stream into or out of those rates. |
| `SharedInterfaceTheorems.RunVotes` | kernel/msm-5.4/techpack/audio/asoc/kona.c:5084-5100 | Along a whole run the vote count is exact after every callback exactly if no rate control moves an open voter. |
| `SharedInterfaceTheorems.VoteCanStick` | kernel/msm-5.4/techpack/audio/asoc/holi.c:4511-4525 | A run after which the vote clock stays enabled with nothing open. |
| `SharedInterfaceTheorems.VoteCanBeLost` | kernel/msm-5.4/techpack/audio/asoc/holi.c:4511-4525 | A run after which the vote clock is disabled under an open fractional stream. |
| `SharedInterfaceTheorems.StepClock` | kernel/msm-5.4/techpack/audio/asoc/holi.c:4613-4626 | With each bit clock on exactly while its interface has MI2S streams, this holds after a callback exactly unless the replies say so (`OpenFault`): an open that gets past its vote, whose format is refused on an open interface while the disable works, or whose pins or format are refused on a closed one while it does not; or a last close whose disable is refused. |
| `SharedInterfaceTheorems.RunClock` | kernel/msm-5.4/techpack/audio/asoc/bengal.c:3928-4000 | Along a whole run the clocks are exact after every callback exactly if no such fault occurs; in particular if formats and disables succeed, with clock enables, votes and pins failing at any step. |
| `SharedInterfaceTheorems.ClockCanStop` | kernel/msm-5.4/techpack/audio/asoc/holi.c:4613-4621 | A run on which a refused capture open stops the clock of the playback stream. |
| `SharedInterfaceTheorems.ClockCanStayOn` | kernel/msm-5.4/techpack/audio/asoc/holi.c:4662-4666 | A last close whose refused disable leaves the clock on. |
| `SharedInterfaceTheorems.PinsCanLeak` | kernel/msm-5.4/techpack/audio/asoc/holi.c:4594-4621 | A refused first open that leaves the pins active with nothing open. |
| `SharedInterfaceTheorems.StepPins` | kernel/msm-5.4/techpack/audio/asoc/holi.c:4295-4305 | With the pins of each interface active exactly while counted, they are so after a callback exactly unless it gives back the last count and the pins refuse to sleep. |
| `SharedInterfaceTheorems.RunPins` | kernel/msm-5.4/techpack/audio/asoc/bengal.c:3697-3822 | The same after every callback of a run. |
| `SharedInterfaceTheorems.StepCounted` | kernel/msm-5.4/techpack/audio/asoc/holi.c:4590-4626 | With the pins of each interface counted once for every open TDM or auxiliary stream and once for its open MI2S streams, they are so after any callback exactly unless the replies say so (`CountFault`): a first MI2S open that has its vote, port and clock and either counts the pins and is refused its format, or finds them uncounted and its pin call returns a positive code; or a TDM or auxiliary open with such a code. |
| `SharedInterfaceTheorems.RunCounted` | kernel/msm-5.4/techpack/audio/asoc/bengal.c:3697-3822 | The same after every callback of a run: the pins' users are counted exactly throughout, exactly if no such open occurs in it. |
| `SharedInterfaceTheorems.BuiltRuns` | kernel/msm-5.4/techpack/audio/asoc/holi.c:7169-7182 | For every run of a card as it is built: clocks, active pins, the count of the pins' users and votes are each exact after every callback exactly if none of their faults occurs in it. |
| `SharedInterfaceTheorems.PinsCanStayActive` | kernel/msm-5.4/techpack/audio/asoc/holi.c:4279-4306 | A run on which refused sleep leaves the pins active with nothing counted. |
| `SharedInterfaceTheorems.RefusedOpenIsUndone` | kernel/msm-5.4/techpack/audio/asoc/holi.c:4613-4630 | A refused open leaves votes, vote clock, references and all other interfaces as they were; the pin count is kept exactly when the interface has pins and no MI2S stream, vote, port, clock and pins were had, and the format was refused, and is otherwise as it was. |
| `SharedInterfaceTheorems.CloseUndoesOpen` | kernel/msm-5.4/techpack/audio/asoc/holi.c:4633-4670 | Opening a stream and shutting it down leaves votes, vote clock, references, pin counts and all other interfaces as they were. |
| `SlimbusDai.SlimDai.PutChannelMap` | kernel/msm-5.4/techpack/audio/asoc/msm-dai-slim.c:264-298 | Stores the channel numbers slot by slot, cut to 16 bits, with the count, and refuses more than the ports allow. |
| `SlimbusDai.SlimDai.QueryEach` | kernel/msm-5.4/techpack/audio/asoc/msm-dai-slim.c:335-343 | Asks for the mapped channels in turn and stops at the first refusal; records the handles given and touches no other entry. |
| `SlimbusDai.SlimDai.AcquireChannels` | kernel/msm-5.4/techpack/audio/asoc/msm-dai-slim.c:332-370 | Taking, defining and unwinding in place leave exactly the closed form, with the code of the first failing call. |
| `SlimbusDai.SlimDai.ReleaseFirst` | kernel/msm-5.4/techpack/audio/asoc/msm-dai-slim.c:366-369 | Gives back the first k handles, of which exactly those the bus accepts leave the account. |
| `SlimbusDai.SlimDai.PrepareStream` | kernel/msm-5.4/techpack/audio/asoc/msm-dai-slim.c:300-371 | Prepare leaves exactly the closed form, with the return code of the first failing call. |
| `SlimbusDai.SlimDai.ShutdownStream` | kernel/msm-5.4/techpack/audio/asoc/msm-dai-slim.c:373-410 | Shutdown releases all recorded handles and clears the state, or does nothing unless prepared and not running. |
| `SlimbusDai.SlimDai.ControlChannels` | kernel/msm-5.4/techpack/audio/asoc/msm-dai-slim.c:83-206 | Channel control leaves exactly the closed form, whichever call fails. |
| `SlimbusDaiTheorems.Step` | kernel/msm-5.4/techpack/audio/asoc/msm-dai-slim.c:113-410 | Running implies prepared implies initialized after any callback, whatever the bus answers. |
| `SlimbusDaiTheorems.RunningKeepsChannels` | kernel/msm-5.4/techpack/audio/asoc/msm-dai-slim.c:390-397 | While running, no callback takes or gives back a channel or leaves the prepared state. |
| `SlimbusDaiTheorems.RefusedStayOut` | kernel/msm-5.4/techpack/audio/asoc/msm-dai-slim.c:366-410 | Releasing a list of handles leaves outstanding exactly what was not in the list and the ones the bus refused. |
| `SlimbusDaiTheorems.PrepareByReplies` | kernel/msm-5.4/techpack/audio/asoc/msm-dai-slim.c:300-370 | A prepare with work to do returns the code of the first query refused, and else that of the definition; it is prepared exactly if that is zero, and every channel before a refusal has left its handle in its slot. |
| `SlimbusDaiTheorems.FailedPrepareGivesBack` | kernel/msm-5.4/techpack/audio/asoc/msm-dai-slim.c:335-370 | A prepare that is refused a channel, or the definition, leaves the states alone, and the outstanding handles as they were exactly if the bus refuses none of the releases. |
| `SlimbusDaiTheorems.HandlesAreForTheMap` | kernel/msm-5.4/techpack/audio/asoc/msm-dai-slim.c:287-343 | A prepare that succeeds after a new channel map holds, slot by slot, the handle the bus gives for that slot's channel. |
| `SlimbusDaiTheorems.PrepareTwice` | kernel/msm-5.4/techpack/audio/asoc/msm-dai-slim.c:325-330 | A repeated prepare succeeds and changes nothing. |
| `SlimbusDaiTheorems.OutOfTurn` | kernel/msm-5.4/techpack/audio/asoc/msm-dai-slim.c:300-330 | A prepare of an interface that is not initialized is refused, and a shutdown with nothing to give back changes nothing. |
| `SlimbusDaiTheorems.ShutdownReturns` | kernel/msm-5.4/techpack/audio/asoc/msm-dai-slim.c:376-410 | Any other shutdown leaves the prepared state and returns the handles of the mapped channels but for those the bus refuses. |
| `SlimbusDaiTheorems.MapIsStored` | kernel/msm-5.4/techpack/audio/asoc/msm-dai-slim.c:264-298 | A map of more channels than ports is refused with nothing changed; any other is stored slot by slot, cut to 16 bits, and leaves the rest. |
| `SlimbusDaiTheorems.EnableByReplies` | kernel/msm-5.4/techpack/audio/asoc/msm-dai-slim.c:113-162 | Enabling a prepared interface sets it running and takes one port group exactly if allocation, configuration, every connection and the activation answer at least zero; otherwise it returns the code of the first that does not, and changes nothing but to keep an allocated group that cannot be given back. |
| `SlimbusDaiTheorems.DisableByReplies` | kernel/msm-5.4/techpack/audio/asoc/msm-dai-slim.c:163-205 | Disabling stops it and gives the group back exactly if the removal and then the deallocation answer at least zero, and otherwise returns the refusing code with nothing changed. |
| `SlimbusDaiTheorems.StepHandles` | kernel/msm-5.4/techpack/audio/asoc/msm-dai-slim.c:287-410 | With the outstanding handles equal, as a multiset, to the recorded ones when prepared and empty otherwise, they are so after a callback exactly unless it maps another number of channels while prepared or the bus refuses a release. |
| `SlimbusDaiTheorems.StepPorts` | kernel/msm-5.4/techpack/audio/asoc/msm-dai-slim.c:113-205 | With a port group held exactly while running, it is so after a callback exactly unless a granted enable comes while running, or a failed one cannot give its group back. |
| `SlimbusDaiTheorems.FailedConnect` | kernel/msm-5.4/techpack/audio/asoc/msm-dai-slim.c:142-152 | Whichever connection fails first, the enable returns its code and changes nothing. |
| `SlimbusDaiTheorems.RunIsExact` | kernel/msm-5.4/techpack/audio/asoc/msm-dai-slim.c:113-410 | Along every run handles and ports are accounted for after each callback exactly if none of these faults occurs. |
| `SlimbusDaiTheorems.ShutDownHoldsNothing` | kernel/msm-5.4/techpack/audio/asoc/msm-dai-slim.c:390-409 | A run without faults that ends shut down holds no handle and no port. |
| `SlimbusDaiTheorems.TwoArePrepared` | kernel/msm-5.4/techpack/audio/asoc/msm-dai-slim.c:264-298 | A freshly probed interface of two channels comes to the state of the two failures below by mapping two channels and preparing, the bus granting both. |
| `SlimbusDaiTheorems.RemappingLosesAHandle` | kernel/msm-5.4/techpack/audio/asoc/msm-dai-slim.c:264-298 | Mapping fewer channels while prepared loses a handle for good. |
| `SlimbusDaiTheorems.PortsCanLeak` | kernel/msm-5.4/techpack/audio/asoc/msm-dai-slim.c:113-162 | Enabling twice and disabling once leaves a port group held with nothing running. |
| `CodecLinks.DaiLink.ResolveEach` | kernel/msm-5.4/techpack/audio/asoc/holi.c:6257-6282 | Resolves the codec array in place, in order, stopping at the first missing phandle with the rest untouched. |
| `CodecLinks.DaiLink.Resolve` | kernel/msm-5.4/techpack/audio/asoc/holi.c:6208-6283 | Resolves platform, CPU and codecs of one link as specified, with the code of the first failure. |
| `CodecLinks.DaiLink.DropEach` | kernel/msm-5.4/techpack/audio/asoc/holi.c:6288-6309 | Clears the nodes of exactly the disabled codecs and counts the others. |
| `CodecLinks.DaiLink.CopyEnabled` | kernel/msm-5.4/techpack/audio/asoc/holi.c:6310-6334 | Fills the new array exactly, to its last element, with the enabled codecs in order. |
| `CodecLinks.DaiLink.Compact` | kernel/msm-5.4/techpack/audio/asoc/holi.c:6286-6335 | One link of the second pass: unchanged with at most one codec, otherwise disabled codecs dropped and, if some but not all are left, the array replaced or the allocation failure returned. |
| `CodecLinks.ResolveLinks` | kernel/msm-5.4/techpack/audio/asoc/holi.c:6208-6283 | The first pass in place, stopping at the first failing link with the later ones untouched. |
| `CodecLinks.CompactLinks` | kernel/msm-5.4/techpack/audio/asoc/holi.c:6286-6336 | The second pass in place, likewise. |
| `CodecLinks.PopulateLinks` | kernel/msm-5.4/techpack/audio/asoc/holi.c:6193-6340 | Both passes over all the links in place equal the specification, with its return code, and leave links and arrays separate. |
| `CodecLinksTheorems.SurvivorsAreTheLive` | kernel/msm-5.4/techpack/audio/asoc/holi.c:6288-6334 | The codecs kept are the resolved and available ones and nothing else, each once, in their order. |
| `CodecLinksTheorems.LinkIsResolved` | kernel/msm-5.4/techpack/audio/asoc/holi.c:6208-6286 | One link, by the device tree's answers: it is resolved exactly if every name that is looked up has its phandle, each component then has the node at the index of its own name, and otherwise the code is the platform's negative index or -ENODEV. |
| `CodecLinksTheorems.PopulateEachLink` | kernel/msm-5.4/techpack/audio/asoc/holi.c:6208-6336 | Population succeeds exactly when every name that is looked up has its phandle and every link of several codecs of which some but not all are enabled gets its shorter array. |
| `CodecLinksTheorems.PopulatedCodecs` | kernel/msm-5.4/techpack/audio/asoc/bengal.c:5530-5672 | After success each link not passed over has as platform the tree's node at the index of the platform's name, the name cleared, and likewise its CPU, left alone where the index is negative; its codecs, resolved in the same way, are the enabled ones in order if a link with several has some but not all; otherwise as many as before, unchanged if all are enabled and all without a node if none is. |
| `CodecLinksTheorems.UnknownNameFails` | kernel/msm-5.4/techpack/audio/asoc/holi.c:6208-6286 | A population with an unknown name fails at the first link that has one, with that link's code; the links before it are resolved and none is shortened, and those behind it are untouched. |
| `CodecLinksTheorems.NoArrayFails` | kernel/msm-5.4/techpack/audio/asoc/holi.c:6288-6322 | With all names known it fails at the first link that needs an array and does not get it, with -ENOMEM; the links behind it are resolved and not shortened. |
| `CodecLinksTheorems.PopulateTwice` | kernel/msm-5.4/techpack/audio/asoc/holi.c:6208-6336 | Running again after a success, with a stable device tree, succeeds and changes nothing exactly unless a link that is not passed over has several codecs, none enabled, one of which came with both a node and a known name. |
| `CodecLinksTheorems.PopulateIsIdempotent` | kernel/msm-5.4/techpack/audio/asoc/holi.c:6208-6336 | On links where no codec has both a node and a name, as in all the boards' tables, a second run after a success succeeds and changes nothing. |
| `CodecLinksTheorems.RelapseHappens` | kernel/msm-5.4/techpack/audio/asoc/holi.c:6258-6309 | A device tree, and a link with codecs that have both a node and a name, for which the second run does change the link. |
| `TdmSlots.SlotMap.SlotMapPut` | kernel/msm-5.4/techpack/audio/asoc/holi.c:1793-1830 | Writes the acceptable offsets into the one addressed row, slot by slot, and refuses an interface or channel out of range with nothing changed. |
| `TdmSlots.SlotMap.HwParams` | kernel/msm-5.4/techpack/audio/asoc/holi.c:4106-4215 | Decodes the id, picks the row and channel count, and makes the slot, map and clock calls in order up to the first that fails, whose code it returns; refuses an id below the range and a stream of neither direction. Row and count are handed over unrelated; what the DAI then reads is `TdmDai`. |
| `TdmSlots.MaskIsTheFirstSlots` | kernel/msm-5.4/techpack/audio/asoc/holi.c:4153-4156 | The shifted mask has exactly the bits of the first slots. |
| `TdmSlots.SetupAnnouncesTheSlots` | kernel/msm-5.4/techpack/audio/asoc/kona.c:4640-4715 | Setup whose calls succeed gives the mask of the first slots as receive mask for playback and as transmit mask for capture, and a clock of rate times 32 times slots, which fits its field up to 384 kHz. |
| `TdmSlots.SetupStopsAtRefusal` | kernel/msm-5.4/techpack/audio/asoc/holi.c:4121-4215 | Setup of an id below the range or a stream of neither direction makes no call; otherwise a refused slot or map call is the last one, and setup returns the code of the last call made. |
| `TdmSlots.SetupSeesItsWrites` | kernel/msm-5.4/techpack/audio/asoc/kona.c:2017-2040 | After any sequence of control writes, the channel map setup hands to the DAI has, slot by slot, the offset last accepted on control cell (2·interface + direction, channel), or what the table held. |
| `TdmSlots.DecodeInverse` | kernel/msm-5.4/techpack/audio/asoc/holi.c:4127-4138 | Decoding the id start + 16·interface + 2·channel + direction gives back interface, channel and direction. |
| `TdmSlots.EncodeInverse` | kernel/msm-5.4/techpack/audio/asoc/holi.c:4127-4138 | Every id of the range is the id of the port it decodes to. |
| `TdmSlots.ControlForId` | kernel/msm-5.4/techpack/audio/asoc/holi.c:1803-1816 | The control words that address the row of an id are exactly 2·interface + direction and channel. |
| `TdmSlots.PutReturns` | kernel/msm-5.4/techpack/audio/asoc/holi.c:1803-1812 | A write is refused, changing nothing, exactly if the interface and direction or the channel is out of range. |
| `TdmSlots.RowHoldsLastAccepted` | kernel/msm-5.4/techpack/audio/asoc/holi.c:1815-1827 | After any sequence of writes each slot of a row holds the last acceptable offset written to that row and slot, or what it held; no other write moves it. |
| `TdmSlots.IdSeesItsWrites` | kernel/msm-5.4/techpack/audio/asoc/kona.c:2017-2040 | So stream setup for an id sees, per slot, the last offset accepted on control cell (2·interface + direction, channel). |
| `TdmSlots.OffsetsStayOffsets` | kernel/msm-5.4/techpack/audio/asoc/holi.c:1817-1827 | Writes keep every entry of any table unused or a multiple of four up to 28. |
| `TdmSlots.TablesHoldOffsets` | kernel/msm-5.4/techpack/audio/asoc/holi.c:491-601 | From the boards' own tables, in both builds, whatever is written: every entry is unused or a multiple of four up to 28. |
| `TdmDai.Dai.SetChannelMap` | kernel/msm-5.4/techpack/audio/asoc/msm-dai-q6-v2.c:10796-11068 | Refuses an id out of range, no slots in the id's own direction and more channels than the table has entries, with nothing changed; otherwise fills the table with as many entries as there are channels and marks the rest invalid, or is flagged when it reads past the last word behind the pointer. |
| `TdmDai.AnswerToSetup` | kernel/msm-5.4/techpack/audio/asoc/holi.c:4151-4199 | Of the map call made at stream setup: it is refused exactly when the stream's direction is not the id's or the port has more channels than the DAI's table; it reads past the table of the interface exactly when the port has more channels than the rows from its own to the last have entries. |
| `TdmDai.UnknownIsRefused` | kernel/msm-5.4/techpack/audio/asoc/msm-dai-q6-v2.c:11060-11064 | An id of no TDM port is refused whatever it asks for. |
| `TdmDai.AnswerIsRows` | kernel/msm-5.4/techpack/audio/asoc/msm-dai-q6-v2.c:10899-10913 | Offset number i is slot i mod width of the row i / width behind that of the id. |
| `TdmDai.DaiHearsLastAccepted` | kernel/msm-5.4/techpack/audio/asoc/holi.c:1793-1830 | After any sequence of control writes the DAI's offsets are those last accepted for the port of the id and, behind the end of its row, those last accepted for the ports behind it. |
| `TdmDai.OwnRowDecidesIff` | kernel/msm-5.4/techpack/audio/asoc/holi.c:4142-4149 | The offsets taken depend on no other port's row exactly when the port has no more channels than its row has entries; always where the DAI's table is no longer than a row. |
| `TdmDai.FourSlotsReadOn` | kernel/msm-5.4/techpack/audio/asoc/holi.c:138-142 | With four slots a row, a port set to eight channels is given the offsets of the port behind it as well. |
| `TdmDai.FourSlotsLeaveTable` | kernel/msm-5.4/techpack/audio/asoc/holi.c:228-230 | There, the last port of an interface set to eight channels makes the DAI read past the table. |
| `AuxDevices.SoundCard.FindSpeakers` | kernel/msm-5.4/techpack/audio/asoc/kona.c:7601-7629 | The scan keeps the registered phandles in order until there are enough, and reports a missing one. |
| `AuxDevices.SoundCard.FindCodecs` | kernel/msm-5.4/techpack/audio/asoc/kona.c:7700-7727 | The same without stopping early. |
| `AuxDevices.SoundCard.SelectSpeakers` | kernel/msm-5.4/techpack/audio/asoc/kona.c:7528-7632 | From property and counts to the chosen speakers, or the code that ends the set-up. |
| `AuxDevices.SoundCard.SelectCodecs` | kernel/msm-5.4/techpack/audio/asoc/kona.c:7634-7731 | The same for the codecs. |
| `AuxDevices.SoundCard.FillSpeakers` | kernel/msm-5.4/techpack/audio/asoc/kona.c:7754-7784 | Fills the first entries of both arrays, speaker by speaker, unless a name or prefix cannot be had, whose code it returns. |
| `AuxDevices.SoundCard.FillCodecs` | kernel/msm-5.4/techpack/audio/asoc/kona.c:7786-7797 | Fills the entries behind the speakers and leaves theirs alone. |
| `AuxDevices.SoundCard.RegisterAll` | kernel/msm-5.4/techpack/audio/asoc/kona.c:7733-7803 | Fills both arrays to their ends, speakers first, and assigns them only if every allocation and prefix succeeds. |
| `AuxDevices.SoundCard.InitAuxDevices` | kernel/msm-5.4/techpack/audio/asoc/kona.c:7506-7803 | The whole set-up leaves card and code as specified, or is flagged exactly when the number of devices chosen overflows the count that sizes the arrays. |
| `AuxDevices.ScanFinds` | kernel/msm-5.4/techpack/audio/asoc/kona.c:7601-7622 | A scan finds the first registered phandles, each once in increasing order, passes none over before the last, and fails only for a missing phandle. |
| `AuxDevices.ChoicesFit` | kernel/msm-5.4/techpack/audio/asoc/kona.c:7546-7570 | Where phandle lists end at their counts, an error code taken for a large unsigned count never leads to a choice; the numbers chosen are the smaller of maximum and count, and all the codecs, and their sum does not overflow. |
| `AuxDevicesTheorems.AssignedSelection` | kernel/msm-5.4/techpack/audio/asoc/kona.c:7674-7800 | Whenever the devices are assigned they are the first registered speakers in device-tree order, with strictly increasing positions and each with the prefix of its own position, then every codec in order; their number is the one on the card. |
| `AuxDevicesTheorems.SearchOutcome` | kernel/msm-5.4/techpack/audio/asoc/kona.c:7601-7632 | A search succeeds exactly if the registered phandle that makes the number wanted comes before any missing one; otherwise the probe is deferred exactly if none is missing. |
| `AuxDevicesTheorems.AssignedIff` | kernel/msm-5.4/techpack/audio/asoc/kona.c:7506-7803 | The devices are assigned exactly if both arrays can be had, the board takes no speakers or its list has as many prefixes and reaches as many registered ones as it takes, each with a name and a prefix, and it takes no codecs or every codec of its list is registered. |
| `AuxDevicesTheorems.SpeakersRefused` | kernel/msm-5.4/techpack/audio/asoc/kona.c:7546-7632 | The code of a set-up given up for the speakers: an empty list or one without a prefix for each, no memory, or a list that does not reach, deferred if no phandle is missing. |
| `AuxDevicesTheorems.CodecsRefused` | kernel/msm-5.4/techpack/audio/asoc/kona.c:7652-7731 | The same for the codecs. |
| `AuxDevicesTheorems.RegisteringFails` | kernel/msm-5.4/techpack/audio/asoc/kona.c:7733-7784 | With all chosen, the numbers are set, and the set-up fails with -ENOMEM for want of an array, or at the first speaker without a name (-ENOMEM) or prefix (-EINVAL). |
| `AuxDevicesTheorems.CodeAfterAssignment` | kernel/msm-5.4/techpack/audio/asoc/kona.c:7528-7558 | The code does not tell: it is zero with nothing assigned exactly when the speakers have a maximum but no list, or they are chosen and the codecs have one but no list; and nonzero with the arrays assigned exactly when there are no speakers and the codec maximum cannot be read. |
| `LatencyQos.LatencyRequests.UpdateRequests` | kernel/msm-5.4/techpack/audio/asoc/holi.c:920-932 | Sets the request of every audio CPU and no other. |
| `LatencyQos.LatencyRequests.Add` | kernel/msm-5.4/techpack/audio/asoc/holi.c:876-903 | Marks the listed CPUs that exist and gives them the default. |
| `LatencyQos.LatencyRequests.Prepare` | kernel/msm-5.4/techpack/audio/asoc/holi.c:4471-4481 | Takes away the stream's own request, counts one more client, unsigned, and lowers the latency for the first. |
| `LatencyQos.LatencyRequests.Shutdown` | kernel/msm-5.4/techpack/audio/asoc/holi.c:4483-4491 | Counts one client less unless there is none, and restores the default at zero. |
| `LatencyQos.StepFollows` | kernel/msm-5.4/techpack/audio/asoc/holi.c:4471-4491 | With every audio CPU at the low value while there are clients and at the default otherwise, it is so after a callback, surplus shutdowns included, unless requests are added while clients are counted or the count wraps; on a target that can tell the two values apart, each of these does break it. |
| `LatencyQos.RunFollows` | kernel/msm-5.4/techpack/audio/asoc/holi.c:896-932 | The same after every callback of a run. |
| `LatencyQos.EveryReachedState` | kernel/msm-5.4/techpack/audio/asoc/holi.c:874-932 | In every state a run without these faults reaches from the driver's initial one: the requests are there exactly if the last attempt to add them was granted, each audio CPU then holds the low value exactly while clients are counted, and exactly the streams prepared have lost their own request. |
| `LatencyQos.CountIsBacklog` | kernel/msm-5.4/techpack/audio/asoc/holi.c:4471-4491 | The clients counted after a run are its prepares less its shutdowns, stopped at zero: the largest net number of any suffix of the run, on top of the clients before it. |
| `LatencyQos.OthersKeepNone` | kernel/msm-5.4/techpack/audio/asoc/holi.c:920-932 | A CPU that serves no audio has no request after any run. |
| `LatencyQos.RequestsCanLag` | kernel/msm-5.4/techpack/audio/asoc/holi.c:7191-7192 | A prepare before the requests are added leaves them at the default with a client counted. |

## Left out

- The DSP's answer to a delivery: its code is not looked at by the handlers, so `SetPpParams` only records what was handed over.
- A null word array, which only the volume handler checks for: the model's arrays always exist.
- The other functions of the handlers' file (`msm_audio_effects_is_effmodule_supp_in_top` and `msm_audio_effects_enable_extn`): a lookup, and three packings in a row.
- The words of the equalizer and bass enhancer after a write outside an allocation: the model stops there, because the C code promises nothing from that point on.
- Interleavings of instructions within a callback: the vote count has no lock of its own and the pin counters are checked and then changed, so the theorems speak of whole callbacks one after another.
- The change of the clock identifier in slave mode: the bit clock is modelled per interface, not per identifier.
- A stream direction that is neither playback nor capture: the two values of `Direction` are the only ones.
- `SharedInterfaceTheorems.RunAccounts`: runs on which no interface ever has 2^32 streams open, because the reference count goes round there; the steps themselves do go round. The pin counters do not.
- Devices whose sleep state or clock fails later on: only the return codes of the calls made are modelled.
- The port group's own contents and the number of ports per group: a group is counted as one; the stored handle that a second enable overwrites is not followed.
- SLIMbus `hw_params` and the properties given to the channel definition (rate, width, watermark): they touch neither channels nor ports.
- A query that fails is taken to leave its entry of the handle array as it was.
- The text of the auxiliary device names (which the fixed buffer cuts off): only the number in the name is kept.
- `AuxDevices.AssignedSelection`: for phandle lists that end at their counts, because the device-tree functions the set-up calls say so of each other.
- `LatencyQos.CountIsBacklog`: runs that begin with room for one client per callback below 2^32, because the unsigned count goes round there.
- What the DAI makes of its offset table when the port is started (the slot mask and the group configuration), and the other DAIs of its file.
- `TdmSlots.SlotMap.HwParams`: requires an id of one of the board's interfaces, because the links name no other and the code indexes its tables with it.
- The card's null device check, messages, and reference counts of device-tree nodes.
- Probing, removal, subsystem restart, jack detection, the tables of DAI links and port configurations, and the HDMI, stub and virtual-machine drivers: data, registration or finite lookups that would only add easy members.
